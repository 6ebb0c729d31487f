/** The mail store behind an IMAP connection, as the value the commands act on.

    The functions of this module are the server's side of the contract the daemon
    relies on: unique identifiers ascend and are never reused (section 2.3.1.1 of
    RFC 3501), a UID command that names no message succeeds and does nothing
    (section 6.4.8 of RFC 3501), COPY keeps flags (section 6.4.7 of RFC 3501), UID
    EXPUNGE removes only a listed message that carries \Deleted (section 2.1 of
    RFC 4315), and MOVE is atomic per message (section 3.3 of RFC 6851). */
module MailStore {
  import opened Prelude

  type Uid = nat

  // Unique identifiers and UIDNEXT are non-zero 32-bit numbers.
  const MAX_UID: nat := 0xFFFF_FFFF

  const DELETED := "\\Deleted"

  datatype FlagOp = Add | Remove | Set

  /** What a message says, as a fetch delivers it: its octets, when the server sent
      them, and the sender taken from Return-Path or the envelope. */
  datatype Content = Content(raw: Option<string>, sender: Option<string>)

  datatype Message = Message(content: Content, flags: set<string>, modseq: nat)

  datatype Mailbox = Mailbox(messages: map<Uid, Message>, uidnext: nat, uidvalidity: nat, highestmodseq: nat)

  type Server = map<string, Mailbox>

  const EMPTY_MAILBOX := Mailbox(map[], 1, 1, 0)

  ghost predicate WellFormed(mb: Mailbox) {
    && 1 <= mb.uidnext <= MAX_UID
    && (forall u | u in mb.messages :: 1 <= u < mb.uidnext)
    && (forall u | u in mb.messages :: mb.messages[u].modseq <= mb.highestmodseq)
  }

  ghost predicate WellFormedServer(s: Server) {
    forall b | b in s :: WellFormed(s[b])
  }

  /** What may happen to a mailbox while its UIDVALIDITY stands: messages come and go
      and flags change, but an identifier never gets a second message, and what arrives
      or changes gets a higher modification sequence than any before. */
  ghost predicate Evolves(mb: Mailbox, mb': Mailbox) {
    && WellFormed(mb')
    && mb'.uidvalidity == mb.uidvalidity
    && mb.uidnext <= mb'.uidnext
    && mb.highestmodseq <= mb'.highestmodseq
    && (forall u | u in mb'.messages ::
          u in mb.messages || (mb.uidnext <= u && mb.highestmodseq < mb'.messages[u].modseq))
    && (forall u | u in mb'.messages && u in mb.messages ::
          && mb'.messages[u].content == mb.messages[u].content
          && mb.messages[u].modseq <= mb'.messages[u].modseq
          && (mb'.messages[u] == mb.messages[u] || mb.highestmodseq < mb'.messages[u].modseq))
  }

  ghost predicate EvolvesServer(s: Server, s': Server) {
    && WellFormedServer(s')
    && (forall b | b in s :: b in s' && Evolves(s[b], s'[b]))
  }

  /** The mailbox, or the empty one that CREATE would make. */
  function Box(s: Server, b: string): Mailbox {
    if b in s then s[b] else EMPTY_MAILBOX
  }

  predicate HasRoom(mb: Mailbox) {
    mb.uidnext < MAX_UID
  }

  function Append(mb: Mailbox, content: Content, flags: set<string>): Mailbox {
    var modseq := mb.highestmodseq + 1;
    Mailbox(mb.messages[mb.uidnext := Message(content, flags, modseq)], mb.uidnext + 1, mb.uidvalidity, modseq)
  }

  function Drop(mb: Mailbox, uid: Uid): Mailbox {
    if uid in mb.messages then mb.(messages := mb.messages - {uid}, highestmodseq := mb.highestmodseq + 1) else mb
  }

  function NewFlags(op: FlagOp, current: set<string>, flags: set<string>): set<string> {
    match op
    case Add => current + flags
    case Remove => current - flags
    case Set => flags
  }

  function StoreFlags(mb: Mailbox, uid: Uid, op: FlagOp, flags: set<string>): Mailbox {
    if uid in mb.messages then
      var m := mb.messages[uid];
      var modseq := mb.highestmodseq + 1;
      mb.(messages := mb.messages[uid := Message(m.content, NewFlags(op, m.flags, flags), modseq)],
          highestmodseq := modseq)
    else
      mb
  }

  function ExpungeOne(mb: Mailbox, uid: Uid): Mailbox {
    if uid in mb.messages && DELETED in mb.messages[uid].flags then Drop(mb, uid) else mb
  }

  /** UID COPY; `None` is a refusal, which leaves the store as it was. */
  function CopyTo(s: Server, source: string, uid: Uid, target: string): Option<Server> {
    if source !in s || target !in s then None
    else if uid !in s[source].messages then Some(s)
    else if !HasRoom(s[target]) then None
    else
      var m := s[source].messages[uid];
      Some(s[target := Append(s[target], m.content, m.flags)])
  }

  /** UID MOVE: the copy arrives and the original leaves in one step. */
  function MoveTo(s: Server, source: string, uid: Uid, target: string): Option<Server> {
    match CopyTo(s, source, uid, target)
    case None => None
    case Some(s1) => Some(s1[source := Drop(s1[source], uid)])
  }

  function CreateBox(s: Server, b: string): Option<Server> {
    if b in s then None else Some(s[b := EMPTY_MAILBOX])
  }

  // ---------- every store operation keeps the identifier contract ----------

  lemma EvolvesReflexive(s: Server)
    requires WellFormedServer(s)
    ensures EvolvesServer(s, s)
  {
  }

  lemma EvolvesTransitive(a: Mailbox, b: Mailbox, c: Mailbox)
    requires WellFormed(a) && Evolves(a, b) && Evolves(b, c)
    ensures Evolves(a, c)
  {
    // An identifier of `a` that `c` still has was never gone in between.
    assert forall u | u in c.messages && u in a.messages :: u in b.messages;
  }

  lemma EvolvesServerTransitive(a: Server, b: Server, c: Server)
    requires WellFormedServer(a) && EvolvesServer(a, b) && EvolvesServer(b, c)
    ensures EvolvesServer(a, c)
  {
    forall x | x in a ensures x in c && Evolves(a[x], c[x]) {
      EvolvesTransitive(a[x], b[x], c[x]);
    }
  }

  lemma AppendEvolves(mb: Mailbox, content: Content, flags: set<string>)
    requires WellFormed(mb) && HasRoom(mb)
    ensures Evolves(mb, Append(mb, content, flags))
  {
  }

  lemma DropEvolves(mb: Mailbox, uid: Uid)
    requires WellFormed(mb)
    ensures Evolves(mb, Drop(mb, uid)) && Evolves(mb, ExpungeOne(mb, uid))
  {
  }

  lemma StoreFlagsEvolves(mb: Mailbox, uid: Uid, op: FlagOp, flags: set<string>)
    requires WellFormed(mb)
    ensures Evolves(mb, StoreFlags(mb, uid, op, flags))
  {
  }

  lemma UpdateEvolves(s: Server, b: string, mb: Mailbox)
    requires WellFormedServer(s)
    requires if b in s then Evolves(s[b], mb) else WellFormed(mb)
    ensures EvolvesServer(s, s[b := mb])
  {
  }

  lemma CopyEvolves(s: Server, source: string, uid: Uid, target: string)
    requires WellFormedServer(s) && CopyTo(s, source, uid, target).Some?
    ensures EvolvesServer(s, CopyTo(s, source, uid, target).value)
  {
    if uid in s[source].messages {
      var m := s[source].messages[uid];
      AppendEvolves(s[target], m.content, m.flags);
      UpdateEvolves(s, target, Append(s[target], m.content, m.flags));
    }
  }

  lemma MoveEvolves(s: Server, source: string, uid: Uid, target: string)
    requires WellFormedServer(s) && MoveTo(s, source, uid, target).Some?
    ensures EvolvesServer(s, MoveTo(s, source, uid, target).value)
  {
    var s1 := CopyTo(s, source, uid, target).value;
    CopyEvolves(s, source, uid, target);
    DropEvolves(s1[source], uid);
    UpdateEvolves(s1, source, Drop(s1[source], uid));
    EvolvesServerTransitive(s, s1, s1[source := Drop(s1[source], uid)]);
  }
}
