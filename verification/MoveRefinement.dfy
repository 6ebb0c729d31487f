/** COPY, STORE and EXPUNGE against the atomic MOVE they stand in for. */
module MoveRefinement {
  import opened MailStore
  import opened Types
  import opened Commands
  import opened ImapClient

  // ---------- frame ----------

  /** Every message but the subject is, in every mailbox, exactly as it was. */
  ghost predicate OthersUntouched(s0: Server, s: Server, subj: Subject) {
    forall b | b in s0 :: b in s && OthersKept(s0[b], s[b], if b == subj.mailbox then {subj.uid} else {})
  }

  ghost predicate OthersKept(mb: Mailbox, mb': Mailbox, except: set<Uid>) {
    forall u | u in mb.messages && u !in except :: u in mb'.messages && mb'.messages[u] == mb.messages[u]
  }

  lemma IssueTouchesOnlyTheSubject(w: World, subj: Subject, c: Command)
    requires WellFormedServer(w.server)
    ensures OthersUntouched(w.server, Issue(w, subj, c).0.server, subj)
  {
    var s := w.server;
    match c
    case Copy(t) => CopyTouches(s, subj, t);
    case Move(t) => CopyTouches(s, subj, t);
    case _ =>
  }

  lemma CopyTouches(s: Server, subj: Subject, t: string)
    requires WellFormedServer(s)
    ensures CopyTo(s, subj.mailbox, subj.uid, t).Some? ==>
              forall b | b in s :: b in CopyTo(s, subj.mailbox, subj.uid, t).value
                                   && OthersKept(s[b], CopyTo(s, subj.mailbox, subj.uid, t).value[b], {})
  {
  }

  /** Whatever is executed and whatever fails, no other message is touched. */
  lemma {:induction false} RunTouchesOnlyTheSubject(w: World, subj: Subject, cmds: seq<Command>)
    requires WellFormedServer(w.server)
    ensures OthersUntouched(w.server, Run(w, subj, cmds).0.server, subj)
    decreases |cmds|
  {
    if cmds != [] {
      var w1 := Issue(w, subj, cmds[0]).0;
      IssueTouchesOnlyTheSubject(w, subj, cmds[0]);
      IssueEvolves(w, subj, cmds[0]);
      RunTouchesOnlyTheSubject(w1, subj, cmds[1..]);
      var s, s1, s2 := w.server, w1.server, Run(w1, subj, cmds[1..]).0.server;
      forall b | b in s
        ensures b in s2 && OthersKept(s[b], s2[b], if b == subj.mailbox then {subj.uid} else {})
      {
        assert OthersKept(s1[b], s2[b], if b == subj.mailbox then {subj.uid} else {});
      }
    }
  }

  // ---------- refinement ----------

  /** The same mail under the same identifiers, modification sequences apart. */
  ghost predicate SameMail(a: Mailbox, b: Mailbox) {
    && a.uidnext == b.uidnext && a.uidvalidity == b.uidvalidity
    && a.messages.Keys == b.messages.Keys
    && (forall u | u in a.messages ::
          a.messages[u].content == b.messages[u].content && a.messages[u].flags == b.messages[u].flags)
  }

  ghost predicate SameStore(a: Server, b: Server) {
    a.Keys == b.Keys && forall x | x in a :: SameMail(a[x], b[x])
  }

  /** The three states the fallback passes through when nothing is refused. */
  function Copied(s: Server, subj: Subject, t: string): Server {
    match CopyTo(s, subj.mailbox, subj.uid, t) case Some(s1) => s1 case None => s
  }

  function Marked(s: Server, subj: Subject, t: string): Server {
    var s1 := Copied(s, subj, t);
    if subj.mailbox in s1 then s1[subj.mailbox := StoreFlags(s1[subj.mailbox], subj.uid, Add, {DELETED})] else s1
  }

  function Removed(s: Server, subj: Subject, t: string): Server {
    var s2 := Marked(s, subj, t);
    if subj.mailbox in s2 then s2[subj.mailbox := ExpungeOne(s2[subj.mailbox], subj.uid)] else s2
  }

  lemma MarkedThenExpunged(mb: Mailbox, u: Uid)
    ensures SameMail(ExpungeOne(StoreFlags(mb, u, Add, {DELETED}), u), Drop(mb, u))
  {
    if u in mb.messages {
      var marked := StoreFlags(mb, u, Add, {DELETED});
      assert DELETED in marked.messages[u].flags;
      assert marked.messages - {u} == mb.messages - {u};
    }
  }

  lemma RemovedIsMoved(s: Server, subj: Subject, t: string)
    requires MoveTo(s, subj.mailbox, subj.uid, t).Some?
    ensures SameStore(Removed(s, subj, t), MoveTo(s, subj.mailbox, subj.uid, t).value)
  {
    var b, u := subj.mailbox, subj.uid;
    var s1 := Copied(s, subj, t);
    MarkedThenExpunged(s1[b], u);
    var slow, fast := Removed(s, subj, t), MoveTo(s, b, u, t).value;
    assert slow == s1[b := ExpungeOne(StoreFlags(s1[b], u, Add, {DELETED}), u)];
    assert fast == s1[b := Drop(s1[b], u)];
    forall x | x in slow ensures SameMail(slow[x], fast[x]) {
      if x != b { assert slow[x] == s1[x] && fast[x] == s1[x]; }
    }
  }

  /** With UIDPLUS, the fallback succeeds on a fault-free connection exactly when the
      native MOVE does, and then leaves the same mail: the copy never carries the
      \Deleted that the original is given on its way out. */
  lemma FallbackRefinesMove(w: World, subj: Subject, t: string, caps: Capabilities, native: Capabilities)
    requires WellFormedServer(w.server) && w.fates == []
    requires !caps.supportsMove && caps.uidplus && native.supportsMove
    ensures var (slow, r) := Run(w, subj, MoveCommands(caps, t));
            var (fast, r') := Run(w, subj, MoveCommands(native, t));
            r.Pass? == r'.Pass? && SameStore(slow.server, fast.server)
  {
    MoveUnfolds(w, subj, caps, t);
    MoveUnfolds(w, subj, native, t);
    if MoveTo(w.server, subj.mailbox, subj.uid, t).Some? {
      RemovedIsMoved(w.server, subj, t);
    }
  }

  /** Wherever a failure stops the fallback, the store is in one of the states between
      the two ends; it answers OK only at the far end, or without UIDPLUS at the last
      state but one. */
  lemma FallbackStopsBetween(w: World, subj: Subject, t: string, caps: Capabilities)
    requires !caps.supportsMove
    ensures var (w', r) := Run(w, subj, MoveCommands(caps, t));
            var s := w.server;
            && w'.server in {s, Copied(s, subj, t), Marked(s, subj, t), Removed(s, subj, t)}
            && (!caps.uidplus ==> w'.server in {s, Copied(s, subj, t), Marked(s, subj, t)})
            && (r.Pass? ==> MoveTo(s, subj.mailbox, subj.uid, t).Some?
                            && w'.server == if caps.uidplus then Removed(s, subj, t) else Marked(s, subj, t))
  {
    MoveUnfolds(w, subj, caps, t);
  }

  ghost predicate StillInSource(s: Server, subj: Subject, m: Message) {
    && subj.mailbox in s
    && subj.uid in s[subj.mailbox].messages
    && s[subj.mailbox].messages[subj.uid].content == m.content
  }

  ghost predicate NewestIs(s: Server, t: string, u: Uid, m: Message) {
    && t in s && s[t].uidnext == u + 1 && u in s[t].messages
    && s[t].messages[u].content == m.content && s[t].messages[u].flags == m.flags
  }

  /** Between the two ends the message is in the source, and from the first state on a
      copy with the original's flags is the newest message of the target. */
  lemma BetweenTheEnds(s: Server, subj: Subject, t: string)
    requires WellFormedServer(s) && MoveTo(s, subj.mailbox, subj.uid, t).Some?
    requires subj.uid in s[subj.mailbox].messages
    ensures var m, u := s[subj.mailbox].messages[subj.uid], s[t].uidnext;
            && StillInSource(Copied(s, subj, t), subj, m) && StillInSource(Marked(s, subj, t), subj, m)
            && NewestIs(Copied(s, subj, t), t, u, m) && NewestIs(Marked(s, subj, t), t, u, m)
            && NewestIs(Removed(s, subj, t), t, u, m)
            && !StillInSource(Removed(s, subj, t), subj, m)
  {
    var b, uid := subj.mailbox, subj.uid;
    var s1, s2 := Copied(s, subj, t), Marked(s, subj, t);
    assert uid < s[b].uidnext;
    assert uid in s1[b].messages && s1[b].messages[uid] == s[b].messages[uid];
    assert uid in s2[b].messages && DELETED in s2[b].messages[uid].flags;
  }
}
