/** The connections a session drives: one selected IMAP mailbox and the SMTP relay. */
module ImapClient {
  import opened Prelude
  import opened MailStore
  import opened Types
  import opened Commands
  import opened Fetching

  /** The commands that file one message away, with and without the MOVE extension. */
  function MoveCommands(caps: Capabilities, target: string): seq<Command> {
    if caps.supportsMove then [Move(target)]
    else if caps.uidplus then [Copy(target), Store(Add, {DELETED}), Expunge]
    else [Copy(target), Store(Add, {DELETED})]
  }

  datatype MailboxStatus = MailboxStatus(uidvalidity: nat, uidnext: nat, highestmodseq: Option<nat>)

  class Endpoints {
    const mailbox: string
    var selected: bool
    var server: Server
    var sent: seq<OutgoingMail>
    var fates: seq<Fate>
    var log: seq<Entry>

    constructor (mailbox: string, server: Server, sent: seq<OutgoingMail>)
      ensures this.mailbox == mailbox && this.server == server && this.sent == sent
      ensures !selected && fates == [] && log == []
    {
      this.mailbox := mailbox;
      this.selected := false;
      this.server := server;
      this.sent := sent;
      this.fates := [];
      this.log := [];
    }

    function View(): World
      reads this
    {
      World(server, sent, fates, log)
    }

    function About(uid: Uid): Subject {
      Subject(mailbox, uid)
    }

    /** Puts one command on the wire and waits for its answer. */
    method Command(uid: Uid, c: Command) returns (r: Outcome<CoreError>)
      modifies this`server, this`sent, this`fates, this`log
      ensures (View(), r) == Issue(old(View()), About(uid), c)
    {
      var (w, answer) := Issue(View(), About(uid), c);
      server, sent, fates, log := w.server, w.sent, w.fates, w.log;
      r := answer;
    }

    /** SELECT; a server may leave out UIDNEXT, read as 0, or HIGHESTMODSEQ. */
    method Select(tellsUidNext: bool, tellsModseq: bool) returns (status: MailboxStatus)
      modifies this`selected
      ensures selected
      ensures status == MailboxStatus(Box(server, mailbox).uidvalidity,
                                      if tellsUidNext then Box(server, mailbox).uidnext else 0,
                                      if tellsModseq then Some(Box(server, mailbox).highestmodseq) else None)
    {
      selected := true;
      var mb := Box(server, mailbox);
      status := MailboxStatus(mb.uidvalidity, if tellsUidNext then mb.uidnext else 0,
                              if tellsModseq then Some(mb.highestmodseq) else None);
    }

    /** The connection is dropped. */
    method Disconnect()
      modifies this`selected
      ensures !selected
    {
      selected := false;
    }

    /** The messages of `start:*`, with CHANGEDSINCE when given. */
    method FetchUidRange(start: nat, changedSince: Option<nat>) returns (messages: seq<MessageContext>)
      ensures messages == Fetched(Box(server, mailbox), start, changedSince)
    {
      messages := Fetched(Box(server, mailbox), start, changedSince);
    }

    /** Sets what will befall the commands for the next message. */
    method Begin(fates: seq<Fate>)
      modifies this`fates, this`log
      ensures this.fates == fates && log == []
    {
      this.fates := fates;
      log := [];
    }

    method UidMove(uid: Uid, target: string) returns (r: Outcome<CoreError>)
      modifies this`server, this`sent, this`fates, this`log
      ensures (View(), r) == Issue(old(View()), About(uid), Move(target))
    {
      r := Command(uid, Move(target));
    }

    method UidCopy(uid: Uid, target: string) returns (r: Outcome<CoreError>)
      modifies this`server, this`sent, this`fates, this`log
      ensures (View(), r) == Issue(old(View()), About(uid), Copy(target))
    {
      r := Command(uid, Copy(target));
    }

    method UidStoreFlags(uid: Uid, op: FlagOp, flags: set<string>) returns (r: Outcome<CoreError>)
      modifies this`server, this`sent, this`fates, this`log
      ensures (View(), r) == Issue(old(View()), About(uid), Store(op, flags))
    {
      r := Command(uid, Store(op, flags));
    }

    method UidExpunge(uid: Uid) returns (r: Outcome<CoreError>)
      modifies this`server, this`sent, this`fates, this`log
      ensures (View(), r) == Issue(old(View()), About(uid), Expunge)
    {
      r := Command(uid, Expunge);
    }

    method CreateMailbox(uid: Uid, mailbox: string) returns (r: Outcome<CoreError>)
      modifies this`server, this`sent, this`fates, this`log
      ensures (View(), r) == Issue(old(View()), About(uid), Create(mailbox))
    {
      r := Command(uid, Create(mailbox));
    }

    method SendMail(uid: Uid, mail: OutgoingMail) returns (r: Outcome<CoreError>)
      modifies this`server, this`sent, this`fates, this`log
      ensures (View(), r) == Issue(old(View()), About(uid), Send(mail))
    {
      r := Command(uid, Send(mail));
    }
  }

  /** MOVE where the server has it, else COPY, then STORE \Deleted, then (with UIDPLUS) UID EXPUNGE. */
  method MoveWithFallback(client: Endpoints, caps: Capabilities, uid: Uid, target: string)
    returns (r: Outcome<CoreError>)
    modifies client`server, client`sent, client`fates, client`log
    ensures (client.View(), r) == Run(old(client.View()), client.About(uid), MoveCommands(caps, target))
  {
    ghost var w0 := client.View();
    ghost var subj := client.About(uid);
    MoveUnfolds(w0, subj, caps, target);
    if caps.supportsMove {
      r := client.UidMove(uid, target);
      return;
    }
    r := client.UidCopy(uid, target);
    if r.Fail? { return; }
    r := client.UidStoreFlags(uid, Add, {DELETED});
    if r.Fail? { return; }
    if caps.uidplus {
      r := client.UidExpunge(uid);
    }
  }

  lemma MoveUnfolds(w: World, subj: Subject, caps: Capabilities, target: string)
    ensures Run(w, subj, MoveCommands(caps, target)) ==
            if caps.supportsMove then Issue(w, subj, Move(target))
            else
              var (w1, r1) := Issue(w, subj, Copy(target));
              if r1.Fail? then (w1, r1)
              else
                var (w2, r2) := Issue(w1, subj, Store(Add, {DELETED}));
                if r2.Fail? || !caps.uidplus then (w2, r2) else Issue(w2, subj, Expunge)
  {
    if caps.supportsMove {
      RunOne(w, subj, Move(target));
    } else {
      var w1 := Issue(w, subj, Copy(target)).0;
      var w2 := Issue(w1, subj, Store(Add, {DELETED})).0;
      RunOne(w2, subj, Expunge);
      RunOne(w1, subj, Store(Add, {DELETED}));
      RunCons(w1, subj, Store(Add, {DELETED}), [Expunge]);
      RunCons(w, subj, Copy(target), [Store(Add, {DELETED}), Expunge]);
      RunCons(w, subj, Copy(target), [Store(Add, {DELETED})]);
      assert [Copy(target)] + [Store(Add, {DELETED}), Expunge] == [Copy(target), Store(Add, {DELETED}), Expunge];
      assert [Copy(target)] + [Store(Add, {DELETED})] == [Copy(target), Store(Add, {DELETED})];
      assert [Store(Add, {DELETED})] + [Expunge] == [Store(Add, {DELETED}), Expunge];
    }
  }
}
