/** Commands issued on behalf of one message, and programs of commands.

    Every command may fail, before or after it took effect on the server; the
    sequence `fates` says what befalls the commands still to come. A program stops
    at its first failing command, except that a failing CREATE is ignored. */
module Commands {
  import opened Prelude
  import opened MailStore
  import opened Types

  /** The message a program is about: its UID in the selected mailbox. */
  datatype Subject = Subject(mailbox: string, uid: Uid)

  datatype Command =
    | Store(op: FlagOp, flags: set<string>)
    | Create(mailbox: string)
    | Copy(target: string)
    | Move(target: string)
    | Expunge
    | Send(mail: OutgoingMail)
    | Abort(error: CoreError)

  datatype Fate = Completes | FailsUnapplied | FailsApplied

  datatype Entry = Entry(command: Command, ok: bool)

  /** The mail store, the mail sent so far, the fates to come, and the log of commands. */
  datatype World = World(server: Server, sent: seq<OutgoingMail>, fates: seq<Fate>, log: seq<Entry>)

  /** What a command changes when the server carries it out; `None` when it refuses. */
  function Effect(s: Server, sent: seq<OutgoingMail>, subj: Subject, c: Command): Option<(Server, seq<OutgoingMail>)> {
    match c
    case Store(op, flags) =>
      if subj.mailbox in s then
        Some((s[subj.mailbox := StoreFlags(s[subj.mailbox], subj.uid, op, flags)], sent))
      else None
    case Create(b) =>
      (match CreateBox(s, b) case None => None case Some(s') => Some((s', sent)))
    case Copy(t) =>
      (match CopyTo(s, subj.mailbox, subj.uid, t) case None => None case Some(s') => Some((s', sent)))
    case Move(t) =>
      (match MoveTo(s, subj.mailbox, subj.uid, t) case None => None case Some(s') => Some((s', sent)))
    case Expunge =>
      if subj.mailbox in s then
        Some((s[subj.mailbox := ExpungeOne(s[subj.mailbox], subj.uid)], sent))
      else None
    case Send(mail) => Some((s, sent + [mail]))
    case Abort(_) => None
  }

  function NextFate(fates: seq<Fate>): Fate {
    if fates == [] then Completes else fates[0]
  }

  function LaterFates(fates: seq<Fate>): seq<Fate> {
    if fates == [] then [] else fates[1..]
  }

  function FailureOf(c: Command): CoreError {
    match c
    case Send(_) => Smtp("send failed")
    case Abort(e) => e
    case _ => Imap("command failed")
  }

  /** One command on the wire. An abort is a local error: nothing is sent. */
  function Issue(w: World, subj: Subject, c: Command): (World, Outcome<CoreError>) {
    if c.Abort? then
      (w, Fail(c.error))
    else
      var fate := NextFate(w.fates);
      var effect := Effect(w.server, w.sent, subj, c);
      var ok := effect.Some? && fate == Completes;
      var applied := effect.Some? && fate != FailsUnapplied;
      var w' := World(if applied then effect.value.0 else w.server,
                      if applied then effect.value.1 else w.sent,
                      LaterFates(w.fates),
                      w.log + [Entry(c, ok)]);
      (w', if ok then Pass else Fail(FailureOf(c)))
  }

  function Run(w: World, subj: Subject, cmds: seq<Command>): (World, Outcome<CoreError>)
    decreases |cmds|
  {
    if cmds == [] then (w, Pass)
    else
      var (w1, r) := Issue(w, subj, cmds[0]);
      if r.Fail? && !cmds[0].Create? then (w1, r) else Run(w1, subj, cmds[1..])
  }

  /** Running two programs one after the other. */
  lemma {:induction false} RunConcat(w: World, subj: Subject, a: seq<Command>, b: seq<Command>)
    ensures Run(w, subj, a + b) == if Run(w, subj, a).1.Fail? then Run(w, subj, a) else Run(Run(w, subj, a).0, subj, b)
    decreases |a|
  {
    if a == [] {
      assert a + b == b;
    } else {
      assert (a + b)[0] == a[0] && (a + b)[1..] == a[1..] + b;
      RunConcat(Issue(w, subj, a[0]).0, subj, a[1..], b);
    }
  }

  lemma RunOne(w: World, subj: Subject, c: Command)
    ensures !c.Create? ==> Run(w, subj, [c]) == Issue(w, subj, c)
    ensures c.Create? ==> Run(w, subj, [c]) == (Issue(w, subj, c).0, Pass)
  {
    assert [c][1..] == [];
  }

  lemma RunCons(w: World, subj: Subject, c: Command, rest: seq<Command>)
    ensures Run(w, subj, [c] + rest) ==
            if Issue(w, subj, c).1.Fail? && !c.Create? then Issue(w, subj, c) else Run(Issue(w, subj, c).0, subj, rest)
  {
    assert ([c] + rest)[1..] == rest;
  }

  /** Whatever is run, and whatever fails, the store only evolves. */
  lemma IssueEvolves(w: World, subj: Subject, c: Command)
    requires WellFormedServer(w.server)
    ensures EvolvesServer(w.server, Issue(w, subj, c).0.server)
  {
    var s := w.server;
    EvolvesReflexive(s);
    match c
    case Store(op, flags) =>
      if subj.mailbox in s {
        StoreFlagsEvolves(s[subj.mailbox], subj.uid, op, flags);
        UpdateEvolves(s, subj.mailbox, StoreFlags(s[subj.mailbox], subj.uid, op, flags));
      }
    case Create(b) =>
      if b !in s { UpdateEvolves(s, b, EMPTY_MAILBOX); }
    case Copy(t) =>
      if CopyTo(s, subj.mailbox, subj.uid, t).Some? { CopyEvolves(s, subj.mailbox, subj.uid, t); }
    case Move(t) =>
      if MoveTo(s, subj.mailbox, subj.uid, t).Some? { MoveEvolves(s, subj.mailbox, subj.uid, t); }
    case Expunge =>
      if subj.mailbox in s {
        DropEvolves(s[subj.mailbox], subj.uid);
        UpdateEvolves(s, subj.mailbox, ExpungeOne(s[subj.mailbox], subj.uid));
      }
    case Send(_) =>
    case Abort(_) =>
  }

  lemma {:induction false} RunEvolves(w: World, subj: Subject, cmds: seq<Command>)
    requires WellFormedServer(w.server)
    ensures EvolvesServer(w.server, Run(w, subj, cmds).0.server)
    decreases |cmds|
  {
    if cmds == [] {
      EvolvesReflexive(w.server);
    } else {
      var w1 := Issue(w, subj, cmds[0]).0;
      IssueEvolves(w, subj, cmds[0]);
      RunEvolves(w1, subj, cmds[1..]);
      EvolvesServerTransitive(w.server, w1.server, Run(w1, subj, cmds[1..]).0.server);
    }
  }

  /** In every run, a command goes out only after all commands before it, CREATE
      apart, were answered OK: at most the last one logged failed. */
  lemma {:induction false} OnlyTheLastFails(w: World, subj: Subject, cmds: seq<Command>, i: nat)
    requires |w.log| <= i
    ensures var log := Run(w, subj, cmds).0.log;
            w.log <= log && (i + 1 < |log| ==> log[i].ok || log[i].command.Create?)
    decreases |cmds|
  {
    if cmds != [] {
      var (w1, r) := Issue(w, subj, cmds[0]);
      if r.Pass? || cmds[0].Create? {
        OnlyTheLastFails(w1, subj, cmds[1..], if i < |w1.log| then |w1.log| else i);
      }
    }
  }
}
