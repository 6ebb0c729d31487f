/** No command failure loses mail. */
module Conservation {
  import opened MailStore
  import opened Types
  import opened Commands
  import opened ImapClient
  import opened ActionExecutor
  import opened MoveRefinement

  /** The mailboxes an action list files into, in order. */
  function Targets(actions: seq<SieveAction>): seq<string> {
    if actions == [] then []
    else (if actions[0].FileInto? then [actions[0].mailbox] else []) + Targets(actions[1..])
  }

  ghost predicate InSource(s: Server, subj: Subject, content: Content) {
    && subj.mailbox in s
    && subj.uid in s[subj.mailbox].messages
    && s[subj.mailbox].messages[subj.uid].content == content
  }

  /** Mailbox `t` holds a message with this content that it did not hold in `s0`. */
  ghost predicate NewCopy(s0: Server, s: Server, t: string, content: Content) {
    && t in s
    && exists u :: Box(s0, t).uidnext <= u && u in s[t].messages && s[t].messages[u].content == content
  }

  ghost predicate Filed(s0: Server, s: Server, targets: seq<string>, content: Content) {
    exists t :: t in targets && NewCopy(s0, s, t, content)
  }

  /** The message is where it was, or a new copy of it is in one of the targets. */
  ghost predicate Conserved(s0: Server, s: Server, subj: Subject, targets: seq<string>, content: Content) {
    InSource(s, subj, content) || Filed(s0, s, targets, content)
  }

  ghost predicate Since(s0: Server, s: Server, subj: Subject) {
    && WellFormedServer(s0) && WellFormedServer(s) && EvolvesServer(s0, s)
    && subj.uid < Box(s0, subj.mailbox).uidnext
  }

  // ---------- a static condition on programs ----------

  /** EXPUNGE comes only after a filing command, and only `targets` are filed into. */
  predicate Cautious(cmds: seq<Command>, filed: bool, targets: seq<string>) {
    if cmds == [] then true
    else
      match cmds[0]
      case Copy(t) => t in targets && Cautious(cmds[1..], true, targets)
      case Move(t) => t in targets && Cautious(cmds[1..], true, targets)
      case Expunge => filed && Cautious(cmds[1..], filed, targets)
      case _ => Cautious(cmds[1..], filed, targets)
  }

  lemma {:induction false} CautiousConcat(a: seq<Command>, b: seq<Command>, filed: bool, targets: seq<string>)
    requires Cautious(a, filed, targets) && Cautious(b, false, targets)
    ensures Cautious(a + b, filed, targets)
    decreases |a|
  {
    if a == [] {
      assert a + b == b;
      CautiousWeaken(b, filed, targets);
    } else {
      assert (a + b)[0] == a[0] && (a + b)[1..] == a[1..] + b;
      CautiousConcat(a[1..], b, filed || a[0].Copy? || a[0].Move?, targets);
    }
  }

  lemma {:induction false} CautiousWeaken(a: seq<Command>, filed: bool, targets: seq<string>)
    requires Cautious(a, false, targets)
    ensures Cautious(a, filed, targets)
  {
    if a != [] && !a[0].Copy? && !a[0].Move? {
      CautiousWeaken(a[1..], filed, targets);
    }
  }

  lemma {:induction false} CautiousPrefix(cmds: seq<Command>, k: nat, filed: bool, targets: seq<string>)
    requires k <= |cmds| && Cautious(cmds, filed, targets)
    ensures Cautious(cmds[..k], filed, targets)
    decreases k
  {
    if k > 0 {
      assert cmds[..k][0] == cmds[0] && cmds[..k][1..] == cmds[1..][..k - 1];
      CautiousPrefix(cmds[1..], k - 1, filed || cmds[0].Copy? || cmds[0].Move?, targets);
    }
  }

  // ---------- cautious programs conserve mail ----------

  lemma IssueKeepsNewCopy(s0: Server, w: World, subj: Subject, c: Command, t: string, content: Content)
    requires Since(s0, w.server, subj) && NewCopy(s0, w.server, t, content)
    ensures NewCopy(s0, Issue(w, subj, c).0.server, t, content)
  {
    var s, s' := w.server, Issue(w, subj, c).0.server;
    var u :| Box(s0, t).uidnext <= u && u in s[t].messages && s[t].messages[u].content == content;
    IssueTouchesOnlyTheSubject(w, subj, c);
    assert OthersKept(s[t], s'[t], if t == subj.mailbox then {subj.uid} else {});
    assert u in s'[t].messages && s'[t].messages[u].content == content;
  }

  lemma FilingCommandFiles(s0: Server, w: World, subj: Subject, c: Command, t: string, content: Content)
    requires Since(s0, w.server, subj) && InSource(w.server, subj, content)
    requires c == Copy(t) || c == Move(t)
    ensures var (w', r) := Issue(w, subj, c);
            && (r.Pass? ==> NewCopy(s0, w'.server, t, content))
            && (InSource(w'.server, subj, content) || NewCopy(s0, w'.server, t, content))
  {
    var s := w.server;
    var s' := Issue(w, subj, c).0.server;
    var effect := Effect(s, w.sent, subj, c);
    if effect.Some? {
      var u := s[t].uidnext;
      assert Box(s0, t).uidnext <= u;
      assert u in effect.value.0[t].messages && effect.value.0[t].messages[u].content == content;
    }
  }

  lemma IssueKeepsSince(s0: Server, w: World, subj: Subject, c: Command)
    requires Since(s0, w.server, subj)
    ensures Since(s0, Issue(w, subj, c).0.server, subj)
  {
    IssueEvolves(w, subj, c);
    EvolvesServerTransitive(s0, w.server, Issue(w, subj, c).0.server);
  }

  lemma IssueKeepsFiled(s0: Server, w: World, subj: Subject, c: Command, targets: seq<string>, content: Content)
    requires Since(s0, w.server, subj) && Filed(s0, w.server, targets, content)
    ensures Filed(s0, Issue(w, subj, c).0.server, targets, content)
  {
    var t :| t in targets && NewCopy(s0, w.server, t, content);
    IssueKeepsNewCopy(s0, w, subj, c, t, content);
  }

  lemma OtherCommandsKeepSource(w: World, subj: Subject, c: Command, content: Content)
    requires InSource(w.server, subj, content) && !c.Copy? && !c.Move? && !c.Expunge?
    ensures InSource(Issue(w, subj, c).0.server, subj, content)
  {
  }

  lemma IssueConserves(s0: Server, w: World, subj: Subject, c: Command, filed: bool, targets: seq<string>,
                       content: Content)
    requires Since(s0, w.server, subj) && Conserved(s0, w.server, subj, targets, content)
    requires filed ==> Filed(s0, w.server, targets, content)
    requires c.Expunge? ==> filed
    requires c.Copy? || c.Move? ==> c.target in targets
    ensures var (w', r) := Issue(w, subj, c);
            && Since(s0, w'.server, subj)
            && Conserved(s0, w'.server, subj, targets, content)
            && ((filed || (r.Pass? && (c.Copy? || c.Move?))) ==> Filed(s0, w'.server, targets, content))
  {
    IssueKeepsSince(s0, w, subj, c);
    if Filed(s0, w.server, targets, content) {
      IssueKeepsFiled(s0, w, subj, c, targets, content);
    } else if c.Copy? || c.Move? {
      FilingCommandFiles(s0, w, subj, c, c.target, content);
    } else {
      OtherCommandsKeepSource(w, subj, c, content);
    }
  }

  lemma {:induction false} RunConserves(s0: Server, w: World, subj: Subject, cmds: seq<Command>, filed: bool,
                                        targets: seq<string>, content: Content)
    requires Since(s0, w.server, subj) && Conserved(s0, w.server, subj, targets, content)
    requires filed ==> Filed(s0, w.server, targets, content)
    requires Cautious(cmds, filed, targets)
    ensures Conserved(s0, Run(w, subj, cmds).0.server, subj, targets, content)
    decreases |cmds|
  {
    if cmds != [] {
      var (w1, r) := Issue(w, subj, cmds[0]);
      IssueConserves(s0, w, subj, cmds[0], filed, targets, content);
      if r.Pass? || cmds[0].Create? {
        RunConserves(s0, w1, subj, cmds[1..], filed || cmds[0].Copy? || cmds[0].Move?, targets, content);
      }
    }
  }

  // ---------- what the executor issues before the deletion is cautious ----------

  lemma {:induction false} FlagCommandsCautious(actions: seq<SieveAction>, targets: seq<string>)
    ensures Cautious(FlagCommands(actions), false, targets)
  {
    if actions != [] {
      FlagCommandsCautious(actions[1..], targets);
      assert FlagCommand(actions[0]) != [] ==> FlagCommand(actions[0])[1..] == [];
      CautiousConcat(FlagCommand(actions[0]), FlagCommands(actions[1..]), false, targets);
    }
  }

  lemma DispositionCautious(caps: Capabilities, smtp: bool, ctx: MessageContext, a: SieveAction, targets: seq<string>)
    requires a.FileInto? ==> a.mailbox in targets
    ensures Cautious(DispositionCommand(caps, smtp, ctx, a), false, targets)
  {
    var cmds := DispositionCommand(caps, smtp, ctx, a);
    if a.FileInto? {
      var t := a.mailbox;
      var tail := if a.copy then [Copy(t)] else MoveCommands(caps, t);
      assert tail[0] == Copy(t) || tail[0] == Move(t);
      assert tail[1..] == [] || tail[1..] == [Store(Add, {DELETED})] || tail[1..] == [Store(Add, {DELETED}), Expunge];
      assert [Store(Add, {DELETED}), Expunge][1..] == [Expunge] && [Expunge][1..] == [];
      assert Cautious([Expunge], true, targets);
      assert Cautious([Store(Add, {DELETED}), Expunge], true, targets);
      assert [Store(Add, {DELETED})][1..] == [];
      assert Cautious(tail, false, targets);
      if a.create {
        assert cmds[0] == Create(t) && cmds[1..] == tail;
      } else {
        assert cmds == tail;
      }
    } else if cmds != [] {
      assert cmds[1..] == [];
    }
  }

  lemma {:induction false} DispositionsCautious(caps: Capabilities, smtp: bool, ctx: MessageContext,
                                                actions: seq<SieveAction>, targets: seq<string>)
    requires forall t | t in Targets(actions) :: t in targets
    ensures Cautious(DispositionCommands(caps, smtp, ctx, actions), false, targets)
    decreases |actions|
  {
    if actions != [] {
      assert forall t | t in Targets(actions[1..]) :: t in Targets(actions);
      if actions[0].FileInto? { assert Targets(actions)[0] == actions[0].mailbox; }
      DispositionCautious(caps, smtp, ctx, actions[0], targets);
      DispositionsCautious(caps, smtp, ctx, actions[1..], targets);
      CautiousConcat(DispositionCommand(caps, smtp, ctx, actions[0]),
                     DispositionCommands(caps, smtp, ctx, actions[1..]), false, targets);
    }
  }

  /** The part of the executor's program that comes before the deferred deletion. */
  function BeforeDeletion(caps: Capabilities, smtp: bool, ctx: MessageContext,
                          actions: seq<SieveAction>): seq<Command> {
    FlagCommands(actions) + DispositionCommands(caps, smtp, ctx, actions)
  }

  /** After every command up to the deferred deletion, whichever commands failed and
      however, the message is in the source or a new copy of it is in a target. */
  lemma MailIsConserved(w: World, mailbox: string, caps: Capabilities, smtp: bool, ctx: MessageContext,
                        actions: seq<SieveAction>, k: nat)
    requires WellFormedServer(w.server) && InSource(w.server, Subject(mailbox, ctx.uid), ctx.content)
    requires k <= |BeforeDeletion(caps, smtp, ctx, actions)|
    ensures var subj := Subject(mailbox, ctx.uid);
            Conserved(w.server, Run(w, subj, BeforeDeletion(caps, smtp, ctx, actions)[..k]).0.server,
                      subj, Targets(actions), ctx.content)
  {
    var cmds := BeforeDeletion(caps, smtp, ctx, actions);
    var targets := Targets(actions);
    FlagCommandsCautious(actions, targets);
    DispositionsCautious(caps, smtp, ctx, actions, targets);
    CautiousConcat(FlagCommands(actions), DispositionCommands(caps, smtp, ctx, actions), false, targets);
    CautiousPrefix(cmds, k, false, targets);
    EvolvesReflexive(w.server);
    RunConserves(w.server, w, Subject(mailbox, ctx.uid), cmds[..k], false, targets, ctx.content);
  }

  /** An execution that is not to discard, whatever fails in it, conserves the message;
      one that is to discard and fails before the deletion does too. The deletion is
      reached only when every command before it, CREATE apart, was answered OK. */
  lemma DeletionComesLast(w: World, mailbox: string, caps: Capabilities, smtp: bool, ctx: MessageContext,
                          actions: seq<SieveAction>)
    requires WellFormedServer(w.server) && InSource(w.server, Subject(mailbox, ctx.uid), ctx.content)
    ensures var subj := Subject(mailbox, ctx.uid);
            var (w', r) := Executed(w, mailbox, caps, smtp, ctx, actions);
            var (w1, r1) := Run(w, subj, BeforeDeletion(caps, smtp, ctx, actions));
            && (!Discards(actions) || r1.Fail? ==>
                  (w', r) == (w1, r1) && Conserved(w.server, w'.server, subj, Targets(actions), ctx.content))
            && (Discards(actions) && r1.Pass? ==>
                  (forall i | |w.log| <= i < |w1.log| :: w1.log[i].ok || w1.log[i].command.Create?))
  {
    var subj := Subject(mailbox, ctx.uid);
    var cmds := BeforeDeletion(caps, smtp, ctx, actions);
    RunConcat(w, subj, cmds, DeletionCommands(caps, Discards(actions)));
    MailIsConserved(w, mailbox, caps, smtp, ctx, actions, |cmds|);
    assert cmds[..|cmds|] == cmds && cmds + [] == cmds;
    if Run(w, subj, cmds).1.Pass? {
      PassMeansAllOk(w, subj, cmds);
    }
  }

  lemma {:induction false} PassMeansAllOk(w: World, subj: Subject, cmds: seq<Command>)
    requires Run(w, subj, cmds).1.Pass?
    ensures var log := Run(w, subj, cmds).0.log;
            && w.log <= log
            && (forall i | |w.log| <= i < |log| :: log[i].ok || log[i].command.Create?)
    decreases |cmds|
  {
    if cmds != [] {
      PassMeansAllOk(Issue(w, subj, cmds[0]).0, subj, cmds[1..]);
    }
  }
}
