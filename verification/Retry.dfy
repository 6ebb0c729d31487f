/** How many copies repeated attempts at one message can leave behind. */
module Retry {
  import opened Prelude
  import opened MailStore
  import opened Types
  import opened Commands
  import opened ImapClient
  import opened ActionExecutor
  import opened Conservation
  import opened Sketches
  import opened Pipeline
  import opened SieveEngine
  import opened EndToEnd
  import opened Outgoing

  /** The world and the last answer after one attempt per element of `fates`. */
  function Attempts(w: World, mailbox: string, caps: Capabilities, smtp: bool, ctx: MessageContext,
                    actions: seq<SieveAction>, fates: seq<seq<Fate>>): (World, Outcome<CoreError>)
    requires fates != []
    decreases |fates|
  {
    var first := Executed(w.(fates := fates[0]), mailbox, caps, smtp, ctx, actions);
    if |fates| == 1 then first else Attempts(first.0, mailbox, caps, smtp, ctx, actions, fates[1..])
  }

  ghost predicate GainedAtMost(a: Mailbox, b: Mailbox, content: Content, n: nat) {
    a.uidnext <= b.uidnext <= a.uidnext + n && Gained(a, b, content, b.uidnext - a.uidnext)
  }

  /** The message, if it is still in the source at all. */
  ghost predicate SourceHasOnly(s: Server, subj: Subject, content: Content) {
    && subj.mailbox in s
    && subj.uid < s[subj.mailbox].uidnext
    && (subj.uid in s[subj.mailbox].messages ==> s[subj.mailbox].messages[subj.uid].content == content)
  }

  function Presence(s: Server, subj: Subject): nat {
    if subj.mailbox in s && subj.uid in s[subj.mailbox].messages then 1 else 0
  }

  function CountFiling(cmds: seq<Command>, t: string): nat {
    if cmds == [] then 0
    else (if (cmds[0].Copy? || cmds[0].Move?) && cmds[0].target == t then 1 else 0) + CountFiling(cmds[1..], t)
  }

  // ---------- upper bound ----------

  lemma GainedTransitive(a: Mailbox, b: Mailbox, c: Mailbox, content: Content, n: nat, m: nat)
    requires WellFormed(a) && WellFormed(b) && Gained(a, b, content, n) && Gained(b, c, content, m)
    ensures Gained(a, c, content, n + m)
  {
    forall u | a.uidnext <= u < c.uidnext ensures u in c.messages && c.messages[u].content == content {
      if u < b.uidnext { assert u in b.messages; }
    }
  }

  lemma GainedAtMostTransitive(a: Mailbox, b: Mailbox, c: Mailbox, content: Content, n: nat, m: nat)
    requires WellFormed(a) && WellFormed(b) && GainedAtMost(a, b, content, n) && GainedAtMost(b, c, content, m)
    ensures GainedAtMost(a, c, content, n + m)
  {
    GainedTransitive(a, b, c, content, b.uidnext - a.uidnext, c.uidnext - b.uidnext);
  }

  /** Only a filing command that is carried out changes another mailbox. */
  lemma IssueOnlyFiles(w: World, subj: Subject, c: Command, t: string)
    requires t != subj.mailbox
    ensures var s' := Issue(w, subj, c).0.server;
            || Box(s', t) == Box(w.server, t)
            || ((c.Copy? || c.Move?) && CopyTo(w.server, subj.mailbox, subj.uid, c.target).Some?
                && Box(s', t) == Box(CopyTo(w.server, subj.mailbox, subj.uid, c.target).value, t))
  {
  }

  lemma IssueGains(w: World, subj: Subject, c: Command, t: string, content: Content)
    requires WellFormedServer(w.server) && SourceHasOnly(w.server, subj, content) && t != subj.mailbox
    ensures SourceHasOnly(Issue(w, subj, c).0.server, subj, content)
    ensures GainedAtMost(Box(w.server, t), Box(Issue(w, subj, c).0.server, t), content, CountFiling([c], t))
  {
    IssueEvolves(w, subj, c);
    IssueOnlyFiles(w, subj, c, t);
    assert WellFormed(Box(w.server, t));
    assert [c][1..] == [];
    if Box(Issue(w, subj, c).0.server, t) != Box(w.server, t) {
      CopyGains(w.server, subj, c.target, t, content);
    }
  }

  lemma CopyGains(s: Server, subj: Subject, target: string, t: string, content: Content)
    requires WellFormedServer(s) && SourceHasOnly(s, subj, content) && t != subj.mailbox
    requires CopyTo(s, subj.mailbox, subj.uid, target).Some?
    ensures var n := if target == t && subj.uid in s[subj.mailbox].messages then 1 else 0;
            Gained(Box(s, t), Box(CopyTo(s, subj.mailbox, subj.uid, target).value, t), content, n)
  {
    assert WellFormed(Box(s, t));
  }

  lemma {:induction false} RunGains(w: World, subj: Subject, cmds: seq<Command>, t: string, content: Content)
    requires WellFormedServer(w.server) && SourceHasOnly(w.server, subj, content) && t != subj.mailbox
    ensures var s' := Run(w, subj, cmds).0.server;
            && SourceHasOnly(s', subj, content)
            && GainedAtMost(Box(w.server, t), Box(s', t), content, CountFiling(cmds, t))
    decreases |cmds|
  {
    assert WellFormed(Box(w.server, t));
    if cmds != [] {
      var w1 := Issue(w, subj, cmds[0]).0;
      IssueGains(w, subj, cmds[0], t, content);
      IssueEvolves(w, subj, cmds[0]);
      RunGains(w1, subj, cmds[1..], t, content);
      GainedAtMostTransitive(Box(w.server, t), Box(w1.server, t), Box(Run(w1, subj, cmds[1..]).0.server, t), content,
                             CountFiling([cmds[0]], t), CountFiling(cmds[1..], t));
      CountFilingConcat([cmds[0]], cmds[1..], t);
      assert [cmds[0]] + cmds[1..] == cmds;
    }
  }

  lemma {:induction false} CountFilingConcat(a: seq<Command>, b: seq<Command>, t: string)
    ensures CountFiling(a + b, t) == CountFiling(a, t) + CountFiling(b, t)
  {
    if a == [] {
      assert a + b == b;
    } else {
      assert (a + b)[0] == a[0] && (a + b)[1..] == a[1..] + b;
      CountFilingConcat(a[1..], b, t);
    }
  }

  lemma {:induction false} FlagsFileNothing(actions: seq<SieveAction>, t: string)
    ensures CountFiling(FlagCommands(actions), t) == 0
  {
    if actions != [] {
      FlagsFileNothing(actions[1..], t);
      CountFilingConcat(FlagCommand(actions[0]), FlagCommands(actions[1..]), t);
      assert FlagCommand(actions[0]) != [] ==> FlagCommand(actions[0])[1..] == [];
    }
  }

  lemma MoveFilesOnce(caps: Capabilities, b: string, t: string)
    ensures CountFiling(MoveCommands(caps, b), t) == if b == t then 1 else 0
  {
    var mark := [Store(Add, {DELETED})];
    assert mark[1..] == [] && [Copy(b)][1..] == [] && [Move(b)][1..] == [] && [Expunge][1..] == [];
    CountFilingConcat(mark, [Expunge], t);
    CountFilingConcat([Copy(b)], mark, t);
    CountFilingConcat([Copy(b)], mark + [Expunge], t);
    assert [Copy(b)] + mark == [Copy(b), Store(Add, {DELETED})];
    assert [Copy(b)] + (mark + [Expunge]) == [Copy(b), Store(Add, {DELETED}), Expunge];
  }

  lemma DispositionFilesOnce(caps: Capabilities, smtp: bool, ctx: MessageContext, a: SieveAction, t: string)
    ensures CountFiling(DispositionCommand(caps, smtp, ctx, a), t) == if a.FileInto? && a.mailbox == t then 1 else 0
  {
    var cmds := DispositionCommand(caps, smtp, ctx, a);
    if a.FileInto? {
      var b := a.mailbox;
      var head := if a.create then [Create(b)] else [];
      var tail := if a.copy then [Copy(b)] else MoveCommands(caps, b);
      assert cmds == head + tail;
      CountFilingConcat(head, tail, t);
      assert CountFiling(head, t) == 0 by { assert head != [] ==> head[1..] == []; }
      MoveFilesOnce(caps, b, t);
      assert [Copy(b)][1..] == [];
    } else if cmds != [] {
      assert cmds[1..] == [];
    }
  }

  lemma {:induction false} DispositionsFile(caps: Capabilities, smtp: bool, ctx: MessageContext,
                                            actions: seq<SieveAction>, t: string)
    ensures CountFiling(DispositionCommands(caps, smtp, ctx, actions), t) == Count(Targets(actions), t)
    decreases |actions|
  {
    if actions != [] {
      DispositionsFile(caps, smtp, ctx, actions[1..], t);
      DispositionFilesOnce(caps, smtp, ctx, actions[0], t);
      CountFilingConcat(DispositionCommand(caps, smtp, ctx, actions[0]),
                        DispositionCommands(caps, smtp, ctx, actions[1..]), t);
      if actions[0].FileInto? {
        assert Targets(actions)[0] == actions[0].mailbox && Targets(actions)[1..] == Targets(actions[1..]);
      } else {
        assert Targets(actions) == Targets(actions[1..]);
      }
    }
  }

  lemma ProgramFiles(caps: Capabilities, smtp: bool, ctx: MessageContext, actions: seq<SieveAction>, t: string)
    ensures CountFiling(Program(caps, smtp, ctx, actions), t) == Count(Targets(actions), t)
  {
    var fs, ds := FlagCommands(actions), DispositionCommands(caps, smtp, ctx, actions);
    var del := DeletionCommands(caps, Discards(actions));
    FlagsFileNothing(actions, t);
    DispositionsFile(caps, smtp, ctx, actions, t);
    CountFilingConcat(fs, ds, t);
    CountFilingConcat(fs + ds, del, t);
    DeletionFilesNothing(caps, Discards(actions), t);
  }

  lemma DeletionFilesNothing(caps: Capabilities, discarded: bool, t: string)
    ensures CountFiling(DeletionCommands(caps, discarded), t) == 0
  {
    var mark := [Store(Add, {DELETED})];
    assert mark[1..] == [] && [Expunge][1..] == [];
    CountFilingConcat(mark, [Expunge], t);
    assert mark + [Expunge] == [Store(Add, {DELETED}), Expunge];
  }

  /** One attempt, whatever becomes of it. */
  lemma AttemptGains(w: World, mailbox: string, caps: Capabilities, smtp: bool, ctx: MessageContext,
                     actions: seq<SieveAction>, t: string)
    requires WellFormedServer(w.server) && SourceHasOnly(w.server, Subject(mailbox, ctx.uid), ctx.content)
    requires t != mailbox
    ensures var s' := Executed(w, mailbox, caps, smtp, ctx, actions).0.server;
            && WellFormedServer(s')
            && SourceHasOnly(s', Subject(mailbox, ctx.uid), ctx.content)
            && GainedAtMost(Box(w.server, t), Box(s', t), ctx.content, Count(Targets(actions), t))
  {
    var subj, cmds := Subject(mailbox, ctx.uid), Program(caps, smtp, ctx, actions);
    RunEvolves(w, subj, cmds);
    RunGains(w, subj, cmds, t, ctx.content);
    ProgramFiles(caps, smtp, ctx, actions, t);
  }

  lemma OneMore(n: nat, m: nat)
    ensures (n + 1) * m == m + n * m
  {
  }

  /** No number of attempts, however they fail, files more copies into a mailbox than
      attempts times the FileInto actions that name it. */
  lemma {:induction false} AttemptsGainAtMost(w: World, mailbox: string, caps: Capabilities, smtp: bool,
                                              ctx: MessageContext, actions: seq<SieveAction>,
                                              fates: seq<seq<Fate>>, t: string)
    requires WellFormedServer(w.server) && SourceHasOnly(w.server, Subject(mailbox, ctx.uid), ctx.content)
    requires fates != [] && t != mailbox
    ensures var s' := Attempts(w, mailbox, caps, smtp, ctx, actions, fates).0.server;
            && WellFormedServer(s')
            && GainedAtMost(Box(w.server, t), Box(s', t), ctx.content, |fates| * Count(Targets(actions), t))
    decreases |fates|
  {
    var m := Count(Targets(actions), t);
    AttemptGains(w.(fates := fates[0]), mailbox, caps, smtp, ctx, actions, t);
    if |fates| > 1 {
      var w1 := Executed(w.(fates := fates[0]), mailbox, caps, smtp, ctx, actions).0;
      AttemptsGainAtMost(w1, mailbox, caps, smtp, ctx, actions, fates[1..], t);
      var s' := Attempts(w1, mailbox, caps, smtp, ctx, actions, fates[1..]).0.server;
      assert WellFormed(Box(w.server, t)) && WellFormed(Box(w1.server, t));
      GainedAtMostTransitive(Box(w.server, t), Box(w1.server, t), Box(s', t), ctx.content, m, |fates[1..]| * m);
      OneMore(|fates[1..]|, m);
    }
  }

  // ---------- what a failed attempt leaves in the source ----------

  predicate RemovesNothing(cmds: seq<Command>) {
    forall i :: 0 <= i < |cmds| ==> !cmds[i].Move? && !cmds[i].Expunge?
  }

  lemma {:induction false} RunKeepsSource(w: World, subj: Subject, cmds: seq<Command>, content: Content)
    requires WellFormedServer(w.server) && InSource(w.server, subj, content) && RemovesNothing(cmds)
    ensures InSource(Run(w, subj, cmds).0.server, subj, content)
    decreases |cmds|
  {
    if cmds != [] {
      IssueEvolves(w, subj, cmds[0]);
      assert InSource(Issue(w, subj, cmds[0]).0.server, subj, content);
      RunKeepsSource(Issue(w, subj, cmds[0]).0, subj, cmds[1..], content);
    }
  }

  lemma RemovesNothingConcat(a: seq<Command>, b: seq<Command>)
    requires RemovesNothing(a) && RemovesNothing(b)
    ensures RemovesNothing(a + b)
  {
  }

  lemma ActionRemovesNothing(caps: Capabilities, smtp: bool, ctx: MessageContext, a: SieveAction)
    requires a.FileInto? ==> a.copy || !Removes(caps)
    ensures RemovesNothing(FlagCommand(a)) && RemovesNothing(DispositionCommand(caps, smtp, ctx, a))
  {
  }

  lemma {:induction false} PassesRemoveNothing(caps: Capabilities, smtp: bool, ctx: MessageContext,
                                               actions: seq<SieveAction>)
    requires !(Removes(caps) && HasMove(actions))
    ensures RemovesNothing(FlagCommands(actions)) && RemovesNothing(DispositionCommands(caps, smtp, ctx, actions))
    decreases |actions|
  {
    if actions != [] {
      var a, rest := actions[0], actions[1..];
      PassesRemoveNothing(caps, smtp, ctx, rest);
      ActionRemovesNothing(caps, smtp, ctx, a);
      RemovesNothingConcat(FlagCommand(a), FlagCommands(rest));
      RemovesNothingConcat(DispositionCommand(caps, smtp, ctx, a), DispositionCommands(caps, smtp, ctx, rest));
    }
  }

  /** A list that leaves the message in place when it succeeds does so when it fails. */
  lemma AttemptKeepsSource(w: World, mailbox: string, caps: Capabilities, smtp: bool, ctx: MessageContext,
                           actions: seq<SieveAction>)
    requires WellFormedServer(w.server) && InSource(w.server, Subject(mailbox, ctx.uid), ctx.content)
    requires LeavesInPlace(caps, actions)
    ensures InSource(Executed(w, mailbox, caps, smtp, ctx, actions).0.server, Subject(mailbox, ctx.uid), ctx.content)
  {
    PassesRemoveNothing(caps, smtp, ctx, actions);
    assert RemovesNothing(DeletionCommands(caps, Discards(actions)));
    RunKeepsSource(w, Subject(mailbox, ctx.uid), Program(caps, smtp, ctx, actions), ctx.content);
  }

  /** Where a fault-free program takes the message away, the command that does it may
      take effect and still be answered with an error. */
  lemma {:induction false} LossyFates(w: World, subj: Subject, cmds: seq<Command>) returns (fates: seq<Fate>)
    requires w.fates == [] && Run(w, subj, cmds).1.Pass?
    requires Presence(w.server, subj) == 1 && Presence(Run(w, subj, cmds).0.server, subj) == 0
    ensures var (w', r) := Run(w.(fates := fates), subj, cmds); r.Fail? && Presence(w'.server, subj) == 0
    decreases |cmds|
  {
    var w1 := Issue(w, subj, cmds[0]).0;
    if Presence(w1.server, subj) == 0 {
      fates := [FailsApplied];
    } else {
      var later := LossyFates(w1, subj, cmds[1..]);
      fates := [Completes] + later;
      assert fates[1..] == later;
      assert Issue(w.(fates := fates), subj, cmds[0]).0 == w1.(fates := later);
    }
  }

  /** An attempt with these fates, if it fails, leaves the message where it was. */
  ghost predicate FailsSafely(w: World, mailbox: string, caps: Capabilities, smtp: bool, ctx: MessageContext,
                              actions: seq<SieveAction>, fates: seq<Fate>)
  {
    var (w', r) := Executed(w.(fates := fates), mailbox, caps, smtp, ctx, actions);
    r.Fail? ==> InSource(w'.server, Subject(mailbox, ctx.uid), ctx.content)
  }

  /** Every failing attempt at a feasible list leaves the message to be retried exactly
      when the list neither moves it, on a server where filing removes, nor discards it,
      on a server with UIDPLUS. */
  lemma FailsSafelyIff(w: World, mailbox: string, caps: Capabilities, smtp: bool, ctx: MessageContext,
                       actions: seq<SieveAction>)
    requires WellFormedServer(w.server) && InSource(w.server, Subject(mailbox, ctx.uid), ctx.content)
    requires Calm(w.(fates := []), Subject(mailbox, ctx.uid), |actions|) && mailbox !in Targets(actions)
    requires Feasible(w.server.Keys, smtp, ctx, actions)
    ensures (forall fates :: FailsSafely(w, mailbox, caps, smtp, ctx, actions, fates)) <==> LeavesInPlace(caps, actions)
  {
    var w0 := w.(fates := []);
    if LeavesInPlace(caps, actions) {
      forall fates ensures FailsSafely(w, mailbox, caps, smtp, ctx, actions, fates) {
        AttemptKeepsSource(w.(fates := fates), mailbox, caps, smtp, ctx, actions);
      }
    } else {
      ExecutionSucceedsIff(w0, mailbox, caps, smtp, ctx, actions);
      SuccessfulExecution(w0, mailbox, caps, smtp, ctx, actions);
      var fates := LossyFates(w0, Subject(mailbox, ctx.uid), Program(caps, smtp, ctx, actions));
      assert w0.(fates := fates) == w.(fates := fates);
      assert !FailsSafely(w, mailbox, caps, smtp, ctx, actions, fates);
    }
  }

  // ---------- copies, or one move: the lower bound ----------

  /** All filings are copies, or there is one filing only. */
  predicate CopiesOrOne(actions: seq<SieveAction>) {
    !HasMove(actions) || |Targets(actions)| == 1
  }

  lemma {:induction false} OneFilingMoves(actions: seq<SieveAction>)
    requires HasMove(actions) && |Targets(actions)| == 1
    ensures AllMoves(actions)
  {
    if actions[0].FileInto? {
      NoTargetsNoFilings(actions[1..]);
    } else {
      assert Targets(actions) == Targets(actions[1..]);
      OneFilingMoves(actions[1..]);
    }
  }

  lemma {:induction false} NoTargetsNoFilings(actions: seq<SieveAction>)
    requires Targets(actions) == []
    ensures forall i :: 0 <= i < |actions| ==> !actions[i].FileInto?
    ensures !HasMove(actions)
  {
    if actions != [] { NoTargetsNoFilings(actions[1..]); }
  }

  lemma FilingsCounted(caps: Capabilities, flags: set<string>, actions: seq<SieveAction>, t: string)
    requires CopiesOrOne(actions)
    ensures |FiledIn(Filings(caps, flags, actions), t)| == Count(Targets(actions), t)
  {
    if !HasMove(actions) {
      FilingsOfCopies(caps, flags, actions, t);
    } else if Removes(caps) {
      OneFilingMoves(actions);
      FilingsOfMoves(caps, flags, actions, t);
    } else {
      FilingsWithoutRemoval(caps, flags, actions, t);
    }
  }

  lemma CountOne(targets: seq<string>, t: string)
    requires |targets| == 1
    ensures Count(targets, t) == if targets[0] == t then 1 else 0
  {
    assert targets[1..] == [];
  }

  /** An attempt that fails before the deletion has filed what it took away. */
  lemma FailedPassesFile(w: World, mailbox: string, caps: Capabilities, smtp: bool, ctx: MessageContext,
                         actions: seq<SieveAction>, t: string)
    requires WellFormedServer(w.server) && InSource(w.server, Subject(mailbox, ctx.uid), ctx.content)
    requires CopiesOrOne(actions)
    requires var s' := Run(w, Subject(mailbox, ctx.uid), BeforeDeletion(caps, smtp, ctx, actions)).0.server;
             !InSource(s', Subject(mailbox, ctx.uid), ctx.content)
    ensures var s' := Run(w, Subject(mailbox, ctx.uid), BeforeDeletion(caps, smtp, ctx, actions)).0.server;
            Box(w.server, t).uidnext + Count(Targets(actions), t) <= Box(s', t).uidnext
  {
    var subj, cmds := Subject(mailbox, ctx.uid), BeforeDeletion(caps, smtp, ctx, actions);
    RunEvolves(w, subj, cmds);
    var s' := Run(w, subj, cmds).0.server;
    assert WellFormed(Box(w.server, t)) && WellFormed(Box(s', t));
    if HasMove(actions) {
      CountOne(Targets(actions), t);
      MailIsConserved(w, mailbox, caps, smtp, ctx, actions, |cmds|);
      assert cmds[..|cmds|] == cmds;
      var x :| x in Targets(actions) && NewCopy(w.server, s', x, ctx.content);
    } else {
      PassesRemoveNothing(caps, smtp, ctx, actions);
      RunKeepsSource(w, subj, cmds, ctx.content);
    }
  }

  /** One attempt that answers OK, or that takes the message away, has filed it. */
  lemma AttemptFiles(w: World, mailbox: string, caps: Capabilities, smtp: bool, ctx: MessageContext,
                     actions: seq<SieveAction>, t: string)
    requires WellFormedServer(w.server) && InSource(w.server, Subject(mailbox, ctx.uid), ctx.content)
    requires CopiesOrOne(actions) && mailbox !in Targets(actions) && t != mailbox
    ensures var (w', r) := Executed(w, mailbox, caps, smtp, ctx, actions);
            r.Pass? || !InSource(w'.server, Subject(mailbox, ctx.uid), ctx.content) ==>
              Box(w.server, t).uidnext + Count(Targets(actions), t) <= Box(w'.server, t).uidnext
  {
    var subj, deletion := Subject(mailbox, ctx.uid), DeletionCommands(caps, Discards(actions));
    RunConcat(w, subj, BeforeDeletion(caps, smtp, ctx, actions), deletion);
    var (w1, r1) := Run(w, subj, BeforeDeletion(caps, smtp, ctx, actions));
    RunEvolves(w, subj, BeforeDeletion(caps, smtp, ctx, actions));
    if r1.Pass? {
      SuccessfulPasses(w, mailbox, caps, smtp, ctx, actions);
      FilingsCounted(caps, FoldFlags(w.server[mailbox].messages[ctx.uid].flags, actions), actions, t);
      RunEvolves(w1, subj, deletion);
      assert WellFormed(Box(Run(w1, subj, deletion).0.server, t));
    } else if !InSource(w1.server, subj, ctx.content) {
      FailedPassesFile(w, mailbox, caps, smtp, ctx, actions, t);
    }
  }

  lemma AttemptStaysGone(w: World, mailbox: string, caps: Capabilities, smtp: bool, ctx: MessageContext,
                         actions: seq<SieveAction>)
    requires WellFormedServer(w.server) && SourceHasOnly(w.server, Subject(mailbox, ctx.uid), ctx.content)
    requires Presence(w.server, Subject(mailbox, ctx.uid)) == 0
    ensures Presence(Executed(w, mailbox, caps, smtp, ctx, actions).0.server, Subject(mailbox, ctx.uid)) == 0
  {
    RunEvolves(w, Subject(mailbox, ctx.uid), Program(caps, smtp, ctx, actions));
  }

  lemma {:induction false} AttemptsStayGone(w: World, mailbox: string, caps: Capabilities, smtp: bool,
                                            ctx: MessageContext, actions: seq<SieveAction>,
                                            fates: seq<seq<Fate>>, t: string)
    requires WellFormedServer(w.server) && SourceHasOnly(w.server, Subject(mailbox, ctx.uid), ctx.content)
    requires Presence(w.server, Subject(mailbox, ctx.uid)) == 0 && fates != [] && t != mailbox
    ensures Presence(Attempts(w, mailbox, caps, smtp, ctx, actions, fates).0.server, Subject(mailbox, ctx.uid)) == 0
    decreases |fates|
  {
    AttemptStaysGone(w.(fates := fates[0]), mailbox, caps, smtp, ctx, actions);
    AttemptGains(w.(fates := fates[0]), mailbox, caps, smtp, ctx, actions, t);
    if |fates| > 1 {
      AttemptsStayGone(Executed(w.(fates := fates[0]), mailbox, caps, smtp, ctx, actions).0,
                       mailbox, caps, smtp, ctx, actions, fates[1..], t);
    }
  }

  /** For a list whose filings are all copies, or that has one filing: after k failed
      attempts and one that answers OK, a mailbox named m times has gained between m and
      m(k+1) copies, and the message is in the source exactly when the list leaves it. */
  lemma {:induction false} RetryBounds(w: World, mailbox: string, caps: Capabilities, smtp: bool, ctx: MessageContext,
                                       actions: seq<SieveAction>, fates: seq<seq<Fate>>, t: string)
    requires WellFormedServer(w.server) && InSource(w.server, Subject(mailbox, ctx.uid), ctx.content)
    requires CopiesOrOne(actions) && mailbox !in Targets(actions) && t != mailbox
    requires fates != [] && Attempts(w, mailbox, caps, smtp, ctx, actions, fates).1.Pass?
    ensures var s' := Attempts(w, mailbox, caps, smtp, ctx, actions, fates).0.server;
            var m := Count(Targets(actions), t);
            && (Presence(s', Subject(mailbox, ctx.uid)) == 1 <==> LeavesInPlace(caps, actions))
            && Box(w.server, t).uidnext + m <= Box(s', t).uidnext
            && GainedAtMost(Box(w.server, t), Box(s', t), ctx.content, |fates| * m)
    decreases |fates|
  {
    var subj, w0 := Subject(mailbox, ctx.uid), w.(fates := fates[0]);
    AttemptsGainAtMost(w, mailbox, caps, smtp, ctx, actions, fates, t);
    AttemptFiles(w0, mailbox, caps, smtp, ctx, actions, t);
    if |fates| == 1 {
      SuccessfulExecution(w0, mailbox, caps, smtp, ctx, actions);
    } else {
      var w1 := Executed(w0, mailbox, caps, smtp, ctx, actions).0;
      AttemptGains(w0, mailbox, caps, smtp, ctx, actions, t);
      if InSource(w1.server, subj, ctx.content) {
        RetryBounds(w1, mailbox, caps, smtp, ctx, actions, fates[1..], t);
      } else {
        if LeavesInPlace(caps, actions) { AttemptKeepsSource(w0, mailbox, caps, smtp, ctx, actions); }
        AttemptsGainAtMost(w1, mailbox, caps, smtp, ctx, actions, fates[1..], t);
        AttemptsStayGone(w1, mailbox, caps, smtp, ctx, actions, fates[1..], t);
      }
    }
  }

  // ---------- one native move: exactly one copy ----------

  predicate MovesOnlyTo(cmds: seq<Command>, t: string) {
    forall i :: 0 <= i < |cmds| ==> !cmds[i].Copy? && !cmds[i].Expunge? && (cmds[i].Move? ==> cmds[i].target == t)
  }

  /** What leaves the source arrives at the target, at every failure point. */
  lemma {:induction false} MoveBalances(w: World, subj: Subject, cmds: seq<Command>, t: string, content: Content)
    requires WellFormedServer(w.server) && SourceHasOnly(w.server, subj, content) && t != subj.mailbox
    requires MovesOnlyTo(cmds, t)
    ensures var s' := Run(w, subj, cmds).0.server;
            && SourceHasOnly(s', subj, content)
            && Presence(s', subj) <= Presence(w.server, subj)
            && Gained(Box(w.server, t), Box(s', t), content, Presence(w.server, subj) - Presence(s', subj))
    decreases |cmds|
  {
    assert WellFormed(Box(w.server, t));
    if cmds != [] {
      var w1 := Issue(w, subj, cmds[0]).0;
      IssueBalances(w, subj, cmds[0], t, content);
      MoveBalances(w1, subj, cmds[1..], t, content);
      var s' := Run(w1, subj, cmds[1..]).0.server;
      GainedTransitive(Box(w.server, t), Box(w1.server, t), Box(s', t), content,
                       Presence(w.server, subj) - Presence(w1.server, subj),
                       Presence(w1.server, subj) - Presence(s', subj));
    }
  }

  lemma IssueBalances(w: World, subj: Subject, c: Command, t: string, content: Content)
    requires WellFormedServer(w.server) && SourceHasOnly(w.server, subj, content) && t != subj.mailbox
    requires !c.Copy? && !c.Expunge? && (c.Move? ==> c.target == t)
    ensures var s' := Issue(w, subj, c).0.server;
            && WellFormedServer(s') && SourceHasOnly(s', subj, content)
            && Presence(s', subj) <= Presence(w.server, subj)
            && Gained(Box(w.server, t), Box(s', t), content, Presence(w.server, subj) - Presence(s', subj))
  {
    IssueEvolves(w, subj, c);
    IssueGains(w, subj, c, t, content);
    assert WellFormed(Box(w.server, t));
    if c.Move? && CopyTo(w.server, subj.mailbox, subj.uid, t).Some? {
      CopyGains(w.server, subj, t, t, content);
    }
  }

  lemma OneMoveShape(caps: Capabilities, smtp: bool, ctx: MessageContext, a: SieveAction, t: string)
    requires caps.supportsMove && (a.FileInto? ==> !a.copy && a.mailbox == t)
    ensures MovesOnlyTo(FlagCommand(a), t) && MovesOnlyTo(DispositionCommand(caps, smtp, ctx, a), t)
  {
    if a.FileInto? {
      assert DispositionCommand(caps, smtp, ctx, a) == (if a.create then [Create(t)] else []) + [Move(t)];
    }
  }

  lemma {:induction false} SingleMoveShape(caps: Capabilities, smtp: bool, ctx: MessageContext,
                                           actions: seq<SieveAction>, t: string)
    requires caps.supportsMove && AllMoves(actions) && (forall x | x in Targets(actions) :: x == t)
    ensures MovesOnlyTo(FlagCommands(actions), t) && MovesOnlyTo(DispositionCommands(caps, smtp, ctx, actions), t)
    decreases |actions|
  {
    if actions != [] {
      var a := actions[0];
      assert forall x | x in Targets(actions[1..]) :: x in Targets(actions);
      assert AllMoves(actions[1..]);
      if a.FileInto? { assert Targets(actions)[0] in Targets(actions); }
      OneMoveShape(caps, smtp, ctx, a, t);
      SingleMoveShape(caps, smtp, ctx, actions[1..], t);
      MovesOnlyToConcat(FlagCommand(a), FlagCommands(actions[1..]), t);
      MovesOnlyToConcat(DispositionCommand(caps, smtp, ctx, a), DispositionCommands(caps, smtp, ctx, actions[1..]), t);
    }
  }

  lemma MovesOnlyToConcat(a: seq<Command>, b: seq<Command>, t: string)
    requires MovesOnlyTo(a, t) && MovesOnlyTo(b, t)
    ensures MovesOnlyTo(a + b, t)
  {
  }

  /** Deleting what is not there changes no mailbox. */
  lemma DeletionOfGone(w: World, subj: Subject, caps: Capabilities)
    requires subj.mailbox in w.server && subj.uid !in w.server[subj.mailbox].messages
    ensures Run(w, subj, DeletionCommands(caps, true)).0.server == w.server
  {
    var mark := Store(Add, {DELETED});
    DeletionUnfolds(w, subj, caps);
    assert w.server[subj.mailbox := w.server[subj.mailbox]] == w.server;
    assert Issue(w, subj, mark).0.server == w.server;
    assert Issue(Issue(w, subj, mark).0, subj, Expunge).0.server == w.server;
  }

  /** One attempt: what leaves the source arrives, and an OK means it has left. */
  lemma NativeAttempt(w: World, mailbox: string, caps: Capabilities, smtp: bool, ctx: MessageContext,
                      actions: seq<SieveAction>, t: string)
    requires WellFormedServer(w.server) && SourceHasOnly(w.server, Subject(mailbox, ctx.uid), ctx.content)
    requires caps.supportsMove && AllMoves(actions) && HasMove(actions)
    requires t != mailbox && (forall x | x in Targets(actions) :: x == t)
    ensures var (w', r) := Executed(w, mailbox, caps, smtp, ctx, actions);
            var subj := Subject(mailbox, ctx.uid);
            && WellFormedServer(w'.server) && SourceHasOnly(w'.server, subj, ctx.content)
            && Presence(w'.server, subj) <= Presence(w.server, subj)
            && Gained(Box(w.server, t), Box(w'.server, t), ctx.content,
                      Presence(w.server, subj) - Presence(w'.server, subj))
            && (r.Pass? ==> Presence(w'.server, subj) == 0)
  {
    var subj, passes := Subject(mailbox, ctx.uid), BeforeDeletion(caps, smtp, ctx, actions);
    var (w1, r1) := Run(w, subj, passes);
    SingleMoveShape(caps, smtp, ctx, actions, t);
    MovesOnlyToConcat(FlagCommands(actions), DispositionCommands(caps, smtp, ctx, actions), t);
    MoveBalances(w, subj, passes, t, ctx.content);
    RunConcat(w, subj, passes, DeletionCommands(caps, Discards(actions)));
    RunEvolves(w, subj, passes);
    if r1.Pass? {
      if Presence(w.server, subj) == 1 { SuccessfulPasses(w, mailbox, caps, smtp, ctx, actions); }
      if Discards(actions) { DeletionOfGone(w1, subj, caps); }
    }
  }

  /** With the MOVE extension, a list that files into one mailbox without :copy leaves
      exactly one copy there once an attempt answers OK, whatever failed before. */
  lemma {:induction false} NativeMoveIsExactlyOnce(w: World, mailbox: string, caps: Capabilities, smtp: bool,
                                                   ctx: MessageContext, actions: seq<SieveAction>,
                                                   fates: seq<seq<Fate>>, t: string)
    requires WellFormedServer(w.server) && SourceHasOnly(w.server, Subject(mailbox, ctx.uid), ctx.content)
    requires caps.supportsMove && AllMoves(actions) && HasMove(actions)
    requires t != mailbox && (forall x | x in Targets(actions) :: x == t)
    requires fates != [] && Attempts(w, mailbox, caps, smtp, ctx, actions, fates).1.Pass?
    ensures var s' := Attempts(w, mailbox, caps, smtp, ctx, actions, fates).0.server;
            var subj := Subject(mailbox, ctx.uid);
            && Presence(s', subj) == 0
            && Gained(Box(w.server, t), Box(s', t), ctx.content, Presence(w.server, subj))
    decreases |fates|
  {
    var subj, w0 := Subject(mailbox, ctx.uid), w.(fates := fates[0]);
    NativeAttempt(w0, mailbox, caps, smtp, ctx, actions, t);
    if |fates| > 1 {
      var w1 := Executed(w0, mailbox, caps, smtp, ctx, actions).0;
      NativeMoveIsExactlyOnce(w1, mailbox, caps, smtp, ctx, actions, fates[1..], t);
      var s' := Attempts(w1, mailbox, caps, smtp, ctx, actions, fates[1..]).0.server;
      GainedTransitive(Box(w.server, t), Box(w1.server, t), Box(s', t), ctx.content,
                       Presence(w.server, subj) - Presence(w1.server, subj), Presence(w1.server, subj));
    }
  }

  // ---------- mail, over the attempts ----------

  lemma {:induction false} CountConcat<T>(a: seq<T>, b: seq<T>, x: T)
    ensures Count(a + b, x) == Count(a, x) + Count(b, x)
  {
    if a == [] {
      assert a + b == b;
    } else {
      assert (a + b)[0] == a[0] && (a + b)[1..] == a[1..] + b;
      CountConcat(a[1..], b, x);
    }
  }

  lemma CountPrefix<T>(a: seq<T>, b: seq<T>, x: T)
    requires a <= b
    ensures Count(a, x) <= Count(b, x)
  {
    assert b == a + b[|a|..];
    CountConcat(a, b[|a|..], x);
  }

  /** A log that grows in two steps, the first one by a prefix of `mails`. */
  lemma CountBothParts<T>(a: seq<T>, b: seq<T>, c: seq<T>, mails: seq<T>, x: T)
    requires a <= b <= a + mails && b <= c
    ensures a <= c
    ensures Count(c[|b|..], x) <= Count(c[|a|..], x) <= Count(mails, x) + Count(c[|b|..], x)
  {
    var first := b[|a|..];
    assert b == a + first && c[|a|..] == first + c[|b|..];
    assert first <= mails by { assert mails == (a + mails)[|a|..]; }
    CountConcat(first, c[|b|..], x);
    CountPrefix(first, mails, x);
  }

  /** Over k failed attempts and one that answers OK, each redirect and each rejection is
      sent at least once and at most k+1 times, and nothing else is sent. */
  lemma {:induction false} MailBounds(w: World, mailbox: string, caps: Capabilities, smtp: bool, ctx: MessageContext,
                                      actions: seq<SieveAction>, fates: seq<seq<Fate>>, x: OutgoingMail)
    requires fates != [] && Attempts(w, mailbox, caps, smtp, ctx, actions, fates).1.Pass?
    ensures var sent := Attempts(w, mailbox, caps, smtp, ctx, actions, fates).0.sent;
            var m := Count(ActionMails(ctx, actions), x);
            w.sent <= sent && m <= Count(sent[|w.sent|..], x) <= |fates| * m
    decreases |fates|
  {
    var w0, mails := w.(fates := fates[0]), ActionMails(ctx, actions);
    var w1 := Executed(w0, mailbox, caps, smtp, ctx, actions).0;
    ExecutionSends(w0, mailbox, caps, smtp, ctx, actions);
    if |fates| > 1 {
      MailBounds(w1, mailbox, caps, smtp, ctx, actions, fates[1..], x);
      CountBothParts(w.sent, w1.sent, Attempts(w1, mailbox, caps, smtp, ctx, actions, fates[1..]).0.sent, mails, x);
      OneMore(|fates[1..]|, Count(mails, x));
    } else {
      assert w1.sent[|w.sent|..] == mails;
    }
  }

  /** The same, for an event list: as often as its redirect and reject events say. */
  lemma RetriedMails(w: World, mailbox: string, caps: Capabilities, smtp: bool, ctx: MessageContext,
                     run: RuntimeRun, fates: seq<seq<Fate>>, x: OutgoingMail)
    requires ctx.content.raw.Some? && Completed(run) && fates != []
    requires Attempts(w, mailbox, caps, smtp, ctx, Evaluation(ctx.content, run).value, fates).1.Pass?
    ensures var sent := Attempts(w, mailbox, caps, smtp, ctx, Evaluation(ctx.content, run).value, fates).0.sent;
            var m := Count(MailsOf(ctx, Events(run)), x);
            w.sent <= sent && m <= Count(sent[|w.sent|..], x) <= |fates| * m
  {
    NormalisedMails(ctx, Events(run));
    MailBounds(w, mailbox, caps, smtp, ctx, Normalised(TranslateAll(Events(run))), fates, x);
  }
}
