/** What a message goes through from the event stream to the mail store. */
module Pipeline {
  import opened MailStore
  import opened Types
  import opened Commands
  import opened ImapClient
  import opened ActionExecutor
  import opened Conservation
  import opened Sketches

  // ---------- two passes are a stable partition ----------

  predicate IsFlagAction(a: SieveAction) {
    a.AddFlag? || a.RemoveFlag? || a.SetFlag?
  }

  function FlagPart(actions: seq<SieveAction>): seq<SieveAction> {
    if actions == [] then []
    else (if IsFlagAction(actions[0]) then [actions[0]] else []) + FlagPart(actions[1..])
  }

  function OtherPart(actions: seq<SieveAction>): seq<SieveAction> {
    if actions == [] then []
    else (if IsFlagAction(actions[0]) then [] else [actions[0]]) + OtherPart(actions[1..])
  }

  lemma {:induction false} FlagCommandsConcat(a: seq<SieveAction>, b: seq<SieveAction>)
    ensures FlagCommands(a + b) == FlagCommands(a) + FlagCommands(b)
  {
    if a == [] {
      assert a + b == b;
    } else {
      assert (a + b)[0] == a[0] && (a + b)[1..] == a[1..] + b;
      FlagCommandsConcat(a[1..], b);
    }
  }

  lemma {:induction false} DispositionCommandsConcat(caps: Capabilities, smtp: bool, ctx: MessageContext,
                                                     a: seq<SieveAction>, b: seq<SieveAction>)
    ensures DispositionCommands(caps, smtp, ctx, a + b) ==
            DispositionCommands(caps, smtp, ctx, a) + DispositionCommands(caps, smtp, ctx, b)
    decreases |a|
  {
    if a == [] {
      assert a + b == b;
    } else {
      assert (a + b)[0] == a[0] && (a + b)[1..] == a[1..] + b;
      DispositionCommandsConcat(caps, smtp, ctx, a[1..], b);
    }
  }

  lemma DiscardsCons(a: SieveAction, rest: seq<SieveAction>)
    ensures Discards([a] + rest) == (a.Discard? || a.Reject? || Discards(rest))
  {
    var all := [a] + rest;
    if a.Discard? || a.Reject? { assert all[0] == a; }
    if Discards(rest) {
      var i :| 0 <= i < |rest| && (rest[i].Discard? || rest[i].Reject?);
      assert all[i + 1] == rest[i];
    }
    if Discards(all) && !a.Discard? && !a.Reject? {
      var i :| 0 <= i < |all| && (all[i].Discard? || all[i].Reject?);
      assert rest[i - 1] == all[i];
    }
  }

  lemma {:induction false} DiscardsConcat(a: seq<SieveAction>, b: seq<SieveAction>)
    ensures Discards(a + b) == (Discards(a) || Discards(b))
  {
    if a == [] {
      assert a + b == b;
    } else {
      assert a + b == [a[0]] + (a[1..] + b) && a == [a[0]] + a[1..];
      DiscardsCons(a[0], a[1..] + b);
      DiscardsCons(a[0], a[1..]);
      DiscardsConcat(a[1..], b);
    }
  }

  lemma PartsCons(a: SieveAction, rest: seq<SieveAction>)
    ensures FlagPart([a] + rest) == if IsFlagAction(a) then [a] + FlagPart(rest) else FlagPart(rest)
    ensures OtherPart([a] + rest) == if IsFlagAction(a) then OtherPart(rest) else [a] + OtherPart(rest)
  {
    assert ([a] + rest)[1..] == rest;
  }

  lemma {:induction false} FlagCommandsOfParts(actions: seq<SieveAction>)
    ensures FlagCommands(FlagPart(actions)) == FlagCommands(actions) && FlagCommands(OtherPart(actions)) == []
  {
    if actions != [] {
      var a, rest := actions[0], actions[1..];
      assert actions == [a] + rest;
      PartsCons(a, rest);
      FlagCommandsOfParts(rest);
      FlagCommandsConcat([a], FlagPart(rest));
      FlagCommandsConcat([a], OtherPart(rest));
      FlagCommandsConcat([a], rest);
    }
  }

  lemma {:induction false} DispositionCommandsOfParts(caps: Capabilities, smtp: bool, ctx: MessageContext,
                                                      actions: seq<SieveAction>)
    ensures DispositionCommands(caps, smtp, ctx, FlagPart(actions)) == []
    ensures DispositionCommands(caps, smtp, ctx, OtherPart(actions)) == DispositionCommands(caps, smtp, ctx, actions)
    decreases |actions|
  {
    if actions != [] {
      var a, rest := actions[0], actions[1..];
      assert actions == [a] + rest;
      PartsCons(a, rest);
      DispositionCommandsOfParts(caps, smtp, ctx, rest);
      DispositionCommandsConcat(caps, smtp, ctx, [a], FlagPart(rest));
      DispositionCommandsConcat(caps, smtp, ctx, [a], OtherPart(rest));
      DispositionCommandsConcat(caps, smtp, ctx, [a], rest);
    }
  }

  lemma {:induction false} DiscardsOfParts(actions: seq<SieveAction>)
    ensures !Discards(FlagPart(actions)) && Discards(OtherPart(actions)) == Discards(actions)
  {
    if actions != [] {
      var a, rest := actions[0], actions[1..];
      assert actions == [a] + rest;
      PartsCons(a, rest);
      DiscardsOfParts(rest);
      DiscardsCons(a, rest);
      DiscardsCons(a, FlagPart(rest));
      DiscardsCons(a, OtherPart(rest));
    }
  }

  /** For every list, world and failure: executing it is executing its flag actions and
      then its other actions, each kind in its own order. */
  lemma TwoPassesAreAPartition(w: World, mailbox: string, caps: Capabilities, smtp: bool, ctx: MessageContext,
                               actions: seq<SieveAction>)
    ensures Executed(w, mailbox, caps, smtp, ctx, actions) ==
            Executed(w, mailbox, caps, smtp, ctx, FlagPart(actions) + OtherPart(actions))
  {
    var parted := FlagPart(actions) + OtherPart(actions);
    FlagCommandsOfParts(actions);
    DispositionCommandsOfParts(caps, smtp, ctx, actions);
    DiscardsOfParts(actions);
    FlagCommandsConcat(FlagPart(actions), OtherPart(actions));
    DispositionCommandsConcat(caps, smtp, ctx, FlagPart(actions), OtherPart(actions));
    DiscardsConcat(FlagPart(actions), OtherPart(actions));
    assert FlagCommands(parted) == FlagCommands(actions);
    assert DispositionCommands(caps, smtp, ctx, parted) == DispositionCommands(caps, smtp, ctx, actions);
  }

  // ---------- what a successful execution does ----------

  /** Whether filing without :copy takes the message out of the source. */
  predicate Removes(caps: Capabilities) {
    caps.supportsMove || caps.uidplus
  }

  function ActionFlags(flags: set<string>, a: SieveAction): set<string> {
    match a
    case AddFlag(fs) => flags + fs
    case RemoveFlag(fs) => flags - fs
    case SetFlag(fs) => fs
    case _ => flags
  }

  /** The flag operations of a list, applied from left to right. */
  function FoldFlags(flags: set<string>, actions: seq<SieveAction>): set<string>
    decreases |actions|
  {
    if actions == [] then flags else FoldFlags(ActionFlags(flags, actions[0]), actions[1..])
  }

  /** The filings of a message that enters the disposition pass with these flags. */
  function Filings(caps: Capabilities, flags: set<string>, actions: seq<SieveAction>): seq<Filing>
    decreases |actions|
  {
    if actions == [] then []
    else if !actions[0].FileInto? then Filings(caps, flags, actions[1..])
    else
      [Filing(actions[0].mailbox, flags)] +
      (if actions[0].copy then Filings(caps, flags, actions[1..])
       else if Removes(caps) then []
       else Filings(caps, flags + {DELETED}, actions[1..]))
  }

  predicate HasMove(actions: seq<SieveAction>) {
    if actions == [] then false
    else (actions[0].FileInto? && !actions[0].copy) || HasMove(actions[1..])
  }

  lemma {:induction false} FlagPassSketch(sk: Sketch, actions: seq<SieveAction>)
    requires sk.present
    ensures SketchAll(sk, FlagCommands(actions)) == sk.(flags := FoldFlags(sk.flags, actions))
    decreases |actions|
  {
    if actions != [] {
      var cmds := FlagCommand(actions[0]);
      SketchConcat(sk, cmds, FlagCommands(actions[1..]));
      if cmds != [] {
        assert cmds[1..] == [];
        assert SketchAll(sk, cmds) == Sketched(sk, cmds[0]);
      }
      FlagPassSketch(SketchAll(sk, cmds), actions[1..]);
    }
  }

  lemma {:induction false} SketchGone(sk: Sketch, cmds: seq<Command>)
    requires !sk.present
    ensures SketchAll(sk, cmds) == sk
    decreases |cmds|
  {
    if cmds != [] { SketchGone(sk, cmds[1..]); }
  }

  lemma SketchOne(sk: Sketch, c: Command)
    ensures SketchAll(sk, [c]) == Sketched(sk, c)
  {
    assert [c][1..] == [];
  }

  lemma MoveSketch(sk: Sketch, caps: Capabilities, t: string)
    requires sk.present
    ensures SketchAll(sk, MoveCommands(caps, t)) ==
            if Removes(caps) then
              Sketch(false, if caps.supportsMove then sk.flags else sk.flags + {DELETED},
                     sk.filed + [Filing(t, sk.flags)])
            else
              Sketch(true, sk.flags + {DELETED}, sk.filed + [Filing(t, sk.flags)])
  {
    var sk1 := Sketched(sk, Copy(t));
    var sk2 := Sketched(sk1, Store(Add, {DELETED}));
    if caps.supportsMove {
      SketchOne(sk, Move(t));
    } else {
      SketchOne(sk, Copy(t));
      SketchOne(sk1, Store(Add, {DELETED}));
      SketchOne(sk2, Expunge);
      SketchConcat(sk, [Copy(t)], [Store(Add, {DELETED})]);
      SketchConcat(sk, [Copy(t), Store(Add, {DELETED})], [Expunge]);
      assert [Copy(t)] + [Store(Add, {DELETED})] == [Copy(t), Store(Add, {DELETED})];
      assert [Copy(t), Store(Add, {DELETED})] + [Expunge] == [Copy(t), Store(Add, {DELETED}), Expunge];
    }
  }

  lemma DispositionSketch(sk: Sketch, caps: Capabilities, smtp: bool, ctx: MessageContext, a: SieveAction)
    requires sk.present
    ensures SketchAll(sk, DispositionCommand(caps, smtp, ctx, a)) ==
            if a.FileInto? && a.copy then sk.(filed := sk.filed + [Filing(a.mailbox, sk.flags)])
            else if a.FileInto? then SketchAll(sk, MoveCommands(caps, a.mailbox))
            else sk
  {
    var cmds := DispositionCommand(caps, smtp, ctx, a);
    if a.FileInto? {
      var tail := if a.copy then [Copy(a.mailbox)] else MoveCommands(caps, a.mailbox);
      SketchConcat(sk, [Create(a.mailbox)], tail);
      SketchOne(sk, Create(a.mailbox));
      SketchOne(sk, Copy(a.mailbox));
      assert cmds == (if a.create then [Create(a.mailbox)] else []) + tail && [] + tail == tail;
    } else if cmds != [] {
      SketchOne(sk, cmds[0]);
      assert cmds == [cmds[0]];
    }
  }

  /** One disposition: what it files, and whether the message is still there. */
  lemma DispositionStep(sk: Sketch, caps: Capabilities, smtp: bool, ctx: MessageContext, a: SieveAction)
    requires sk.present
    ensures var sk1 := SketchAll(sk, DispositionCommand(caps, smtp, ctx, a));
            if !a.FileInto? then sk1 == sk
            else
              && sk1.filed == sk.filed + [Filing(a.mailbox, sk.flags)]
              && sk1.present == (a.copy || !Removes(caps))
              && (sk1.present ==> sk1.flags == if a.copy then sk.flags else sk.flags + {DELETED})
  {
    DispositionSketch(sk, caps, smtp, ctx, a);
    if a.FileInto? && !a.copy { MoveSketch(sk, caps, a.mailbox); }
  }

  lemma {:induction false} DispositionPassSketch(sk: Sketch, caps: Capabilities, smtp: bool, ctx: MessageContext,
                                                 actions: seq<SieveAction>)
    requires sk.present
    ensures var end := SketchAll(sk, DispositionCommands(caps, smtp, ctx, actions));
            && end.filed == sk.filed + Filings(caps, sk.flags, actions)
            && end.present == !(Removes(caps) && HasMove(actions))
            && (end.present ==> end.flags == sk.flags + if HasMove(actions) then {DELETED} else {})
    decreases |actions|
  {
    if actions != [] {
      var a, rest := actions[0], actions[1..];
      var sk1 := SketchAll(sk, DispositionCommand(caps, smtp, ctx, a));
      SketchConcat(sk, DispositionCommand(caps, smtp, ctx, a), DispositionCommands(caps, smtp, ctx, rest));
      DispositionStep(sk, caps, smtp, ctx, a);
      if sk1.present {
        DispositionPassSketch(sk1, caps, smtp, ctx, rest);
      } else {
        SketchGone(sk1, DispositionCommands(caps, smtp, ctx, rest));
      }
    }
  }

  lemma DeletionSketch(sk: Sketch, caps: Capabilities, discarded: bool)
    ensures var end := SketchAll(sk, DeletionCommands(caps, discarded));
            && end.filed == sk.filed && end.present == (sk.present && !(discarded && caps.uidplus))
            && (end.present ==> end.flags == sk.flags + if discarded then {DELETED} else {})
  {
    if sk.present {
      var sk1 := Sketched(sk, Store(Add, {DELETED}));
      SketchOne(sk, Store(Add, {DELETED}));
      SketchOne(sk1, Expunge);
      SketchConcat(sk, [Store(Add, {DELETED})], [Expunge]);
      assert [Store(Add, {DELETED})] + [Expunge] == [Store(Add, {DELETED}), Expunge];
    } else {
      SketchGone(sk, DeletionCommands(caps, discarded));
    }
  }

  /** Whether a successful execution leaves the message in the source. */
  predicate LeavesInPlace(caps: Capabilities, actions: seq<SieveAction>) {
    !(Removes(caps) && HasMove(actions)) && !(caps.uidplus && Discards(actions))
  }

  /** The flags of a message that was to be moved or discarded and could not be removed. */
  function MarkedFlags(flags: set<string>, actions: seq<SieveAction>): set<string> {
    flags + if HasMove(actions) || Discards(actions) then {DELETED} else {}
  }

  /** Both passes, in terms of the action list alone. */
  lemma PassesSketch(flags: set<string>, caps: Capabilities, smtp: bool, ctx: MessageContext, actions: seq<SieveAction>)
    ensures var end := SketchAll(Sketch(true, flags, []), BeforeDeletion(caps, smtp, ctx, actions));
            && end.filed == Filings(caps, FoldFlags(flags, actions), actions)
            && end.present == !(Removes(caps) && HasMove(actions))
            && (end.present ==> end.flags == FoldFlags(flags, actions) + if HasMove(actions) then {DELETED} else {})
  {
    var sk, fs := Sketch(true, flags, []), FlagCommands(actions);
    SketchConcat(sk, fs, DispositionCommands(caps, smtp, ctx, actions));
    FlagPassSketch(sk, actions);
    DispositionPassSketch(SketchAll(sk, fs), caps, smtp, ctx, actions);
  }

  /** The whole program, in terms of the action list alone. */
  lemma ProgramSketch(flags: set<string>, caps: Capabilities, smtp: bool, ctx: MessageContext,
                      actions: seq<SieveAction>)
    ensures var end := SketchAll(Sketch(true, flags, []), Program(caps, smtp, ctx, actions));
            && end.filed == Filings(caps, FoldFlags(flags, actions), actions)
            && end.present == LeavesInPlace(caps, actions)
            && (end.present ==> end.flags == MarkedFlags(FoldFlags(flags, actions), actions))
  {
    var sk, passes := Sketch(true, flags, []), BeforeDeletion(caps, smtp, ctx, actions);
    SketchConcat(sk, passes, DeletionCommands(caps, Discards(actions)));
    PassesSketch(flags, caps, smtp, ctx, actions);
    DeletionSketch(SketchAll(sk, passes), caps, Discards(actions));
  }

  lemma FilesElsewhereConcat(a: seq<Command>, b: seq<Command>, mailbox: string)
    requires FilesElsewhere(a, mailbox) && FilesElsewhere(b, mailbox)
    ensures FilesElsewhere(a + b, mailbox)
  {
  }

  lemma {:induction false} FlagsFileNowhere(actions: seq<SieveAction>, mailbox: string)
    ensures FilesElsewhere(FlagCommands(actions), mailbox)
  {
    if actions != [] {
      FlagsFileNowhere(actions[1..], mailbox);
      FilesElsewhereConcat(FlagCommand(actions[0]), FlagCommands(actions[1..]), mailbox);
    }
  }

  lemma {:induction false} DispositionsFileElsewhere(caps: Capabilities, smtp: bool, ctx: MessageContext,
                                                     actions: seq<SieveAction>, mailbox: string)
    requires mailbox !in Targets(actions)
    ensures FilesElsewhere(DispositionCommands(caps, smtp, ctx, actions), mailbox)
    decreases |actions|
  {
    if actions != [] {
      DispositionsFileElsewhere(caps, smtp, ctx, actions[1..], mailbox);
      if actions[0].FileInto? { assert Targets(actions)[0] == actions[0].mailbox; }
      FilesElsewhereConcat(DispositionCommand(caps, smtp, ctx, actions[0]),
                           DispositionCommands(caps, smtp, ctx, actions[1..]), mailbox);
    }
  }

  lemma PassesFileElsewhere(caps: Capabilities, smtp: bool, ctx: MessageContext,
                            actions: seq<SieveAction>, mailbox: string)
    requires mailbox !in Targets(actions)
    ensures FilesElsewhere(BeforeDeletion(caps, smtp, ctx, actions), mailbox)
  {
    FlagsFileNowhere(actions, mailbox);
    DispositionsFileElsewhere(caps, smtp, ctx, actions, mailbox);
    FilesElsewhereConcat(FlagCommands(actions), DispositionCommands(caps, smtp, ctx, actions), mailbox);
  }

  lemma ProgramFilesElsewhere(caps: Capabilities, smtp: bool, ctx: MessageContext,
                              actions: seq<SieveAction>, mailbox: string)
    requires mailbox !in Targets(actions)
    ensures FilesElsewhere(Program(caps, smtp, ctx, actions), mailbox)
  {
    PassesFileElsewhere(caps, smtp, ctx, actions, mailbox);
    FilesElsewhereConcat(BeforeDeletion(caps, smtp, ctx, actions), DeletionCommands(caps, Discards(actions)), mailbox);
  }

  /** When both passes have gone through, every filing has arrived. */
  lemma SuccessfulPasses(w: World, mailbox: string, caps: Capabilities, smtp: bool, ctx: MessageContext,
                         actions: seq<SieveAction>)
    requires WellFormedServer(w.server) && InSource(w.server, Subject(mailbox, ctx.uid), ctx.content)
    requires mailbox !in Targets(actions)
    requires Run(w, Subject(mailbox, ctx.uid), BeforeDeletion(caps, smtp, ctx, actions)).1.Pass?
    ensures var s, s' := w.server, Run(w, Subject(mailbox, ctx.uid), BeforeDeletion(caps, smtp, ctx, actions)).0.server;
            var flags := FoldFlags(s[mailbox].messages[ctx.uid].flags, actions);
            && mailbox in s'
            && (ctx.uid in s'[mailbox].messages <==> !(Removes(caps) && HasMove(actions)))
            && (forall t | t != mailbox ::
                  Arrived(Box(s, t), Box(s', t), ctx.content, FiledIn(Filings(caps, flags, actions), t)))
  {
    var subj := Subject(mailbox, ctx.uid);
    var m := w.server[mailbox].messages[ctx.uid];
    AgreesInitially(w.server, subj);
    PassesFileElsewhere(caps, smtp, ctx, actions, mailbox);
    PassesSketch(m.flags, caps, smtp, ctx, actions);
    RunAgrees(w.server, w, subj, BeforeDeletion(caps, smtp, ctx, actions), ctx.content, Sketch(true, m.flags, []));
  }

  /** Every successful execution, over every action list and capability set. */
  lemma SuccessfulExecution(w: World, mailbox: string, caps: Capabilities, smtp: bool, ctx: MessageContext,
                            actions: seq<SieveAction>)
    requires WellFormedServer(w.server) && InSource(w.server, Subject(mailbox, ctx.uid), ctx.content)
    requires mailbox !in Targets(actions)
    requires Executed(w, mailbox, caps, smtp, ctx, actions).1.Pass?
    ensures var s, s' := w.server, Executed(w, mailbox, caps, smtp, ctx, actions).0.server;
            var flags := FoldFlags(s[mailbox].messages[ctx.uid].flags, actions);
            && mailbox in s'
            && (ctx.uid in s'[mailbox].messages <==> LeavesInPlace(caps, actions))
            && (forall t | t != mailbox ::
                  Arrived(Box(s, t), Box(s', t), ctx.content, FiledIn(Filings(caps, flags, actions), t)))
  {
    var subj := Subject(mailbox, ctx.uid);
    var m := w.server[mailbox].messages[ctx.uid];
    AgreesInitially(w.server, subj);
    ProgramFilesElsewhere(caps, smtp, ctx, actions, mailbox);
    ProgramSketch(m.flags, caps, smtp, ctx, actions);
    RunAgrees(w.server, w, subj, Program(caps, smtp, ctx, actions), ctx.content, Sketch(true, m.flags, []));
  }

  /** A successful execution brings nothing new into the source. */
  lemma SuccessKeepsSource(w: World, mailbox: string, caps: Capabilities, smtp: bool, ctx: MessageContext,
                           actions: seq<SieveAction>)
    requires WellFormedServer(w.server) && InSource(w.server, Subject(mailbox, ctx.uid), ctx.content)
    requires mailbox !in Targets(actions)
    requires Executed(w, mailbox, caps, smtp, ctx, actions).1.Pass?
    ensures var s, s' := w.server, Executed(w, mailbox, caps, smtp, ctx, actions).0.server;
            && mailbox in s' && s'[mailbox].uidnext == s[mailbox].uidnext
            && (forall u | u in s'[mailbox].messages :: u in s[mailbox].messages)
            && (LeavesInPlace(caps, actions) ==>
                  && InSource(s', Subject(mailbox, ctx.uid), ctx.content)
                  && s'[mailbox].messages[ctx.uid].flags ==
                     MarkedFlags(FoldFlags(s[mailbox].messages[ctx.uid].flags, actions), actions))
  {
    var subj := Subject(mailbox, ctx.uid);
    var m := w.server[mailbox].messages[ctx.uid];
    AgreesInitially(w.server, subj);
    ProgramFilesElsewhere(caps, smtp, ctx, actions, mailbox);
    ProgramSketch(m.flags, caps, smtp, ctx, actions);
    RunAgrees(w.server, w, subj, Program(caps, smtp, ctx, actions), ctx.content, Sketch(true, m.flags, []));
  }
}
