/** From Sieve events to mailboxes, and back over repeated attempts. */
module EndToEnd {
  import opened Prelude
  import opened MailStore
  import opened Types
  import opened Commands
  import opened ActionExecutor
  import opened SieveEngine
  import opened Conservation
  import opened Sketches
  import opened Pipeline
  import opened Outgoing

  // ---------- the events alone ----------

  /** The folders that FileInto events name, in order. */
  function Folders(events: seq<Event>): seq<string> {
    if events == [] then []
    else (if events[0].FileIntoEvent? then [events[0].folder] else []) + Folders(events[1..])
  }

  predicate KeepOccurs(events: seq<Event>) {
    exists i :: 0 <= i < |events| && events[i].KeepEvent?
  }

  predicate DiscardOccurs(events: seq<Event>) {
    exists i :: 0 <= i < |events| && (events[i].DiscardEvent? || events[i].RejectEvent?)
  }

  /** The flags of the last Keep or FileInto event that has any, else the present ones. */
  function FinalFlags(flags: set<string>, events: seq<Event>): set<string>
    decreases |events|
  {
    if events == [] then flags
    else
      var e := events[0];
      FinalFlags(if (e.KeepEvent? || e.FileIntoEvent?) && e.flags != {} then e.flags else flags, events[1..])
  }

  /** The mailboxes that get a copy, once per copy. */
  function Recipients(caps: Capabilities, events: seq<Event>): seq<string> {
    if KeepOccurs(events) || !Removes(caps) then Folders(events) else Truncate(Folders(events), 1)
  }

  /** Whether the message is still in the source after a success. */
  predicate Stays(caps: Capabilities, events: seq<Event>) {
    && !(caps.uidplus && DiscardOccurs(events))
    && (KeepOccurs(events) || Folders(events) == [] || !Removes(caps))
  }

  // ---------- the action list of an event list ----------

  lemma ExistsConcat(a: seq<SieveAction>, b: seq<SieveAction>)
    ensures HasKeep(a + b) == (HasKeep(a) || HasKeep(b))
    ensures HasFileInto(a + b) == (HasFileInto(a) || HasFileInto(b))
    ensures Touched(a + b) == (Touched(a) || Touched(b))
  {
    var c := a + b;
    assert forall i :: 0 <= i < |a| ==> c[i] == a[i];
    assert forall i :: 0 <= i < |b| ==> c[|a| + i] == b[i];
    assert forall i :: |a| <= i < |c| ==> c[i] == b[i - |a|];
  }

  lemma {:induction false} TargetsConcat(a: seq<SieveAction>, b: seq<SieveAction>)
    ensures Targets(a + b) == Targets(a) + Targets(b)
    ensures HasMove(a + b) == (HasMove(a) || HasMove(b))
  {
    if a == [] {
      assert a + b == b;
    } else {
      assert (a + b)[0] == a[0] && (a + b)[1..] == a[1..] + b;
      TargetsConcat(a[1..], b);
    }
  }

  lemma {:induction false} FoldFlagsConcat(flags: set<string>, a: seq<SieveAction>, b: seq<SieveAction>)
    ensures FoldFlags(flags, a + b) == FoldFlags(FoldFlags(flags, a), b)
    decreases |a|
  {
    if a == [] {
      assert a + b == b;
    } else {
      assert (a + b)[0] == a[0] && (a + b)[1..] == a[1..] + b;
      FoldFlagsConcat(ActionFlags(flags, a[0]), a[1..], b);
    }
  }

  lemma SingletonFacts(x: SieveAction, flags: set<string>)
    ensures Targets([x]) == (if x.FileInto? then [x.mailbox] else [])
    ensures HasMove([x]) == (x.FileInto? && !x.copy)
    ensures FoldFlags(flags, [x]) == ActionFlags(flags, x)
    ensures HasKeep([x]) == x.Keep? && HasFileInto([x]) == x.FileInto?
    ensures Discards([x]) == (x.Discard? || x.Reject?)
  {
    assert [x][1..] == [];
    assert [x][0] == x;
  }

  /** One event's actions. */
  lemma TranslateFacts(e: Event, flags: set<string>)
    ensures var a := Translate(e);
            && HasKeep(a) == e.KeepEvent? && HasFileInto(a) == e.FileIntoEvent?
            && Discards(a) == (e.DiscardEvent? || e.RejectEvent?)
            && Targets(a) == (if e.FileIntoEvent? then [e.folder] else [])
            && HasMove(a) == e.FileIntoEvent?
            && FoldFlags(flags, a) == (if (e.KeepEvent? || e.FileIntoEvent?) && e.flags != {} then e.flags else flags)
  {
    var a := Translate(e);
    if e.KeepEvent? || e.FileIntoEvent? {
      var last := if e.KeepEvent? then Keep else FileInto(e.folder, false, e.create);
      var first := SetFlags(e.flags);
      assert a == first + [last];
      ExistsConcat(first, [last]);
      DiscardsConcat(first, [last]);
      TargetsConcat(first, [last]);
      FoldFlagsConcat(flags, first, [last]);
      SingletonFacts(SetFlag(e.flags), flags);
      SingletonFacts(last, FoldFlags(flags, first));
    } else if a != [] {
      SingletonFacts(a[0], flags);
      assert a == [a[0]];
    }
  }

  lemma {:induction false} TranslationFacts(events: seq<Event>, flags: set<string>)
    ensures var a := TranslateAll(events);
            && HasKeep(a) == KeepOccurs(events) && HasFileInto(a) == (Folders(events) != [])
            && Discards(a) == DiscardOccurs(events)
            && Targets(a) == Folders(events)
            && HasMove(a) == (Folders(events) != [])
            && FoldFlags(flags, a) == FinalFlags(flags, events)
    decreases |events|
  {
    if events != [] {
      var e, rest := events[0], events[1..];
      var x, y := Translate(e), TranslateAll(rest);
      TranslateFacts(e, flags);
      TranslationFacts(rest, FoldFlags(flags, x));
      ExistsConcat(x, y);
      DiscardsConcat(x, y);
      TargetsConcat(x, y);
      FoldFlagsConcat(flags, x, y);
      OccursCons(e, rest);
      assert [e] + rest == events;
    }
  }

  lemma OccursCons(e: Event, rest: seq<Event>)
    ensures KeepOccurs([e] + rest) == (e.KeepEvent? || KeepOccurs(rest))
    ensures DiscardOccurs([e] + rest) == (e.DiscardEvent? || e.RejectEvent? || DiscardOccurs(rest))
  {
    var all := [e] + rest;
    assert all[0] == e;
    assert forall i :: 0 <= i < |rest| ==> all[i + 1] == rest[i];
    assert forall i :: 0 < i < |all| ==> all[i] == rest[i - 1];
  }

  lemma {:induction false} CopiesOnlyFacts(a: seq<SieveAction>, flags: set<string>)
    ensures var c := CopiesOnly(a);
            && Targets(c) == Targets(a) && !HasMove(c)
            && Discards(c) == Discards(a)
            && FoldFlags(flags, c) == FoldFlags(flags, a)
    decreases |a|
  {
    if a != [] {
      var x, rest := a[0], a[1..];
      CopiesOnlyFacts(rest, ActionFlags(flags, x));
      assert [x] + rest == a;
      DiscardsCons(x, rest);
      if x.Keep? {
        assert CopiesOnly(a) == CopiesOnly(rest);
      } else {
        DiscardsCons(AsCopy(x), CopiesOnly(rest));
        assert CopiesOnly(a)[0] == AsCopy(x) && CopiesOnly(a)[1..] == CopiesOnly(rest);
      }
    }
  }

  /** What the executor can see of the list that `evaluate` yields. */
  lemma NormalisedFacts(events: seq<Event>, flags: set<string>)
    ensures var a := Normalised(TranslateAll(events));
            && Targets(a) == Folders(events)
            && HasMove(a) == (Folders(events) != [] && !KeepOccurs(events))
            && Discards(a) == DiscardOccurs(events)
            && FoldFlags(flags, a) == FinalFlags(flags, events)
            && (!KeepOccurs(events) ==> AllMoves(a))
  {
    var t := TranslateAll(events);
    TranslationFacts(events, flags);
    AllMovesTranslated(events);
    ExistsConcat(t, [Keep]);
    DiscardsConcat(t, [Keep]);
    TargetsConcat(t, [Keep]);
    FoldFlagsConcat(flags, t, [Keep]);
    SingletonFacts(Keep, FoldFlags(flags, t));
    AllMovesConcat(t, [Keep]);
    if HasFileInto(t) {
      var i :| 0 <= i < |t| && t[i].FileInto?;
      assert Disposes(t[i]);
    }
    CopiesOnlyFacts(t, flags);
  }

  predicate AllMoves(actions: seq<SieveAction>) {
    forall i :: 0 <= i < |actions| ==> actions[i].FileInto? ==> !actions[i].copy
  }

  lemma AllMovesConcat(a: seq<SieveAction>, b: seq<SieveAction>)
    requires AllMoves(a) && AllMoves(b)
    ensures AllMoves(a + b)
  {
  }

  lemma {:induction false} AllMovesTranslated(events: seq<Event>)
    ensures AllMoves(TranslateAll(events))
  {
    if events != [] {
      AllMovesTranslated(events[1..]);
      AllMovesConcat(Translate(events[0]), TranslateAll(events[1..]));
    }
  }

  // ---------- filings, counted ----------

  lemma {:induction false} FilingsOfCopies(caps: Capabilities, flags: set<string>, actions: seq<SieveAction>, t: string)
    requires !HasMove(actions)
    ensures FiledIn(Filings(caps, flags, actions), t) == seq(Count(Targets(actions), t), _ => flags)
    decreases |actions|
  {
    if actions != [] {
      FilingsOfCopies(caps, flags, actions[1..], t);
      if actions[0].FileInto? {
        var f := Filings(caps, flags, actions);
        assert f[0] == Filing(actions[0].mailbox, flags) && f[1..] == Filings(caps, flags, actions[1..]);
        assert Targets(actions)[0] == actions[0].mailbox && Targets(actions)[1..] == Targets(actions[1..]);
      } else {
        assert Targets(actions) == Targets(actions[1..]);
      }
    }
  }

  lemma {:induction false} FilingsOfMoves(caps: Capabilities, flags: set<string>, actions: seq<SieveAction>, t: string)
    requires AllMoves(actions) && Removes(caps)
    ensures FiledIn(Filings(caps, flags, actions), t) == seq(Count(Truncate(Targets(actions), 1), t), _ => flags)
    decreases |actions|
  {
    if actions != [] {
      if actions[0].FileInto? {
        var f := Filings(caps, flags, actions);
        assert f == [Filing(actions[0].mailbox, flags)] && f[1..] == [];
        assert Truncate(Targets(actions), 1) == [actions[0].mailbox] && [actions[0].mailbox][1..] == [];
      } else {
        FilingsOfMoves(caps, flags, actions[1..], t);
        assert Targets(actions) == Targets(actions[1..]);
      }
    }
  }

  lemma {:induction false} FilingsWithoutRemoval(caps: Capabilities, flags: set<string>, actions: seq<SieveAction>,
                                                 t: string)
    requires !Removes(caps)
    ensures |FiledIn(Filings(caps, flags, actions), t)| == Count(Targets(actions), t)
    decreases |actions|
  {
    if actions != [] {
      if actions[0].FileInto? {
        var f := Filings(caps, flags, actions);
        var flags' := if actions[0].copy then flags else flags + {DELETED};
        FilingsWithoutRemoval(caps, flags', actions[1..], t);
        assert f[0] == Filing(actions[0].mailbox, flags) && f[1..] == Filings(caps, flags', actions[1..]);
        assert Targets(actions)[0] == actions[0].mailbox && Targets(actions)[1..] == Targets(actions[1..]);
      } else {
        FilingsWithoutRemoval(caps, flags, actions[1..], t);
        assert Targets(actions) == Targets(actions[1..]);
      }
    }
  }

  /** `b` is `a` with exactly `n` more messages, all with this content. */
  ghost predicate Gained(a: Mailbox, b: Mailbox, content: Content, n: nat) {
    && b.uidnext == a.uidnext + n
    && (forall u | u in a.messages :: u in b.messages && b.messages[u] == a.messages[u])
    && (forall u | u in b.messages :: u in a.messages || a.uidnext <= u < b.uidnext)
    && (forall u | a.uidnext <= u < b.uidnext :: u in b.messages && b.messages[u].content == content)
  }

  ghost predicate NewOnesCarry(a: Mailbox, b: Mailbox, flags: set<string>) {
    forall u | a.uidnext <= u && u in b.messages :: b.messages[u].flags == flags
  }

  // ---------- filings, and the flags they carry ----------

  /** With these events every filed copy gets the final flags. */
  predicate FlagsSettled(caps: Capabilities, flags: set<string>, events: seq<Event>) {
    KeepOccurs(events) || Removes(caps) || |Folders(events)| <= 1 || DELETED in flags
  }

  lemma {:induction false} FilingsCarry(caps: Capabilities, flags: set<string>, actions: seq<SieveAction>, t: string)
    requires !HasMove(actions) || Removes(caps) || |Targets(actions)| <= 1 || DELETED in flags
    ensures forall f | f in FiledIn(Filings(caps, flags, actions), t) :: f == flags
    decreases |actions|
  {
    if actions != [] {
      var a, rest := actions[0], actions[1..];
      if !a.FileInto? {
        assert Targets(actions) == Targets(rest);
        FilingsCarry(caps, flags, rest, t);
      } else {
        var f := Filings(caps, flags, actions);
        assert f[0] == Filing(a.mailbox, flags);
        assert Targets(actions) == [a.mailbox] + Targets(rest);
        if a.copy {
          assert f[1..] == Filings(caps, flags, rest);
          FilingsCarry(caps, flags, rest, t);
        } else if Removes(caps) {
          assert f[1..] == [];
        } else {
          assert f[1..] == Filings(caps, flags + {DELETED}, rest);
          if DELETED in flags {
            assert flags + {DELETED} == flags;
            FilingsCarry(caps, flags, rest, t);
          } else {
            NothingFiled(caps, flags + {DELETED}, rest);
          }
        }
      }
    }
  }

  lemma {:induction false} NothingFiled(caps: Capabilities, flags: set<string>, actions: seq<SieveAction>)
    requires Targets(actions) == []
    ensures Filings(caps, flags, actions) == []
    decreases |actions|
  {
    if actions != [] { NothingFiled(caps, flags, actions[1..]); }
  }

  lemma {:induction false} FirstFiling(caps: Capabilities, flags: set<string>, actions: seq<SieveAction>)
    requires Targets(actions) != []
    ensures flags in FiledIn(Filings(caps, flags, actions), Targets(actions)[0])
    decreases |actions|
  {
    if actions[0].FileInto? {
      assert Filings(caps, flags, actions)[0] == Filing(actions[0].mailbox, flags);
      assert FiledIn(Filings(caps, flags, actions), actions[0].mailbox)[0] == flags;
    } else {
      assert Targets(actions) == Targets(actions[1..]);
      FirstFiling(caps, flags, actions[1..]);
    }
  }

  /** Where filing does not remove, the second filing finds the message marked. */
  lemma {:induction false} SecondFiling(caps: Capabilities, flags: set<string>, actions: seq<SieveAction>)
    requires AllMoves(actions) && !Removes(caps) && |Targets(actions)| > 1
    ensures flags + {DELETED} in FiledIn(Filings(caps, flags, actions), Targets(actions)[1])
    decreases |actions|
  {
    var a, rest := actions[0], actions[1..];
    if a.FileInto? {
      var f := Filings(caps, flags, actions);
      FirstFiling(caps, flags + {DELETED}, rest);
      assert f == [Filing(a.mailbox, flags)] + Filings(caps, flags + {DELETED}, rest);
      FiledInConcat([Filing(a.mailbox, flags)], Filings(caps, flags + {DELETED}, rest), Targets(rest)[0]);
      assert Targets(actions)[1] == Targets(rest)[0];
    } else {
      assert Targets(actions) == Targets(rest);
      SecondFiling(caps, flags, rest);
    }
  }

  /** The filings of an event list, counted for one mailbox. */
  lemma FilingsOfEvents(caps: Capabilities, flags: set<string>, events: seq<Event>, t: string)
    ensures var fs := FiledIn(Filings(caps, flags, Normalised(TranslateAll(events))), t);
            && |fs| == Count(Recipients(caps, events), t)
            && (FlagsSettled(caps, flags, events) ==> forall f | f in fs :: f == flags)
  {
    var actions := Normalised(TranslateAll(events));
    NormalisedFacts(events, flags);
    if FlagsSettled(caps, flags, events) { FilingsCarry(caps, flags, actions, t); }
    if !HasMove(actions) {
      FilingsOfCopies(caps, flags, actions, t);
    } else if Removes(caps) {
      FilingsOfMoves(caps, flags, actions, t);
    } else {
      FilingsWithoutRemoval(caps, flags, actions, t);
    }
  }

  /** If the flags are not settled, some copy is filed with other flags. */
  lemma UnsettledFiling(caps: Capabilities, flags: set<string>, events: seq<Event>)
    requires !FlagsSettled(caps, flags, events)
    ensures flags + {DELETED} in FiledIn(Filings(caps, flags, Normalised(TranslateAll(events))), Folders(events)[1])
  {
    NormalisedFacts(events, flags);
    SecondFiling(caps, flags, Normalised(TranslateAll(events)));
  }

  lemma ArrivedIsGained(a: Mailbox, b: Mailbox, content: Content, fs: seq<set<string>>, flags: set<string>)
    requires WellFormed(a) && Arrived(a, b, content, fs)
    ensures Gained(a, b, content, |fs|)
    ensures NewOnesCarry(a, b, flags) <==> forall f | f in fs :: f == flags
  {
    if NewOnesCarry(a, b, flags) {
      forall f | f in fs ensures f == flags {
        var i :| 0 <= i < |fs| && fs[i] == f;
        assert a.uidnext + i in b.messages;
      }
    }
    if forall f | f in fs :: f == flags {
      forall u | a.uidnext <= u && u in b.messages ensures b.messages[u].flags == flags {
        assert fs[u - a.uidnext] in fs;
      }
    }
  }

  // ---------- evaluation, then execution ----------

  /** Where the message ends up, and how many copies each mailbox gains, after evaluating
      any event list and executing it with any capabilities. */
  lemma EvaluateThenExecute(w: World, mailbox: string, caps: Capabilities, smtp: bool, ctx: MessageContext,
                            run: RuntimeRun)
    requires WellFormedServer(w.server) && InSource(w.server, Subject(mailbox, ctx.uid), ctx.content)
    requires ctx.content.raw.Some? && Completed(run) && mailbox !in Folders(Events(run))
    requires Executed(w, mailbox, caps, smtp, ctx, Evaluation(ctx.content, run).value).1.Pass?
    ensures var events := Events(run);
            var s, s' := w.server, Executed(w, mailbox, caps, smtp, ctx, Evaluation(ctx.content, run).value).0.server;
            && mailbox in s'
            && (ctx.uid in s'[mailbox].messages <==> Stays(caps, events))
            && (forall t | t != mailbox ::
                  Gained(Box(s, t), Box(s', t), ctx.content, Count(Recipients(caps, events), t)))
  {
    var events := Events(run);
    var actions := Normalised(TranslateAll(events));
    var s, s' := w.server, Executed(w, mailbox, caps, smtp, ctx, actions).0.server;
    var f0 := s[mailbox].messages[ctx.uid].flags;
    NormalisedFacts(events, f0);
    SuccessfulExecution(w, mailbox, caps, smtp, ctx, actions);
    forall t | t != mailbox
      ensures Gained(Box(s, t), Box(s', t), ctx.content, Count(Recipients(caps, events), t))
    {
      EventsGain(caps, FoldFlags(f0, actions), events, t, Box(s, t), Box(s', t), ctx.content);
    }
  }

  lemma EventsGain(caps: Capabilities, flags: set<string>, events: seq<Event>, t: string,
                   a: Mailbox, b: Mailbox, content: Content)
    requires WellFormed(a)
    requires Arrived(a, b, content, FiledIn(Filings(caps, flags, Normalised(TranslateAll(events))), t))
    ensures Gained(a, b, content, Count(Recipients(caps, events), t))
  {
    FilingsOfEvents(caps, flags, events, t);
    ArrivedIsGained(a, b, content, FiledIn(Filings(caps, flags, Normalised(TranslateAll(events))), t), flags);
  }

  lemma EventsCarryIff(caps: Capabilities, flags: set<string>, events: seq<Event>, t: string,
                       a: Mailbox, b: Mailbox, content: Content)
    requires WellFormed(a)
    requires Arrived(a, b, content, FiledIn(Filings(caps, flags, Normalised(TranslateAll(events))), t))
    ensures FlagsSettled(caps, flags, events) ==> NewOnesCarry(a, b, flags)
    ensures !FlagsSettled(caps, flags, events) && t == Folders(events)[1] ==> !NewOnesCarry(a, b, flags)
  {
    var fs := FiledIn(Filings(caps, flags, Normalised(TranslateAll(events))), t);
    FilingsOfEvents(caps, flags, events, t);
    ArrivedIsGained(a, b, content, fs, flags);
    if !FlagsSettled(caps, flags, events) && t == Folders(events)[1] {
      UnsettledFiling(caps, flags, events);
      assert flags + {DELETED} in fs && flags + {DELETED} != flags;
    }
  }

  /** The flags of a message that stays: the final ones, and \Deleted if it was to go. */
  lemma StayingMessageIsMarked(w: World, mailbox: string, caps: Capabilities, smtp: bool, ctx: MessageContext,
                               run: RuntimeRun)
    requires WellFormedServer(w.server) && InSource(w.server, Subject(mailbox, ctx.uid), ctx.content)
    requires ctx.content.raw.Some? && Completed(run) && mailbox !in Folders(Events(run))
    requires Executed(w, mailbox, caps, smtp, ctx, Evaluation(ctx.content, run).value).1.Pass?
    requires Stays(caps, Events(run))
    ensures var events := Events(run);
            var s, s' := w.server, Executed(w, mailbox, caps, smtp, ctx, Evaluation(ctx.content, run).value).0.server;
            var flags := FinalFlags(s[mailbox].messages[ctx.uid].flags, events);
            var leaving := DiscardOccurs(events) || (Folders(events) != [] && !KeepOccurs(events));
            && InSource(s', Subject(mailbox, ctx.uid), ctx.content)
            && s'[mailbox].messages[ctx.uid].flags == flags + if leaving then {DELETED} else {}
  {
    NormalisedFacts(Events(run), w.server[mailbox].messages[ctx.uid].flags);
    SuccessKeepsSource(w, mailbox, caps, smtp, ctx, Normalised(TranslateAll(Events(run))));
  }

  // ---------- the actions that do nothing ----------

  /** The event decides about the message. */
  predicate Decides(e: Event) {
    e.KeepEvent? || e.DiscardEvent? || e.FileIntoEvent? || e.RejectEvent? || (e.SendMessage? && e.recipient.Address?)
  }

  predicate Decided(events: seq<Event>) {
    exists i :: 0 <= i < |events| && Decides(events[i])
  }

  lemma DecidedCons(e: Event, rest: seq<Event>)
    ensures Decided([e] + rest) == (Decides(e) || Decided(rest))
  {
    var all := [e] + rest;
    assert all[0] == e;
    assert forall i :: 0 <= i < |rest| ==> all[i + 1] == rest[i];
    assert forall i :: 0 < i < |all| ==> all[i] == rest[i - 1];
  }

  lemma TranslateTouches(e: Event)
    ensures Touched(Translate(e)) == Decides(e)
  {
    var a := Translate(e);
    if Decides(e) { assert Disposes(a[|a| - 1]); }
  }

  lemma {:induction false} TranslationTouches(events: seq<Event>)
    ensures Touched(TranslateAll(events)) == Decided(events)
  {
    if events != [] {
      TranslateTouches(events[0]);
      TranslationTouches(events[1..]);
      ExistsConcat(Translate(events[0]), TranslateAll(events[1..]));
      DecidedCons(events[0], events[1..]);
      assert [events[0]] + events[1..] == events;
    }
  }

  lemma {:induction false} CopiesOnlyKeepsNone(a: seq<SieveAction>)
    ensures !HasKeep(CopiesOnly(a)) && HasFileInto(CopiesOnly(a)) == HasFileInto(a)
  {
    if a != [] {
      CopiesOnlyKeepsNone(a[1..]);
      var head := if a[0].Keep? then [] else [AsCopy(a[0])];
      ExistsConcat(head, CopiesOnly(a[1..]));
      ExistsConcat([a[0]], a[1..]);
      assert a == [a[0]] + a[1..];
      SingletonFacts(a[0], {});
      SingletonFacts(AsCopy(a[0]), {});
    }
  }

  /** The list says Keep exactly when nothing is filed, and a Keep occurred or no event
      decided about the message. */
  lemma KeepInListIff(events: seq<Event>)
    ensures HasKeep(Normalised(TranslateAll(events))) <==>
            Folders(events) == [] && (KeepOccurs(events) || !Decided(events))
  {
    var t := TranslateAll(events);
    TranslationFacts(events, {});
    TranslationTouches(events);
    ExistsConcat(t, [Keep]);
    SingletonFacts(Keep, {});
    CopiesOnlyKeepsNone(ImplicitKeep(t));
    if HasFileInto(t) {
      var i :| 0 <= i < |t| && t[i].FileInto?;
      assert Disposes(t[i]);
    }
  }

  datatype Call = Call(name: string, args: seq<string>)

  /** The custom actions of a list, and the function events, in order. */
  function CustomActions(actions: seq<SieveAction>): seq<Call> {
    if actions == [] then []
    else (if actions[0].Execute? then [Call(actions[0].name, actions[0].args)] else []) + CustomActions(actions[1..])
  }

  function Calls(events: seq<Event>): seq<Call> {
    if events == [] then []
    else (if events[0].FunctionCall? then [Call(events[0].id, events[0].arguments)] else []) + Calls(events[1..])
  }

  lemma {:induction false} CustomConcat(a: seq<SieveAction>, b: seq<SieveAction>)
    ensures CustomActions(a + b) == CustomActions(a) + CustomActions(b)
  {
    if a == [] {
      assert a + b == b;
    } else {
      assert (a + b)[0] == a[0] && (a + b)[1..] == a[1..] + b;
      CustomConcat(a[1..], b);
    }
  }

  lemma TranslateCalls(e: Event)
    ensures CustomActions(Translate(e)) == if e.FunctionCall? then [Call(e.id, e.arguments)] else []
  {
    var a := Translate(e);
    if |a| == 2 {
      assert a == [a[0]] + [a[1]] && [a[0]][1..] == [] && [a[1]][1..] == [];
      CustomConcat([a[0]], [a[1]]);
    } else if |a| == 1 {
      assert a[1..] == [];
    }
  }

  lemma {:induction false} TranslationCalls(events: seq<Event>)
    ensures CustomActions(TranslateAll(events)) == Calls(events)
  {
    if events != [] {
      TranslateCalls(events[0]);
      TranslationCalls(events[1..]);
      CustomConcat(Translate(events[0]), TranslateAll(events[1..]));
    }
  }

  lemma {:induction false} CopiesOnlyCalls(a: seq<SieveAction>)
    ensures CustomActions(CopiesOnly(a)) == CustomActions(a)
  {
    if a != [] {
      var head := if a[0].Keep? then [] else [AsCopy(a[0])];
      CopiesOnlyCalls(a[1..]);
      CustomConcat(head, CopiesOnly(a[1..]));
      assert head != [] ==> head[1..] == [];
    }
  }

  /** Every function event is passed on, with its arguments, once and in order. */
  lemma CallsArePassedOn(events: seq<Event>)
    ensures CustomActions(Normalised(TranslateAll(events))) == Calls(events)
  {
    var t := TranslateAll(events);
    TranslationCalls(events);
    CustomConcat(t, [Keep]);
    assert [Keep][1..] == [];
    CopiesOnlyCalls(ImplicitKeep(t));
  }

  /** Every filed copy carries the final flags exactly when a Keep occurred, or filing
      removes the message, or there is at most one FileInto, or \Deleted is among them. */
  lemma CopiesCarryFinalFlagsIff(w: World, mailbox: string, caps: Capabilities, smtp: bool, ctx: MessageContext,
                                 run: RuntimeRun)
    requires WellFormedServer(w.server) && InSource(w.server, Subject(mailbox, ctx.uid), ctx.content)
    requires ctx.content.raw.Some? && Completed(run) && mailbox !in Folders(Events(run))
    requires Executed(w, mailbox, caps, smtp, ctx, Evaluation(ctx.content, run).value).1.Pass?
    ensures var events := Events(run);
            var s, s' := w.server, Executed(w, mailbox, caps, smtp, ctx, Evaluation(ctx.content, run).value).0.server;
            var flags := FinalFlags(s[mailbox].messages[ctx.uid].flags, events);
            (forall t | t != mailbox :: NewOnesCarry(Box(s, t), Box(s', t), flags))
            <==> FlagsSettled(caps, flags, events)
  {
    var events := Events(run);
    var actions := Normalised(TranslateAll(events));
    var s, s' := w.server, Executed(w, mailbox, caps, smtp, ctx, actions).0.server;
    var flags := FinalFlags(s[mailbox].messages[ctx.uid].flags, events);
    NormalisedFacts(events, s[mailbox].messages[ctx.uid].flags);
    SuccessfulExecution(w, mailbox, caps, smtp, ctx, actions);
    if FlagsSettled(caps, flags, events) {
      forall t | t != mailbox ensures NewOnesCarry(Box(s, t), Box(s', t), flags) {
        EventsCarryIff(caps, flags, events, t, Box(s, t), Box(s', t), ctx.content);
      }
    } else {
      var t := Folders(events)[1];
      assert t in Folders(events);
      EventsCarryIff(caps, flags, events, t, Box(s, t), Box(s', t), ctx.content);
    }
  }

  /** The recipients are all the folders named exactly when a Keep occurred, or there is
      at most one FileInto, or filing does not take the message out of the source. */
  lemma RecipientsAreFoldersIff(caps: Capabilities, events: seq<Event>)
    ensures (forall t | t in Folders(events) :: Count(Recipients(caps, events), t) == Count(Folders(events), t))
            <==> KeepOccurs(events) || |Folders(events)| <= 1 || !Removes(caps)
    ensures forall t | t !in Folders(events) ::
              Count(Recipients(caps, events), t) == 0 && Count(Folders(events), t) == 0
  {
    var all := Folders(events);
    forall t | t !in all ensures Count(Recipients(caps, events), t) == 0 && Count(all, t) == 0 {
      CountAbsent(all, t);
      CountAbsent(Recipients(caps, events), t);
    }
    if !KeepOccurs(events) && |all| > 1 && Removes(caps) {
      var first := Truncate(all, 1);
      assert first[1..] == [];
      assert all[1..][0] == all[1];
      assert Count(all, all[1]) >= 1 + (if all[0] == all[1] then 1 else 0);
      assert Count(first, all[1]) == if all[0] == all[1] then 1 else 0;
      assert Count(Recipients(caps, events), all[1]) != Count(all, all[1]);
    }
  }

  lemma {:induction false} CountAbsent<T>(s: seq<T>, x: T)
    requires x !in s
    ensures Count(s, x) == 0
  {
    if s != [] { CountAbsent(s[1..], x); }
  }

  lemma GainedOnce(a: Mailbox, b: Mailbox, content: Content, n: nat, m: nat)
    requires Gained(a, b, content, n) && Gained(a, b, content, m)
    ensures n == m
  {
  }

  /** After an execution that answers OK every mailbox has gained as many copies as there
      were FileInto events naming it, exactly when a Keep occurred, or there is at most
      one FileInto, or filing does not take the message out of the source. */
  lemma EveryFileIntoHonouredIff(w: World, mailbox: string, caps: Capabilities, smtp: bool, ctx: MessageContext,
                                 run: RuntimeRun)
    requires WellFormedServer(w.server) && InSource(w.server, Subject(mailbox, ctx.uid), ctx.content)
    requires ctx.content.raw.Some? && Completed(run) && mailbox !in Folders(Events(run))
    requires Executed(w, mailbox, caps, smtp, ctx, Evaluation(ctx.content, run).value).1.Pass?
    ensures var events := Events(run);
            var s, s' := w.server, Executed(w, mailbox, caps, smtp, ctx, Evaluation(ctx.content, run).value).0.server;
            (forall t | t != mailbox :: Gained(Box(s, t), Box(s', t), ctx.content, Count(Folders(events), t)))
            <==> KeepOccurs(events) || |Folders(events)| <= 1 || !Removes(caps)
  {
    var events := Events(run);
    var s, s' := w.server, Executed(w, mailbox, caps, smtp, ctx, Evaluation(ctx.content, run).value).0.server;
    EvaluateThenExecute(w, mailbox, caps, smtp, ctx, run);
    RecipientsAreFoldersIff(caps, events);
    if forall t | t != mailbox :: Gained(Box(s, t), Box(s', t), ctx.content, Count(Folders(events), t)) {
      forall t | t in Folders(events) ensures Count(Recipients(caps, events), t) == Count(Folders(events), t) {
        GainedOnce(Box(s, t), Box(s', t), ctx.content, Count(Recipients(caps, events), t), Count(Folders(events), t));
      }
    }
  }

  /** The run of `fileinto "Log"; fileinto "Archive";`. */
  const TWO_FILINGS: RuntimeRun :=
    [Success(FileIntoEvent("Log", {}, false)), Success(FileIntoEvent("Archive", {}, false))]

  lemma TwoFilingsMean()
    ensures Completed(TWO_FILINGS) && Folders(Events(TWO_FILINGS)) == ["Log", "Archive"]
    ensures !KeepOccurs(Events(TWO_FILINGS))
    ensures Normalised(TranslateAll(Events(TWO_FILINGS))) ==
            [FileInto("Log", false, false), FileInto("Archive", false, false)]
  {
    var log, archive := FileIntoEvent("Log", {}, false), FileIntoEvent("Archive", {}, false);
    var events := [log, archive];
    var later: RuntimeRun := [Success(archive)];
    assert TWO_FILINGS[1..] == later && later[1..] == [];
    assert Events(later) == [archive];
    assert Events(TWO_FILINGS) == events;
    assert events[1..] == [archive] && [archive][1..] == [];
    assert TranslateAll([archive]) == [FileInto("Archive", false, false)];
    assert TranslateAll(events) == [FileInto("Log", false, false)] + TranslateAll([archive]);
    assert Disposes(TranslateAll(events)[0]);
    assert Folders([archive]) == ["Archive"];
  }

  /** Executed without faults on a server that has both mailboxes and on which filing
      removes, it answers OK, files one copy into the first and none into the second. */
  lemma SecondFileIntoIsLost(w: World, mailbox: string, caps: Capabilities, smtp: bool, ctx: MessageContext)
    requires WellFormedServer(w.server) && InSource(w.server, Subject(mailbox, ctx.uid), ctx.content)
    requires ctx.content.raw.Some? && mailbox !in ["Log", "Archive"] && Removes(caps)
    requires Calm(w, Subject(mailbox, ctx.uid), 2) && "Log" in w.server && "Archive" in w.server
    ensures var (w', r) := Executed(w, mailbox, caps, smtp, ctx, Evaluation(ctx.content, TWO_FILINGS).value);
            && r.Pass? && ctx.uid !in Box(w'.server, mailbox).messages
            && Gained(Box(w.server, "Log"), Box(w'.server, "Log"), ctx.content, 1)
            && Gained(Box(w.server, "Archive"), Box(w'.server, "Archive"), ctx.content, 0)
  {
    TwoFilingsMean();
    TwoFilingsSucceed(w, mailbox, caps, smtp, ctx);
    EvaluateThenExecute(w, mailbox, caps, smtp, ctx, TWO_FILINGS);
    TwoFilingsReach(caps);
  }

  lemma TwoFilingsSucceed(w: World, mailbox: string, caps: Capabilities, smtp: bool, ctx: MessageContext)
    requires ctx.content.raw.Some?
    requires Calm(w, Subject(mailbox, ctx.uid), 2) && "Log" in w.server && "Archive" in w.server
    ensures Executed(w, mailbox, caps, smtp, ctx, Evaluation(ctx.content, TWO_FILINGS).value).1.Pass?
  {
    var actions := [FileInto("Log", false, false), FileInto("Archive", false, false)];
    TwoFilingsMean();
    assert actions[1..] == [FileInto("Archive", false, false)];
    assert Feasible(w.server.Keys, smtp, ctx, actions);
    ExecutionSucceedsIff(w, mailbox, caps, smtp, ctx, actions);
  }

  lemma TwoFilingsReach(caps: Capabilities)
    requires Removes(caps)
    ensures var reached := Recipients(caps, Events(TWO_FILINGS));
            Count(reached, "Log") == 1 && Count(reached, "Archive") == 0
  {
    TwoFilingsMean();
    assert Recipients(caps, Events(TWO_FILINGS)) == ["Log"];
    assert ["Log"][1..] == [];
  }
}
