/** What becomes of a message whose processing failed. */
module ProtocolRetry {
  import opened Prelude
  import opened MailStore
  import opened Types
  import opened Commands
  import opened ActionExecutor
  import opened SieveEngine
  import opened Fetching
  import opened Protocol
  import opened ProtocolSound
  import opened ProtocolSafety
  import opened ProtocolProgress
  import opened ProtocolMarks
  import opened ProtocolFindings
  import opened Conservation
  import opened EndToEnd
  import opened Outgoing
  import opened Retry

  /** Up to the first message the range may start anywhere. */
  lemma {:induction false} CollectFrom(mb: Mailbox, since: Option<nat>, lo: nat, u: Uid, hi: nat)
    requires lo <= u <= hi
    requires forall v :: lo <= v < u ==> !Matches(mb, since, v)
    ensures Collect(mb, since, lo, hi) == Collect(mb, since, u, hi)
    decreases u - lo
  {
    if lo < u { CollectFrom(mb, since, lo + 1, u, hi); }
  }

  /** With nothing in between, a message at or above the start comes first exactly when
      it is there. */
  lemma FirstIff(mb: Mailbox, start: nat, u: Uid)
    requires WellFormed(mb) && start <= u < mb.uidnext
    requires forall v :: start <= v < u ==> v !in mb.messages
    ensures u in mb.messages <==> Fetched(mb, start, None) != [] && Fetched(mb, start, None)[0].uid == u
  {
    var fs := Fetched(mb, start, None);
    if u in mb.messages {
      CollectFrom(mb, None, start, u, mb.uidnext);
      assert fs == [ContextOf(mb, u)] + Collect(mb, None, u + 1, mb.uidnext);
    } else {
      FetchLists(mb, start, None);
      assert fs != [] ==> Listed(fs[0], mb, None, Min(start, Highest(mb, mb.uidnext)), mb.uidnext);
    }
  }

  /** The message at the head of the batch. */
  function Head(s: Sys): MessageContext
    requires s.point.InBatch? && s.point.batch.done < |s.point.batch.queue|
  {
    s.point.batch.queue[s.point.batch.done]
  }

  /** The head of the batch is a new message. */
  ghost predicate AtNewMessage(cfg: Settings, s: Sys) {
    Sound(cfg, s) && s.point.InBatch? && s.mem.lastSeenUid.value < Head(s).uid
  }

  /** ... and its processing fails. */
  ghost predicate Fails(cfg: Settings, s: Sys, run: RuntimeRun, fates: seq<Fate>) {
    AtNewMessage(cfg, s) && OnProcessed(cfg, s, run, fates).point.Idling?
  }

  lemma HeadIsOfSnapshot(cfg: Settings, s: Sys)
    requires Sound(cfg, s) && s.point.InBatch?
    ensures var b := s.point.batch;
            && Matches(b.snapshot, b.since, Head(s).uid) && Head(s) == ContextOf(b.snapshot, Head(s).uid)
            && Head(s).uid < b.snapshot.uidnext
  {
    var b := s.point.batch;
    FetchLists(b.snapshot, b.start, b.since);
    var fs := Fetched(b.snapshot, b.start, b.since);
    assert Head(s) == fs[b.done];
    assert Listed(fs[b.done], b.snapshot, b.since, Min(b.start, Highest(b.snapshot, b.snapshot.uidnext)),
                  b.snapshot.uidnext);
  }

  /** What a failed attempt leaves: the counter where it was, and nothing between it and
      the message, unless CONDSTORE hid something there. */
  lemma AfterFailure(cfg: Settings, s: Sys, run: RuntimeRun, fates: seq<Fate>)
    requires Fails(cfg, s, run, fates)
    ensures var b, s1 := s.point.batch, OnProcessed(cfg, s, run, fates);
            && s1.mem == s.mem && s1.permit == s.permit && s1.point.session == s.point.session
            && Evolves(b.snapshot, Current(cfg, s1))
            && (b.since.None? ==>
                  forall v :: s.mem.lastSeenUid.value < v < Head(s).uid ==> v !in Current(cfg, s1).messages)
  {
    var b, s1 := s.point.batch, OnProcessed(cfg, s, run, fates);
    ProcessedEvolves(cfg, s, run, fates);
    EvolvesTransitive(b.snapshot, Current(cfg, s), Current(cfg, s1));
    HeadIsOfSnapshot(cfg, s);
    if b.since.None? {
      forall v | s.mem.lastSeenUid.value < v < Head(s).uid ensures v !in Current(cfg, s1).messages {
        GapIsEmpty(cfg, b, v);
      }
    }
  }

  lemma EvolvedMatches(mb: Mailbox, mb': Mailbox, since: Option<nat>, u: Uid)
    requires Evolves(mb, mb') && Matches(mb, since, u) && u in mb'.messages
    ensures Matches(mb', since, u)
  {
  }

  /** Idle again, with state and session as they were, the daemon would be given the
      message exactly when it is still there. */
  lemma FetchedWhileThere(cfg: Settings, s: Sys, s1: Sys)
    requires AtNewMessage(cfg, s) && s1.point == Idling(s.point.session) && s1.mem == s.mem
    requires Evolves(s.point.batch.snapshot, Current(cfg, s1))
    ensures Returned(NextFetch(cfg, s1), Head(s).uid) <==> Head(s).uid in Current(cfg, s1).messages
  {
    var b, mb, uid := s.point.batch, Current(cfg, s1), Head(s).uid;
    HeadIsOfSnapshot(cfg, s);
    assert SinceOf(s1) == b.since;
    if uid in mb.messages { EvolvedMatches(b.snapshot, mb, b.since, uid); }
    FetchedIfThere(mb, s.mem.lastSeenUid.value + 1, b.since, uid);
  }

  /** A new message that fails is in the next fetch exactly when it is still there: with
      CONDSTORE too, for it has changed since the mark, and the session keeps its mark. */
  lemma FailedIsFetchedIff(cfg: Settings, s: Sys, run: RuntimeRun, fates: seq<Fate>)
    requires Fails(cfg, s, run, fates)
    ensures var s1 := OnProcessed(cfg, s, run, fates);
            Returned(NextFetch(cfg, s1), Head(s).uid) <==> Head(s).uid in Current(cfg, s1).messages
  {
    AfterFailure(cfg, s, run, fates);
    FetchedWhileThere(cfg, s, OnProcessed(cfg, s, run, fates));
  }

  lemma FetchedIfThere(mb: Mailbox, start: nat, since: Option<nat>, u: Uid)
    requires WellFormed(mb) && start <= u
    requires u in mb.messages ==> Matches(mb, since, u)
    ensures Returned(Fetched(mb, start, since), u) <==> u in mb.messages
  {
    if u in mb.messages {
      FetchMissesIff(mb, start, since, u);
    } else {
      FetchLists(mb, start, since);
      var fs := Fetched(mb, start, since);
      assert forall i :: 0 <= i < |fs| ==> Listed(fs[i], mb, since, Min(start, Highest(mb, mb.uidnext)), mb.uidnext);
    }
  }

  // ---------- which lists are retried ----------

  /** If the attempt with these fates fails, the message is in the next fetch. */
  ghost predicate RetriedIfFails(cfg: Settings, s: Sys, run: RuntimeRun, fates: seq<Fate>)
    requires AtNewMessage(cfg, s)
  {
    var s1 := OnProcessed(cfg, s, run, fates);
    s1.point.Idling? ==> Returned(NextFetch(cfg, s1), Head(s).uid)
  }

  /** The world in which the head of the batch is executed, fates apart. */
  function WorldOf(s: Sys): World {
    World(s.server, s.sent, [], [])
  }

  /** What `evaluate` yields for a run that ends normally. */
  function ActionsOf(run: RuntimeRun): seq<SieveAction>
    requires Completed(run)
  {
    Normalised(TranslateAll(Events(run)))
  }

  lemma HeadIsInSource(cfg: Settings, s: Sys)
    requires Sound(cfg, s) && s.point.InBatch? && Head(s).uid in Current(cfg, s).messages
    ensures InSource(s.server, Subject(cfg.mailbox, Head(s).uid), Head(s).content)
  {
    HeadIsOfSnapshot(cfg, s);
  }

  lemma RetriedIfSafe(cfg: Settings, s: Sys, run: RuntimeRun, fates: seq<Fate>)
    requires AtNewMessage(cfg, s) && Head(s).content.raw.Some? && Completed(run)
    requires Head(s).uid in Current(cfg, s).messages
    ensures RetriedIfFails(cfg, s, run, fates) <==>
            FailsSafely(WorldOf(s), cfg.mailbox, s.point.session.caps, cfg.smtp, Head(s), ActionsOf(run), fates)
  {
    var w := World(s.server, s.sent, fates, []);
    var subj := Subject(cfg.mailbox, Head(s).uid);
    var cmds := Program(s.point.session.caps, cfg.smtp, Head(s), ActionsOf(run));
    assert WorldOf(s).(fates := fates) == w;
    HeadIsInSource(cfg, s);
    RunEvolves(w, subj, cmds);
    var s1 := OnProcessed(cfg, s, run, fates);
    assert s1.server == Run(w, subj, cmds).0.server && (s1.point.Idling? <==> Run(w, subj, cmds).1.Fail?);
    if s1.point.Idling? { FailedIsFetchedIff(cfg, s, run, fates); }
  }

  /** Every failing attempt at a new message, whatever fails in it, leaves it to the next
      fetch exactly when its events keep it in the mailbox: no Discard or Reject on a
      server with UIDPLUS, and no filing without Keep on one where filing removes. */
  lemma EveryFailureIsRetriedIff(cfg: Settings, s: Sys, run: RuntimeRun)
    requires AtNewMessage(cfg, s) && Head(s).content.raw.Some? && Completed(run)
    requires Head(s).uid in Current(cfg, s).messages
    requires cfg.mailbox !in Folders(Events(run))
    requires Calm(WorldOf(s), Subject(cfg.mailbox, Head(s).uid), |ActionsOf(run)|)
    requires Feasible(s.server.Keys, cfg.smtp, Head(s), ActionsOf(run))
    ensures (forall fates :: RetriedIfFails(cfg, s, run, fates)) <==> Stays(s.point.session.caps, Events(run))
  {
    var w, caps, ctx, actions := WorldOf(s), s.point.session.caps, Head(s), ActionsOf(run);
    HeadIsInSource(cfg, s);
    NormalisedFacts(Events(run), {});
    FailsSafelyIff(w, cfg.mailbox, caps, cfg.smtp, ctx, actions);
    forall fates
      ensures RetriedIfFails(cfg, s, run, fates) <==> FailsSafely(w, cfg.mailbox, caps, cfg.smtp, ctx, actions, fates)
    {
      RetriedIfSafe(cfg, s, run, fates);
    }
    if forall fates :: RetriedIfFails(cfg, s, run, fates) {
      forall fates ensures FailsSafely(w, cfg.mailbox, caps, cfg.smtp, ctx, actions, fates) {
        assert RetriedIfFails(cfg, s, run, fates);
      }
    }
  }

  /** ... and a script error always leaves it there. */
  lemma ScriptErrorIsRetried(cfg: Settings, s: Sys, run: RuntimeRun, fates: seq<Fate>)
    requires AtNewMessage(cfg, s) && Head(s).uid in Current(cfg, s).messages
    requires Evaluation(Head(s).content, run).Failure?
    ensures RetriedIfFails(cfg, s, run, fates)
  {
    FailedIsFetchedIff(cfg, s, run, fates);
  }

  // ---------- the rest of the session, and the next one ----------

  /** Within the session a failed message is in every fetch while it is there and above
      the counter, whatever else happens. */
  lemma FailedComesBackInSession(cfg: Settings, s: Sys, run: RuntimeRun, fates: seq<Fate>, es: seq<Happening>)
    requires Fails(cfg, s, run, fates) && SameSession(es)
    requires DueAt(cfg, After(cfg, OnProcessed(cfg, s, run, fates), es), Head(s).uid)
    ensures Returned(NextFetch(cfg, After(cfg, OnProcessed(cfg, s, run, fates), es)), Head(s).uid)
  {
    var b, s1 := s.point.batch, OnProcessed(cfg, s, run, fates);
    ProcessedKeepsSound(cfg, s, run, fates);
    AfterFailure(cfg, s, run, fates);
    HeadIsOfSnapshot(cfg, s);
    AlwaysInSession(cfg, b.snapshot, s.point.session, s.mem.highestmodseq, s1, es);
    FetchReturnsIff(cfg, After(cfg, s1, es), Head(s).uid);
  }

  /** The connection drops, and the daemon connects again. */
  function Reconnects(caps: Capabilities): seq<Happening> {
    [IdleReply(Disconnected), SleepOver, Connected(true), CapabilityReply(Some(caps))]
  }

  lemma ReconnectSelects(cfg: Settings, s: Sys, caps: Capabilities)
    requires s.point.Idling? && !s.permit && caps.idle
    ensures var e := After(cfg, s, Reconnects(caps));
            e == s.(point := Selecting(caps), attempt := 0)
  {
    Unfold4(cfg, s, IdleReply(Disconnected), SleepOver, Connected(true), CapabilityReply(Some(caps)));
  }

  lemma FailedThenReconnected(cfg: Settings, s: Sys, run: RuntimeRun, fates: seq<Fate>, caps: Capabilities)
    requires Fails(cfg, s, run, fates) && !s.permit && caps.idle && caps.condstore
    ensures var s1 := OnProcessed(cfg, s, run, fates);
            var s2 := After(cfg, s1, Reconnects(caps));
            && ResumesWithCondstore(cfg, s2) && s2.mem == s.mem && s2.server == s1.server
  {
    var s1 := OnProcessed(cfg, s, run, fates);
    ProcessedKeepsSound(cfg, s, run, fates);
    AfterFailure(cfg, s, run, fates);
    AlwaysSound(cfg, s1, Reconnects(caps));
    ReconnectSelects(cfg, s1, caps);
  }

  lemma HiddenByDrain(cfg: Settings, s: Sys, u: Uid)
    requires ResumesWithCondstore(cfg, s) && s.mem.lastSeenUid.value < u && u in Current(cfg, s).messages
    ensures var e := After(cfg, s, DRAIN);
            && e.point.Idling? && e.mem.lastSeenUid == s.mem.lastSeenUid
            && u in Current(cfg, e).messages && !Returned(NextFetch(cfg, e), u)
  {
    DrainIsBlind(cfg, s);
    NothingNewerThanHighest(Current(cfg, s), s.mem.lastSeenUid.value + 1);
  }

  /** On a server with CONDSTORE that reports its mark, a failure followed by a reconnect
      hides a message that the failed attempt left in the mailbox, a script error for
      example: it is above the counter, the daemon is idle and would not be given it. */
  lemma ReconnectHidesFailed(cfg: Settings, s: Sys, run: RuntimeRun, fates: seq<Fate>, caps: Capabilities)
    requires Fails(cfg, s, run, fates) && !s.permit && caps.idle && caps.condstore
    requires Head(s).uid in Current(cfg, OnProcessed(cfg, s, run, fates)).messages
    ensures var e := After(cfg, After(cfg, OnProcessed(cfg, s, run, fates), Reconnects(caps)), DRAIN);
            && e.point.Idling? && e.mem.lastSeenUid == s.mem.lastSeenUid
            && Head(s).uid in Current(cfg, e).messages && !Returned(NextFetch(cfg, e), Head(s).uid)
  {
    FailedThenReconnected(cfg, s, run, fates, caps);
    HiddenByDrain(cfg, After(cfg, OnProcessed(cfg, s, run, fates), Reconnects(caps)), Head(s).uid);
  }

  // ---------- the next batch ----------

  /** The batch of an idle daemon that is woken. */
  lemma WokenFetches(cfg: Settings, s: Sys)
    requires s.point.Idling? && !s.permit && !s.point.session.caps.condstore && s.mem.lastSeenUid.Some?
    ensures var s' := Next(cfg, Next(cfg, s, IdleReply(Exists)), FetchReply(true));
            var queue := Truncate(Fetched(Current(cfg, s), s.mem.lastSeenUid.value + 1, None), cfg.batchSize);
            if queue == [] then s'.point.Idling?
            else s'.point.InBatch? && s'.point.batch.done == 0 && s'.point.batch.queue == queue
  {
    var s1 := Next(cfg, s, IdleReply(Exists));
    assert s1 == s.(point := AwaitingFetch(s.point.session));
  }

  ghost predicate StartsWith(p: Point, uid: Uid) {
    p.InBatch? && p.batch.done == 0 && p.batch.queue != [] && p.batch.queue[0].uid == uid
  }

  /** The next batch starts with the first message above the counter, if it is there. */
  lemma NextStartsWithIff(cfg: Settings, s: Sys, uid: Uid)
    requires s.point.Idling? && !s.permit && !s.point.session.caps.condstore && s.mem.lastSeenUid.Some?
    requires cfg.batchSize > 0 && WellFormed(Current(cfg, s)) && s.mem.lastSeenUid.value < uid < Current(cfg, s).uidnext
    requires forall v :: s.mem.lastSeenUid.value < v < uid ==> v !in Current(cfg, s).messages
    ensures uid in Current(cfg, s).messages
            <==> StartsWith(Next(cfg, Next(cfg, s, IdleReply(Exists)), FetchReply(true)).point, uid)
  {
    FirstIff(Current(cfg, s), s.mem.lastSeenUid.value + 1, uid);
    WokenFetches(cfg, s);
  }

  /** Without CONDSTORE the next batch starts with the message that failed exactly when
      that message is in the next fetch. */
  lemma FailedComesFirst(cfg: Settings, s: Sys, run: RuntimeRun, fates: seq<Fate>, s1: Sys)
    requires Fails(cfg, s, run, fates) && s1 == OnProcessed(cfg, s, run, fates)
    requires !s.permit && !s.point.session.caps.condstore && cfg.batchSize > 0
    ensures Returned(NextFetch(cfg, s1), Head(s).uid)
            <==> StartsWith(Next(cfg, Next(cfg, s1, IdleReply(Exists)), FetchReply(true)).point, Head(s).uid)
  {
    AfterFailure(cfg, s, run, fates);
    HeadIsOfSnapshot(cfg, s);
    FailedIsFetchedIff(cfg, s, run, fates);
    NextStartsWithIff(cfg, s1, Head(s).uid);
  }

  /** A filing and a forward. */
  const FILE_THEN_FORWARD: seq<SieveAction> := [FileInto("Archive", false, false), Redirect(["list@example.org"])]

  /** With MOVE and without SMTP the forward fails when the filing has already taken the
      message away, so nothing is left to retry. */
  lemma FiledThenFailed(w: World, mailbox: string, caps: Capabilities, ctx: MessageContext)
    requires caps.supportsMove && w.fates == [] && mailbox != "Archive"
    requires MoveTo(w.server, mailbox, ctx.uid, "Archive").Some?
    ensures var (w', r) := Executed(w, mailbox, caps, false, ctx, FILE_THEN_FORWARD);
            && r == Fail(Smtp("redirect action requires SMTP configuration"))
            && w'.server == MoveTo(w.server, mailbox, ctx.uid, "Archive").value
            && ctx.uid !in Box(w'.server, mailbox).messages
  {
    var subj, abort := Subject(mailbox, ctx.uid), Abort(Smtp("redirect action requires SMTP configuration"));
    var forward := [FILE_THEN_FORWARD[1]];
    assert FILE_THEN_FORWARD[1..] == forward && forward[1..] == [];
    assert FlagCommands(forward) == FlagCommand(forward[0]) + FlagCommands([]);
    assert FlagCommands(FILE_THEN_FORWARD) == FlagCommand(FILE_THEN_FORWARD[0]) + FlagCommands(forward);
    assert DispositionCommands(caps, false, ctx, forward) == [abort];
    assert DispositionCommand(caps, false, ctx, FILE_THEN_FORWARD[0]) == [Move("Archive")];
    assert !Discards(FILE_THEN_FORWARD);
    assert Program(caps, false, ctx, FILE_THEN_FORWARD) == [Move("Archive")] + [abort];
    RunCons(w, subj, Move("Archive"), [abort]);
    RunOne(Issue(w, subj, Move("Archive")).0, subj, abort);
  }
}
