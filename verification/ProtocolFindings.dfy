/** Where the code does less, or more, than its comments and design document say. */
module ProtocolFindings {
  import opened Prelude
  import opened MailStore
  import opened Types
  import opened Commands
  import opened ActionExecutor
  import opened SieveEngine
  import opened StateStore
  import opened Fetching
  import opened Protocol
  import opened ProtocolSound

  // ---------- CONDSTORE: the mark is adopted before the drain ----------

  /** The session start of a daemon that already has a counter, up to its first fetch. */
  const DRAIN := [SelectReply(true, true, true), Persisted(true), FetchReply(true)]

  ghost predicate ResumesWithCondstore(cfg: Settings, s: Sys) {
    && Sound(cfg, s) && s.point.Selecting? && s.point.caps.condstore
    && s.mem.lastSeenUid.Some? && s.mem.uidvalidity == Some(Current(cfg, s).uidvalidity)
  }

  lemma Unfold1(cfg: Settings, s: Sys, e: Happening)
    ensures After(cfg, s, [e]) == Next(cfg, s, e)
  {
    assert [e][1..] == [];
  }

  lemma Unfold2(cfg: Settings, s: Sys, a: Happening, b: Happening)
    ensures After(cfg, s, [a, b]) == Next(cfg, Next(cfg, s, a), b)
  {
    assert [a, b][1..] == [b];
    Unfold1(cfg, Next(cfg, s, a), b);
  }

  lemma Unfold3(cfg: Settings, s: Sys, a: Happening, b: Happening, c: Happening)
    ensures After(cfg, s, [a, b, c]) == Next(cfg, Next(cfg, Next(cfg, s, a), b), c)
  {
    assert [a, b, c][1..] == [b, c] && [b, c][1..] == [c];
    Unfold1(cfg, Next(cfg, Next(cfg, s, a), b), c);
  }

  lemma Unfold4(cfg: Settings, s: Sys, a: Happening, b: Happening, c: Happening, d: Happening)
    ensures After(cfg, s, [a, b, c, d]) == Next(cfg, Next(cfg, Next(cfg, Next(cfg, s, a), b), c), d)
  {
    assert [a, b, c] + [d] == [a, b, c, d];
    AfterConcat(cfg, s, [a, b, c], [d]);
    Unfold3(cfg, s, a, b, c);
    Unfold1(cfg, After(cfg, s, [a, b, c]), d);
  }

  /** With CONDSTORE and a server that reports HIGHESTMODSEQ, the drain at the start of a
      session processes nothing, whatever arrived while the daemon was away. */
  lemma DrainIsBlind(cfg: Settings, s: Sys)
    requires ResumesWithCondstore(cfg, s)
    ensures var mb := Current(cfg, s);
            var session := Session(s.point.caps, mb.uidvalidity, Some(mb.highestmodseq));
            var e := After(cfg, s, DRAIN);
            && e.point == Idling(session)
            && e.mem == State(Some(cfg.mailbox), Some(mb.uidvalidity), s.mem.lastSeenUid, Some(mb.highestmodseq))
            && e.server == s.server && e.script == s.script && e.permit == s.permit
            && e.hist.handled == s.hist.handled && !e.point.InBatch?
  {
    var s1 := Next(cfg, s, DRAIN[0]);
    var s2 := Next(cfg, s1, DRAIN[1]);
    assert s2 == s.(mem := s1.mem, file := Some(s1.mem), point := AwaitingFetch(s1.point.session));
    EmptyFetch(cfg, s2);
    Unfold3(cfg, s, DRAIN[0], DRAIN[1], DRAIN[2]);
  }

  /** A fetch of what changed since the server's highest mark returns nothing. */
  lemma EmptyFetch(cfg: Settings, s: Sys)
    requires s.point.AwaitingFetch? && s.point.session.caps.condstore && s.mem.lastSeenUid.Some?
    requires WellFormed(Current(cfg, s)) && s.mem.highestmodseq == Some(Current(cfg, s).highestmodseq)
    ensures Next(cfg, s, FetchReply(true)) ==
            s.(point := Idling(s.point.session), hist := Next(cfg, s, FetchReply(true)).hist)
    ensures Next(cfg, s, FetchReply(true)).hist.handled == s.hist.handled
  {
    NothingNewerThanHighest(Current(cfg, s), s.mem.lastSeenUid.value + 1);
  }

  /** The mark that the first fetch of a session sends. */
  function MarkOf(cfg: Settings, s: Sys, tellsModseq: bool): Option<nat>
    requires s.point.Selecting?
  {
    if !s.point.caps.condstore then None
    else if tellsModseq then Some(Current(cfg, s).highestmodseq)
    else s.mem.highestmodseq
  }

  predicate Waiting(mb: Mailbox, start: nat, u: Uid) {
    u in mb.messages && start <= u
  }

  /** The drain at the start of a session sends this range and mark. */
  lemma DrainFetches(cfg: Settings, s: Sys, tellsUidNext: bool, tellsModseq: bool)
    requires Sound(cfg, s) && s.point.Selecting? && s.mem.lastSeenUid.Some?
    requires s.mem.uidvalidity == Some(Current(cfg, s).uidvalidity)
    ensures var s2 := Next(cfg, Next(cfg, s, SelectReply(true, tellsUidNext, tellsModseq)), Persisted(true));
            && s2.point.AwaitingFetch? && s2.mem.lastSeenUid.Some?
            && NextFetch(cfg, s2) == Fetched(Current(cfg, s), s.mem.lastSeenUid.value + 1, MarkOf(cfg, s, tellsModseq))
  {
  }

  /** The messages of the batch at work. */
  function QueueAt(p: Point): seq<MessageContext> {
    if p.InBatch? then p.batch.queue else []
  }

  /** The point after a fetch: a batch on what it returned, or idling. */
  lemma FetchStarts(cfg: Settings, s: Sys)
    requires s.point.AwaitingFetch? && s.mem.lastSeenUid.Some?
    ensures var e := Next(cfg, s, FetchReply(true));
            && e.mem == s.mem && QueueAt(e.point) == Truncate(NextFetch(cfg, s), cfg.batchSize)
            && (if QueueAt(e.point) == [] then e.point.Idling? else e.point.InBatch?)
  {
  }

  /** A fetch cut to `n` messages returns all the mail that is waiting exactly when no mark
      is sent or all of it has changed since the mark, and there are at most `n`. */
  lemma CutFetchIsCompleteIff(mb: Mailbox, start: nat, since: Option<nat>, n: nat)
    requires WellFormed(mb)
    ensures (forall u | Waiting(mb, start, u) :: Returned(Truncate(Fetched(mb, start, since), n), u))
            <==> (since.None? || forall u | Waiting(mb, start, u) :: since.value < mb.messages[u].modseq)
                 && |Pending(mb, start)| <= n
  {
    PendingListed(mb, start);
    if forall u | Waiting(mb, start, u) :: Matches(mb, since, u) {
      CutIsCompleteIff(mb, start, n);
      if Pending(mb, start) == [] {
        assert forall u :: Waiting(mb, start, u) ==> Returned(Pending(mb, start), u);
      } else {
        FetchOfMatching(mb, start, since);
      }
    } else {
      var u :| Waiting(mb, start, u) && !Matches(mb, since, u);
      FetchMissesIff(mb, start, since, u);
      if Returned(Truncate(Fetched(mb, start, since), n), u) { CutReturnsLess(Fetched(mb, start, since), n, u); }
    }
  }

  /** The batch that starts the session holds all the mail that is waiting exactly when
      CONDSTORE is not advertised, no mark is known, or all of it has changed since the
      mark, and there are at most `batchSize` messages of it. When the server advertises
      CONDSTORE and reports its mark, that is when nothing is waiting. */
  lemma DrainIsCompleteIff(cfg: Settings, s: Sys, tellsUidNext: bool, tellsModseq: bool)
    requires Sound(cfg, s) && s.point.Selecting? && s.mem.lastSeenUid.Some?
    requires s.mem.uidvalidity == Some(Current(cfg, s).uidvalidity)
    ensures var e := After(cfg, s, [SelectReply(true, tellsUidNext, tellsModseq), Persisted(true), FetchReply(true)]);
            var mb, start, since := Current(cfg, s), s.mem.lastSeenUid.value + 1, MarkOf(cfg, s, tellsModseq);
            var complete := forall u | Waiting(mb, start, u) :: Returned(QueueAt(e.point), u);
            && (complete <==>
                  && (since.None? || forall u | Waiting(mb, start, u) :: since.value < mb.messages[u].modseq)
                  && |Pending(mb, start)| <= cfg.batchSize)
            && (s.point.caps.condstore && tellsModseq ==> (complete <==> forall u :: !Waiting(mb, start, u)))
  {
    var reply := SelectReply(true, tellsUidNext, tellsModseq);
    var mb, start, since := Current(cfg, s), s.mem.lastSeenUid.value + 1, MarkOf(cfg, s, tellsModseq);
    Unfold3(cfg, s, reply, Persisted(true), FetchReply(true));
    DrainFetches(cfg, s, tellsUidNext, tellsModseq);
    FetchStarts(cfg, Next(cfg, Next(cfg, s, reply), Persisted(true)));
    CutFetchIsCompleteIff(mb, start, since, cfg.batchSize);
    PendingListed(mb, start);
  }

  const KEEP_RUN: RuntimeRun := [Success(KeepEvent({}))]

  lemma KeepDoesNothing(w: World, mailbox: string, caps: Capabilities, smtp: bool, ctx: MessageContext)
    requires ctx.content.raw.Some?
    ensures Evaluation(ctx.content, KEEP_RUN) == Success([Keep])
    ensures Executed(w, mailbox, caps, smtp, ctx, [Keep]) == (w, Pass)
  {
    assert KEEP_RUN[1..] == [];
    assert Events(KEEP_RUN) == [KeepEvent({})] && [KeepEvent({})][1..] == [];
    assert TranslateAll([KeepEvent({})]) == [Keep];
    assert Disposes([Keep][0]);
    assert [Keep][1..] == [];
    assert FlagCommands([Keep]) == [] && DispositionCommands(caps, smtp, ctx, [Keep]) == [];
    assert !Discards([Keep]);
  }

  /** A delivery wakes the idle daemon, which fetches. */
  lemma DeliveryIsFetched(cfg: Settings, s: Sys, content: Content)
    requires Sound(cfg, s) && s.point.Idling? && !s.permit && s.mem.lastSeenUid.Some?
    requires s.point.session.caps.condstore && s.mem.highestmodseq == Some(Current(cfg, s).highestmodseq)
    requires cfg.batchSize > 0 && HasRoom(Current(cfg, s))
    ensures var mb := Current(cfg, s);
            var s1 := Next(cfg, s, Deliver(cfg.mailbox, content, {}));
            var s2 := Next(cfg, Next(cfg, s1, IdleReply(Exists)), FetchReply(true));
            && s2.point.InBatch? && s2.point.batch.done == 0 && s2.point.session == s.point.session
            && s2.point.batch.queue == [MessageContext(mb.uidnext, content, {})]
            && s2.mem == s.mem && s2.hist.handled == s.hist.handled
            && s2.server == s.server[cfg.mailbox := Append(mb, content, {})] && s2.point.batch.script == s.script
  {
    OnlyTheDelivered(Current(cfg, s), s.mem.lastSeenUid.value + 1, content);
  }

  /** Processing a message that is kept moves the counter and nothing else. */
  lemma KeepProcessed(cfg: Settings, s: Sys)
    requires s.point.InBatch? && s.point.batch.done < |s.point.batch.queue| && s.mem.lastSeenUid.Some?
    requires s.point.batch.queue[s.point.batch.done].content.raw.Some?
    ensures var uid, s' := s.point.batch.queue[s.point.batch.done].uid, OnProcessed(cfg, s, KEEP_RUN, []);
            && s'.mem.lastSeenUid == Some(Max(uid, s.mem.lastSeenUid.value))
            && s'.hist.handled == s.hist.handled + {uid} && s'.server == s.server
  {
    var ctx := s.point.batch.queue[s.point.batch.done];
    KeepDoesNothing(World(s.server, s.sent, [], []), cfg.mailbox, s.point.session.caps, cfg.smtp, ctx);
  }

  lemma KeepMovesTheCounter(cfg: Settings, s: Sys, time: nat)
    requires s.point.InBatch? && s.point.batch.done < |s.point.batch.queue| && s.mem.lastSeenUid.Some?
    requires s.point.batch.queue[s.point.batch.done].content.raw.Some? && RunAt(cfg, s, time) == KEEP_RUN
    ensures var uid, s' := s.point.batch.queue[s.point.batch.done].uid, Next(cfg, s, Process(time, []));
            && s'.mem.lastSeenUid == Some(Max(uid, s.mem.lastSeenUid.value))
            && s'.hist.handled == s.hist.handled + {uid} && s'.server == s.server
  {
    KeepProcessed(cfg, s);
  }

  /** One delivery, fetched and processed. */
  lemma OneDelivery(cfg: Settings, s: Sys, content: Content, time: nat)
    requires Sound(cfg, s) && s.point.Idling? && !s.permit && s.mem.lastSeenUid.Some?
    requires s.point.session.caps.condstore && s.mem.highestmodseq == Some(Current(cfg, s).highestmodseq)
    requires cfg.batchSize > 0 && HasRoom(Current(cfg, s))
    requires content.raw.Some? && cfg.runtime(s.script, content, time) == KEEP_RUN
    ensures var mb := Current(cfg, s);
            var e := After(cfg, s, [Deliver(cfg.mailbox, content, {}), IdleReply(Exists), FetchReply(true),
                                    Process(time, [])]);
            && e.server == s.server[cfg.mailbox := Append(mb, content, {})]
            && e.hist.handled == s.hist.handled + {mb.uidnext}
            && e.mem.lastSeenUid == Some(Max(mb.uidnext, s.mem.lastSeenUid.value))
  {
    DeliveryIsFetched(cfg, s, content);
    Unfold4(cfg, s, Deliver(cfg.mailbox, content, {}), IdleReply(Exists), FetchReply(true), Process(time, []));
    var s1 := Next(cfg, s, Deliver(cfg.mailbox, content, {}));
    KeepMovesTheCounter(cfg, Next(cfg, Next(cfg, s1, IdleReply(Exists)), FetchReply(true)), time);
  }

  /** The drain, then one delivery, fetched and processed. */
  function AfterOneDelivery(cfg: Settings, s: Sys, content: Content, time: nat): Sys {
    After(cfg, After(cfg, s, DRAIN), [Deliver(cfg.mailbox, content, {}), IdleReply(Exists), FetchReply(true),
                                      Process(time, [])])
  }

  /** One message that arrives after such a drain takes the counter past all that were
      waiting: they are still in the mailbox, and no later fetch range includes them. */
  lemma CondstoreSkipsWaitingMail(cfg: Settings, s: Sys, u: Uid, content: Content, time: nat)
    requires ResumesWithCondstore(cfg, s) && cfg.batchSize > 0 && !s.permit
    requires u in Current(cfg, s).messages && s.mem.lastSeenUid.value < u && u !in s.hist.handled
    requires content.raw.Some? && HasRoom(Current(cfg, s)) && cfg.runtime(s.script, content, time) == KEEP_RUN
    ensures var e := AfterOneDelivery(cfg, s, content, time);
            && u in Current(cfg, e).messages && u !in e.hist.handled
            && e.mem.lastSeenUid.Some? && u < e.mem.lastSeenUid.value
  {
    DrainIsBlind(cfg, s);
    AlwaysSound(cfg, s, DRAIN);
    OneDelivery(cfg, After(cfg, s, DRAIN), content, time);
  }

  // ---------- the first run, and every quiet poll ----------

  ghost predicate FirstRun(cfg: Settings, s: Sys) {
    && Sound(cfg, s) && s.point.Selecting? && s.mem.lastSeenUid.None?
    && (s.mem.uidvalidity.Some? ==> s.mem.uidvalidity.value == Current(cfg, s).uidvalidity)
  }

  /** The first SELECT seeds the counter below UIDNEXT, or with 0 when that is not told. */
  lemma FirstRunSeeds(cfg: Settings, s: Sys, tellsUidNext: bool, tellsModseq: bool)
    requires FirstRun(cfg, s)
    ensures var reply := SelectReply(true, tellsUidNext, tellsModseq);
            var e := Next(cfg, Next(cfg, Next(cfg, s, reply), Persisted(true)), Persisted(true));
            && e.point.AwaitingFetch? && e.server == s.server
            && e.mem.lastSeenUid == Some(if tellsUidNext then Current(cfg, s).uidnext - 1 else 0)
            && (if e.point.session.caps.condstore then e.mem.highestmodseq else None) == MarkOf(cfg, s, tellsModseq)
  {
  }

  /** On first run the first batch is not empty exactly when the newest message already
      there matches the mark sent, and then it is that message. A server that does not
      tell UIDNEXT has all its matching messages fetched. */
  lemma FirstRunTakesNewestIff(cfg: Settings, s: Sys, tellsUidNext: bool, tellsModseq: bool)
    requires FirstRun(cfg, s) && cfg.batchSize > 0
    ensures var mb, mark := Current(cfg, s), MarkOf(cfg, s, tellsModseq);
            var top := Highest(mb, mb.uidnext);
            var e := After(cfg, s, [SelectReply(true, tellsUidNext, tellsModseq), Persisted(true), Persisted(true),
                                    FetchReply(true)]);
            && e.mem.lastSeenUid == Some(if tellsUidNext then mb.uidnext - 1 else 0)
            && (e.point.InBatch? || e.point.Idling?)
            && (tellsUidNext ==>
                  && (e.point.InBatch? <==> Matches(mb, mark, top))
                  && (e.point.InBatch? ==> e.point.batch.queue == [ContextOf(mb, top)]))
            && (!tellsUidNext ==> (e.point.InBatch? <==> exists u :: Matches(mb, mark, u)))
  {
    var reply := SelectReply(true, tellsUidNext, tellsModseq);
    var mb, mark := Current(cfg, s), MarkOf(cfg, s, tellsModseq);
    var s3 := Next(cfg, Next(cfg, Next(cfg, s, reply), Persisted(true)), Persisted(true));
    FirstRunSeeds(cfg, s, tellsUidNext, tellsModseq);
    FetchStarts(cfg, s3);
    Unfold4(cfg, s, reply, Persisted(true), Persisted(true), FetchReply(true));
    if tellsUidNext {
      FetchBeyondTheEnd(mb, mb.uidnext, mark);
    } else {
      FetchAllEmptyIff(mb, mark);
    }
  }

  /** With nothing new, a keepalive poll fetches a message exactly when the newest one
      matches the mark of the session, and then it is that message again. */
  lemma QuietPollRepeatsNewestIff(cfg: Settings, s: Sys)
    requires Sound(cfg, s) && s.point.Idling? && !s.permit && cfg.batchSize > 0
    requires Highest(Current(cfg, s), Current(cfg, s).uidnext) <= s.mem.lastSeenUid.value
    ensures var mb, e := Current(cfg, s), Next(cfg, Next(cfg, s, IdleReply(Interrupted)), FetchReply(true));
            var mark := if s.point.session.caps.condstore then s.mem.highestmodseq else None;
            var top := Highest(mb, mb.uidnext);
            && (e.point.InBatch? <==> Matches(mb, mark, top))
            && (e.point.InBatch? ==> e.point.batch.queue == [ContextOf(mb, top)])
  {
    var mark := if s.point.session.caps.condstore then s.mem.highestmodseq else None;
    FetchBeyondTheEnd(Current(cfg, s), s.mem.lastSeenUid.value + 1, mark);
    var s1 := Next(cfg, s, IdleReply(Interrupted));
    assert s1 == s.(point := AwaitingFetch(s.point.session));
    FetchStarts(cfg, s1);
  }

  // ---------- a missing extension ----------

  /** No server in this run advertises IDLE, and the process is not restarted. */
  predicate NeverIdle(es: seq<Happening>) {
    forall i :: 0 <= i < |es| ==>
      && (es[i].CapabilityReply? && es[i].caps.Some? ==> !es[i].caps.value.idle)
      && !es[i].Launch?
  }

  predicate Reconnecting(p: Point) {
    p.Connecting? || p.Sleeping? || p.AwaitingCapability?
  }

  /** Without IDLE the daemon reconnects for ever: in every run it is connecting, asking
      for capabilities or sleeping, unless it was killed or told to shut down. */
  lemma {:induction false} MissingIdleReconnects(cfg: Settings, s: Sys, es: seq<Happening>)
    requires Reconnecting(s.point) && NeverIdle(es)
    ensures var p := After(cfg, s, es).point; Reconnecting(p) || p.Down? || p == Exited(Pass)
    decreases |es|
  {
    if es != [] {
      var s1 := Next(cfg, s, es[0]);
      assert NeverIdle(es[1..]);
      NextWithoutIdle(cfg, s, es[0]);
      if Reconnecting(s1.point) {
        MissingIdleReconnects(cfg, s1, es[1..]);
      } else {
        DeadStays(cfg, s1, es[1..]);
      }
    }
  }

  lemma NextWithoutIdle(cfg: Settings, s: Sys, e: Happening)
    requires Reconnecting(s.point) && !e.Launch?
    requires e.CapabilityReply? && e.caps.Some? ==> !e.caps.value.idle
    ensures var p := Next(cfg, s, e).point; Reconnecting(p) || p.Down? || p == Exited(Pass)
  {
  }

  lemma {:induction false} DeadStays(cfg: Settings, s: Sys, es: seq<Happening>)
    requires (s.point.Down? || s.point == Exited(Pass)) && NeverIdle(es)
    ensures After(cfg, s, es).point.Down? || After(cfg, s, es).point == Exited(Pass)
    decreases |es|
  {
    if es != [] {
      assert !es[0].Launch?;
      DeadStays(cfg, Next(cfg, s, es[0]), es[1..]);
    }
  }
}
