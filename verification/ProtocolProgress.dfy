/** The progress counter, re-execution, scripts, backoff and UIDVALIDITY over all runs. */
module ProtocolProgress {
  import opened Prelude
  import opened MailStore
  import opened Types
  import opened Commands
  import opened ActionExecutor
  import opened SieveEngine
  import opened StateStore
  import opened Fetching
  import opened BackoffDelay
  import opened Protocol
  import opened ProtocolSound
  import opened ProtocolSafety

  // ---------- the counter and the epoch only move forward ----------

  lemma AheadTransitive(a: State, b: State, c: State)
    requires Ahead(a, b) && Ahead(b, c)
    ensures Ahead(a, c)
  {
  }

  lemma NextIsAhead(cfg: Settings, s: Sys, e: Happening)
    requires Sound(cfg, s)
    ensures Ahead(Durable(Next(cfg, s, e)), Durable(s))
    ensures !e.Launch? ==> Ahead(Next(cfg, s, e).mem, s.mem)
  {
    if !IsEnvironment(e) && Fits(s, e) {
      AnswerIsAhead(cfg, s, e);
    }
  }

  lemma AnswerIsAhead(cfg: Settings, s: Sys, e: Happening)
    requires Sound(cfg, s) && Fits(s, e)
    ensures Ahead(Durable(Answer(cfg, s, e)), Durable(s)) && Ahead(Answer(cfg, s, e).mem, s.mem)
  {
    match e
    case SelectReply(ok, n, m) => SelectedIsAhead(cfg, s, ok, n, m);
    case Persisted(ok) => PersistedIsAhead(cfg, s, ok);
    case Process(time, fates) => ProcessedIsAhead(cfg, s, RunAt(cfg, s, time), fates);
    case _ =>
  }

  lemma SelectedIsAhead(cfg: Settings, s: Sys, ok: bool, tellsUidNext: bool, tellsModseq: bool)
    requires Sound(cfg, s) && s.point.Selecting?
    ensures var s' := OnSelected(cfg, s, ok, tellsUidNext, tellsModseq); s'.file == s.file && Ahead(s'.mem, s.mem)
  {
  }

  lemma PersistedIsAhead(cfg: Settings, s: Sys, ok: bool)
    requires Sound(cfg, s) && Fits(s, Persisted(ok))
    ensures Ahead(Durable(OnPersisted(s, ok)), Durable(s)) && Ahead(OnPersisted(s, ok).mem, s.mem)
  {
  }

  lemma ProcessedIsAhead(cfg: Settings, s: Sys, run: RuntimeRun, fates: seq<Fate>)
    requires Sound(cfg, s) && s.point.InBatch?
    ensures var s' := OnProcessed(cfg, s, run, fates); s'.file == s.file && Ahead(s'.mem, s.mem)
  {
  }

  predicate OneLife(es: seq<Happening>) {
    forall i :: 0 <= i < |es| ==> !es[i].Launch?
  }

  /** In any run the durable counter never decreases and a durable UIDVALIDITY never
      changes; within one process the same holds of memory, and always memory is level
      with the file or ahead. */
  lemma {:induction false} NeverBackwards(cfg: Settings, s: Sys, es: seq<Happening>)
    requires Sound(cfg, s)
    ensures var e := After(cfg, s, es);
            && Ahead(Durable(e), Durable(s))
            && (OneLife(es) ==> Ahead(e.mem, s.mem))
            && Ahead(e.mem, Durable(e))
    decreases |es|
  {
    if es != [] {
      var s1 := Next(cfg, s, es[0]);
      NextIsAhead(cfg, s, es[0]);
      NextKeepsSound(cfg, s, es[0]);
      NeverBackwards(cfg, s1, es[1..]);
      AheadTransitive(Durable(After(cfg, s1, es[1..])), Durable(s1), Durable(s));
      if OneLife(es) {
        assert !es[0].Launch?;
        AheadTransitive(After(cfg, s1, es[1..]).mem, s1.mem, s.mem);
      }
    }
  }

  /** Whenever a batch may start, the counter is below UIDNEXT, so the 32-bit start of
      the fetch range cannot overflow. */
  lemma StartNeverOverflows(cfg: Settings, s: Sys, es: seq<Happening>)
    requires Sound(cfg, s)
    ensures var e := After(cfg, s, es);
            e.point.AwaitingFetch? ==>
              e.mem.lastSeenUid.Some? && e.mem.lastSeenUid.value + 1 <= Current(cfg, e).uidnext <= MAX_UID
  {
    AlwaysSound(cfg, s, es);
  }

  /** The counter never decreases even if the server lists messages in another order:
      this needs nothing of the state. */
  lemma CounterIgnoresOrder(cfg: Settings, s: Sys, e: Happening)
    requires s.mem.lastSeenUid.Some? && !e.Launch?
    ensures var m := Next(cfg, s, e).mem; m.lastSeenUid.Some? && s.mem.lastSeenUid.value <= m.lastSeenUid.value
  {
  }

  // ---------- UIDVALIDITY ----------

  /** The daemon changes the mail store or sends mail only in a session whose SELECT
      reported the cached UIDVALIDITY, which is still the mailbox's. */
  lemma MutatesOnlyInEpoch(cfg: Settings, s: Sys, es: seq<Happening>, e: Happening)
    requires Sound(cfg, s) && !IsEnvironment(e)
    ensures var a := After(cfg, s, es);
            var b := Next(cfg, a, e);
            b.server != a.server || b.sent != a.sent ==>
              && a.point.InBatch?
              && a.mem.uidvalidity == Some(a.point.session.uidvalidity)
              && a.point.session.uidvalidity == Current(cfg, a).uidvalidity
  {
    AlwaysSound(cfg, s, es);
    OnlyProcessingMutates(cfg, After(cfg, s, es), e);
  }

  lemma OnlyProcessingMutates(cfg: Settings, s: Sys, e: Happening)
    requires !IsEnvironment(e)
    ensures Next(cfg, s, e).server != s.server || Next(cfg, s, e).sent != s.sent ==> e.Process? && s.point.InBatch?
  {
  }

  /** A session that finds another UIDVALIDITY ends the supervisor and changes nothing else. */
  lemma MismatchIsFatal(cfg: Settings, s: Sys, tellsUidNext: bool, tellsModseq: bool)
    requires s.point.Selecting? && s.mem.uidvalidity.Some? && s.mem.uidvalidity.value != Current(cfg, s).uidvalidity
    ensures Next(cfg, s, SelectReply(true, tellsUidNext, tellsModseq)) ==
            s.(point := Exited(Fail(UidValidityChanged(s.mem.uidvalidity.value, Current(cfg, s).uidvalidity))))
  {
  }

  predicate Ended(p: Point) {
    p.Down? || p.Exited?
  }

  /** In every run, a session that finds another UIDVALIDITY is the last thing the process
      does: no later answer moves it, and state, file, mail and history of executions stay
      as they were; only the environment still changes the mailboxes. */
  lemma {:induction false} NothingAfterMismatch(cfg: Settings, s: Sys, tellsUidNext: bool, tellsModseq: bool,
                                                es: seq<Happening>)
    requires s.point.Selecting? && s.mem.uidvalidity.Some? && s.mem.uidvalidity.value != Current(cfg, s).uidvalidity
    requires OneLife(es)
    ensures var e := After(cfg, Next(cfg, s, SelectReply(true, tellsUidNext, tellsModseq)), es);
            && Ended(e.point) && e.mem == s.mem && e.file == s.file && e.sent == s.sent && e.hist.oks == s.hist.oks
            && e.server == EnvironmentAlone(cfg, Next(cfg, s, SelectReply(true, tellsUidNext, tellsModseq)), es)
  {
    MismatchIsFatal(cfg, s, tellsUidNext, tellsModseq);
    EndedStays(cfg, Next(cfg, s, SelectReply(true, tellsUidNext, tellsModseq)), es);
  }

  /** The mail store after the environment's events of this run, and nothing else. */
  function EnvironmentAlone(cfg: Settings, s: Sys, es: seq<Happening>): Server
    decreases |es|
  {
    if es == [] then s.server
    else if IsEnvironment(es[0]) then EnvironmentAlone(cfg, Environment(cfg, s, es[0]), es[1..])
    else EnvironmentAlone(cfg, s, es[1..])
  }

  lemma {:induction false} EndedStays(cfg: Settings, s: Sys, es: seq<Happening>)
    requires Ended(s.point) && OneLife(es)
    ensures var e := After(cfg, s, es);
            && Ended(e.point) && e.mem == s.mem && e.file == s.file && e.sent == s.sent && e.hist.oks == s.hist.oks
            && e.server == EnvironmentAlone(cfg, s, es)
    decreases |es|
  {
    if es != [] {
      assert !es[0].Launch?;
      var s1 := Next(cfg, s, es[0]);
      EndedStays(cfg, s1, es[1..]);
      if es[0].Crash? { CrashIsNoMatter(cfg, s, s1, es[1..]); }
    }
  }

  lemma {:induction false} CrashIsNoMatter(cfg: Settings, s: Sys, s': Sys, es: seq<Happening>)
    requires Ended(s.point) && Ended(s'.point) && s'.server == s.server
    ensures EnvironmentAlone(cfg, s', es) == EnvironmentAlone(cfg, s, es)
    decreases |es|
  {
    if es != [] {
      if IsEnvironment(es[0]) {
        CrashIsNoMatter(cfg, Environment(cfg, s, es[0]), Environment(cfg, s', es[0]), es[1..]);
      } else {
        CrashIsNoMatter(cfg, s, s', es[1..]);
      }
    }
  }

  /** A message keeps its identity: in one epoch of the mailbox, whatever happens, an
      identifier never comes to mean other content, and none below UIDNEXT appears. */
  lemma {:induction false} EpochEvolves(cfg: Settings, s: Sys, es: seq<Happening>)
    requires Sound(cfg, s)
    ensures var mb := Current(cfg, After(cfg, s, es));
            mb.uidvalidity > Current(cfg, s).uidvalidity || Evolves(Current(cfg, s), mb)
    decreases |es|
  {
    if es != [] {
      var s1 := Next(cfg, s, es[0]);
      NextEvolves(cfg, s, es[0]);
      NextKeepsSound(cfg, s, es[0]);
      EpochEvolves(cfg, s1, es[1..]);
      var mb := Current(cfg, After(cfg, s1, es[1..]));
      if Evolves(Current(cfg, s), Current(cfg, s1)) && Evolves(Current(cfg, s1), mb) {
        EvolvesTransitive(Current(cfg, s), Current(cfg, s1), mb);
      }
    }
  }

  lemma NextEvolves(cfg: Settings, s: Sys, e: Happening)
    requires Sound(cfg, s)
    ensures var mb := Current(cfg, Next(cfg, s, e));
            (e.Recreate? && mb.uidvalidity > Current(cfg, s).uidvalidity) || Evolves(Current(cfg, s), mb)
  {
    EvolvesReflexive(s.server);
    if e.Process? && Fits(s, e) {
      ProcessedEvolves(cfg, s, RunAt(cfg, s, e.time), e.fates);
    } else if IsEnvironment(e) {
      EnvironmentEvolves(cfg, s, e);
    }
  }

  lemma EnvironmentEvolves(cfg: Settings, s: Sys, e: Happening)
    requires Sound(cfg, s) && IsEnvironment(e)
    ensures var mb := Current(cfg, Environment(cfg, s, e));
            (e.Recreate? && mb.uidvalidity > Current(cfg, s).uidvalidity) || Evolves(Current(cfg, s), mb)
  {
    var mb := Current(cfg, s);
    EvolvesReflexive(s.server);
    match e
    case Deliver(b, content, flags) =>
      if HasRoom(mb) { AppendEvolves(mb, content, flags); }
    case RemoveMessage(b, u) => DropEvolves(mb, u);
    case ChangeFlags(b, u, flags) => StoreFlagsEvolves(mb, u, Set, flags);
    case _ =>
  }

  lemma ProcessedEvolves(cfg: Settings, s: Sys, run: RuntimeRun, fates: seq<Fate>)
    requires Sound(cfg, s) && s.point.InBatch?
    ensures EvolvesServer(s.server, OnProcessed(cfg, s, run, fates).server)
  {
    var ctx := s.point.batch.queue[s.point.batch.done];
    EvolvesReflexive(s.server);
    if Evaluation(ctx.content, run).Success? {
      var actions := Evaluation(ctx.content, run).value;
      RunEvolves(World(s.server, s.sent, fates, []), Subject(cfg.mailbox, ctx.uid),
                 Program(s.point.session.caps, cfg.smtp, ctx, actions));
    }
  }

  // ---------- executed OK twice in one process ----------

  /** Why a message that was already done comes back: the fetch had nothing at or above
      its start, and the message is the newest of the mailbox. */
  predicate NewestRefetched(d: Done) {
    d.uid < d.start && d.uid == Highest(d.snapshot, d.snapshot.uidnext)
  }

  ghost predicate DoneBelow(h: History, st: State) {
    && (forall i :: 0 <= i < |h.oks| ==> h.oks[i].life <= h.life)
    && (forall i :: 0 <= i < |h.oks| && h.oks[i].life == h.life ==>
          st.lastSeenUid.Some? && h.oks[i].uid <= st.lastSeenUid.value)
    && (forall i, j :: 0 <= i < j < |h.oks| && h.oks[i].life == h.oks[j].life && h.oks[i].uid == h.oks[j].uid ==>
          NewestRefetched(h.oks[j]))
  }

  lemma HeadAtOrBelowCounter(cfg: Settings, s: Sys)
    requires Sound(cfg, s) && s.point.InBatch?
    ensures var b := s.point.batch;
            b.queue[b.done].uid <= s.mem.lastSeenUid.value ==>
              b.queue[b.done].uid < b.start && b.queue[b.done].uid == Highest(b.snapshot, b.snapshot.uidnext)
  {
    var b := s.point.batch;
    var uid := b.queue[b.done].uid;
    QueueListed(cfg, b);
    if uid <= s.mem.lastSeenUid.value {
      assert b.done > 0 ==> b.queue[b.done - 1].uid < uid;
      assert uid < b.start;
      assert Fetched(b.snapshot, b.start, b.since)[b.done] == b.queue[b.done];
      assert Returned(Fetched(b.snapshot, b.start, b.since), uid);
      FetchReachesBackIff(b.snapshot, b.start, b.since, uid);
    }
  }

  lemma DoneBelowLater(h: History, h': History, st: State, st': State)
    requires DoneBelow(h, st) && h'.oks == h.oks && h'.life == h.life && NotBehind(st', st)
    ensures DoneBelow(h', st')
  {
  }

  /** A new process has done nothing yet. */
  lemma DoneBelowNewLife(h: History, h': History, st: State, st': State)
    requires DoneBelow(h, st) && h'.oks == h.oks && h'.life == h.life + 1
    ensures DoneBelow(h', st')
  {
  }

  lemma DoneBelowAppend(h: History, h': History, st: State, st': State, d: Done)
    requires DoneBelow(h, st) && h'.oks == h.oks + [d] && h'.life == h.life == d.life && NotBehind(st', st)
    requires st'.lastSeenUid.Some? && d.uid <= st'.lastSeenUid.value
    requires st.lastSeenUid.Some? && d.uid <= st.lastSeenUid.value ==> NewestRefetched(d)
    ensures DoneBelow(h', st')
  {
  }

  lemma ProcessedKeepsDoneBelow(cfg: Settings, s: Sys, run: RuntimeRun, fates: seq<Fate>)
    requires Sound(cfg, s) && s.point.InBatch? && DoneBelow(s.hist, s.mem)
    ensures var s' := OnProcessed(cfg, s, run, fates); DoneBelow(s'.hist, s'.mem)
  {
    var b := s.point.batch;
    var s' := OnProcessed(cfg, s, run, fates);
    HeadAtOrBelowCounter(cfg, s);
    if s'.point.Committing? {
      DoneBelowAppend(s.hist, s'.hist, s.mem, s'.mem, Done(s.hist.life, b.queue[b.done].uid, b.start, b.snapshot));
    } else {
      DoneBelowLater(s.hist, s'.hist, s.mem, s'.mem);
    }
  }

  lemma NextKeepsDoneBelow(cfg: Settings, s: Sys, e: Happening)
    requires Sound(cfg, s) && DoneBelow(s.hist, s.mem)
    ensures DoneBelow(Next(cfg, s, e).hist, Next(cfg, s, e).mem)
  {
    var s' := Next(cfg, s, e);
    if e.Process? && Fits(s, e) {
      ProcessedKeepsDoneBelow(cfg, s, RunAt(cfg, s, e.time), e.fates);
    } else if s'.hist.life == s.hist.life {
      DoneBelowLater(s.hist, s'.hist, s.mem, s'.mem);
    } else {
      DoneBelowNewLife(s.hist, s'.hist, s.mem, s'.mem);
    }
  }

  lemma {:induction false} AlwaysDoneBelow(cfg: Settings, s: Sys, es: seq<Happening>)
    requires Sound(cfg, s) && DoneBelow(s.hist, s.mem)
    ensures DoneBelow(After(cfg, s, es).hist, After(cfg, s, es).mem)
    decreases |es|
  {
    if es != [] {
      NextKeepsDoneBelow(cfg, s, es[0]);
      NextKeepsSound(cfg, s, es[0]);
      AlwaysDoneBelow(cfg, Next(cfg, s, es[0]), es[1..]);
    }
  }

  /** Within one process, a message is executed OK again only when it was the newest of
      the mailbox and the fetch that returned it had nothing at or above its start. */
  lemma TwiceOnlyIfNewest(cfg: Settings, s: Sys, es: seq<Happening>, i: nat, j: nat)
    requires Initially(cfg, s)
    requires var oks := After(cfg, s, es).hist.oks;
             i < j < |oks| && oks[i].life == oks[j].life && oks[i].uid == oks[j].uid
    ensures NewestRefetched(After(cfg, s, es).hist.oks[j])
  {
    AlwaysDoneBelow(cfg, s, es);
  }

  // ---------- one script per batch ----------

  /** A reload that cannot read or compile is invisible. */
  lemma FailedReloadIsInvisible(cfg: Settings, s: Sys, text: Option<string>, compiles: bool)
    requires text.None? || !compiles
    ensures Next(cfg, s, Reload(text, compiles)) == s
  {
  }

  predicate FailsToReload(e: Happening) {
    e.Reload? && (e.text.None? || !e.compiles)
  }

  function WithoutFailedReloads(es: seq<Happening>): seq<Happening> {
    if es == [] then []
    else (if FailsToReload(es[0]) then [] else [es[0]]) + WithoutFailedReloads(es[1..])
  }

  /** A run is the same run without the reloads that failed in it. */
  lemma {:induction false} FailedReloadsDoNotShow(cfg: Settings, s: Sys, es: seq<Happening>)
    ensures After(cfg, s, es) == After(cfg, s, WithoutFailedReloads(es))
    decreases |es|
  {
    if es != [] {
      FailedReloadsDoNotShow(cfg, Next(cfg, s, es[0]), es[1..]);
      if FailsToReload(es[0]) {
        FailedReloadIsInvisible(cfg, s, es[0].text, es[0].compiles);
        assert WithoutFailedReloads(es) == WithoutFailedReloads(es[1..]);
      } else {
        assert WithoutFailedReloads(es)[0] == es[0] && WithoutFailedReloads(es)[1..] == WithoutFailedReloads(es[1..]);
      }
    }
  }

  // ---------- backoff ----------

  /** Delays are counted from the run: one more whenever the daemon goes to sleep, none
      after a launch or an accepted connection. */
  function DelayStep(cfg: Settings, s: Sys, n: nat, e: Happening): nat {
    if e.Launch? && !Alive(s) && Alive(Next(cfg, s, e)) then 0
    else if e == Connected(true) && Fits(s, e) then 0
    else if !s.point.Sleeping? && Next(cfg, s, e).point.Sleeping? then n + 1
    else n
  }

  function DelaysSinceConnect(cfg: Settings, s: Sys, n: nat, es: seq<Happening>): nat
    decreases |es|
  {
    if es == [] then n
    else DelaysSinceConnect(cfg, Next(cfg, s, es[0]), DelayStep(cfg, s, n, es[0]), es[1..])
  }

  lemma NextCountsDelays(cfg: Settings, s: Sys, n: nat, e: Happening)
    requires s.attempt == Min(n, U32_MAX)
    ensures Next(cfg, s, e).attempt == Min(DelayStep(cfg, s, n, e), U32_MAX)
  {
    if !IsEnvironment(e) && Fits(s, e) { AnswerCountsDelays(cfg, s, n, e); }
  }

  lemma AnswerCountsDelays(cfg: Settings, s: Sys, n: nat, e: Happening)
    requires s.attempt == Min(n, U32_MAX) && Fits(s, e)
    ensures var s' := Answer(cfg, s, e);
            s'.attempt == if e == Connected(true) then 0
                          else Min(if s'.point.Sleeping? && !s.point.Sleeping? then n + 1 else n, U32_MAX)
  {
    if e.Process? {
      var s' := OnProcessed(cfg, s, RunAt(cfg, s, e.time), e.fates);
      assert s'.attempt == s.attempt && (s'.point.Idling? || s'.point.Committing?);
    }
  }

  /** The exponent of the next delay is the number of delays since the last successful
      connect or launch, up to 32 bits. */
  lemma {:induction false} AttemptCountsDelays(cfg: Settings, s: Sys, n: nat, es: seq<Happening>)
    requires s.attempt == Min(n, U32_MAX)
    ensures After(cfg, s, es).attempt == Min(DelaysSinceConnect(cfg, s, n, es), U32_MAX)
    decreases |es|
  {
    if es != [] {
      NextCountsDelays(cfg, s, n, es[0]);
      AttemptCountsDelays(cfg, Next(cfg, s, es[0]), DelayStep(cfg, s, n, es[0]), es[1..]);
    }
  }
}
