/** A message whose evaluation always fails blocks every message behind it. */
module ProtocolBlocked {
  import opened Prelude
  import opened MailStore
  import opened Commands
  import opened ActionExecutor
  import opened SieveEngine
  import opened StateStore
  import opened Fetching
  import opened MoveRefinement
  import opened Protocol
  import opened ProtocolSound
  import opened ProtocolSafety
  import opened ProtocolProgress
  import opened ProtocolMarks
  import opened ProtocolFindings

  // ---------- the runs in question ----------

  /** Nobody else takes the message away. */
  predicate LeavesAlone(cfg: Settings, u: Uid, e: Happening) {
    && !(e.RemoveMessage? && e.box == cfg.mailbox && e.uid == u)
    && !e.Recreate?
  }

  /** If this event is the evaluation of message `u`, it fails. */
  predicate FailsOn(cfg: Settings, s: Sys, u: Uid, e: Happening) {
    e.Process? && Fits(s, e) && s.point.batch.queue[s.point.batch.done].uid == u ==>
      Evaluation(s.point.batch.queue[s.point.batch.done].content, RunAt(cfg, s, e.time)).Failure?
  }

  /** If this event is the answer to a fetch, the fetch is not blind to message `u`. */
  predicate Sees(cfg: Settings, s: Sys, u: Uid, e: Happening) {
    e.FetchReply? && s.point.AwaitingFetch? ==> Matches(Current(cfg, s), SinceOf(s), u)
  }

  /** In this run the message is left alone, and its evaluation always fails. */
  ghost predicate AlwaysFailsOn(cfg: Settings, s: Sys, u: Uid, es: seq<Happening>)
    decreases |es|
  {
    es == [] ||
    (LeavesAlone(cfg, u, es[0]) && FailsOn(cfg, s, u, es[0]) && AlwaysFailsOn(cfg, Next(cfg, s, es[0]), u, es[1..]))
  }

  /** ... and no fetch is blind to it. */
  ghost predicate AlwaysSees(cfg: Settings, s: Sys, u: Uid, es: seq<Happening>)
    decreases |es|
  {
    es == [] || (Sees(cfg, s, u, es[0]) && AlwaysSees(cfg, Next(cfg, s, es[0]), u, es[1..]))
  }

  // ---------- the message stays, and the counter stays below it ----------

  ghost predicate Below(st: State, u: Uid) {
    st.lastSeenUid.Some? && st.lastSeenUid.value < u
  }

  ghost predicate Blocked(cfg: Settings, s: Sys, u: Uid) {
    && Sound(cfg, s)
    && u in Current(cfg, s).messages
    && Below(s.mem, u) && Below(Durable(s), u)
    && (s.point.InBatch? || s.point.Committing? ==> Matches(s.point.batch.snapshot, s.point.batch.since, u))
  }

  /** The head of a batch never lies beyond the blocking message. */
  lemma HeadNotBeyond(cfg: Settings, s: Sys, u: Uid)
    requires Blocked(cfg, s, u) && s.point.InBatch?
    ensures s.point.batch.queue[s.point.batch.done].uid <= u
  {
    var b := s.point.batch;
    if u < b.queue[b.done].uid {
      GapIsEmpty(cfg, b, u);
      assert false;
    }
  }

  lemma OthersKeepMessage(cfg: Settings, s: Sys, u: Uid, run: RuntimeRun, fates: seq<Fate>)
    requires Blocked(cfg, s, u) && s.point.InBatch? && s.point.batch.queue[s.point.batch.done].uid != u
    ensures u in Current(cfg, OnProcessed(cfg, s, run, fates)).messages
  {
    var ctx := s.point.batch.queue[s.point.batch.done];
    if Evaluation(ctx.content, run).Success? {
      var w := World(s.server, s.sent, fates, []);
      var subj := Subject(cfg.mailbox, ctx.uid);
      var cmds := Program(s.point.session.caps, cfg.smtp, ctx, Evaluation(ctx.content, run).value);
      RunTouchesOnlyTheSubject(w, subj, cmds);
      assert OthersKept(s.server[cfg.mailbox], Run(w, subj, cmds).0.server[cfg.mailbox], {ctx.uid});
    }
  }

  /** What processing does to counter, file, session and history. */
  lemma ProcessedMoves(cfg: Settings, s: Sys, run: RuntimeRun, fates: seq<Fate>)
    requires Sound(cfg, s) && s.point.InBatch?
    ensures var s', uid := OnProcessed(cfg, s, run, fates), s.point.batch.queue[s.point.batch.done].uid;
            && s'.file == s.file && HasSelected(s'.point) && s'.point.session == s.point.session
            && (s'.point.Committing? ==>
                  && s'.mem.lastSeenUid == Some(Max(uid, s.mem.lastSeenUid.value))
                  && s'.hist.handled == s.hist.handled + {uid} && s'.point.batch == s.point.batch)
            && (!s'.point.Committing? ==> s'.point.Idling? && s'.mem == s.mem && s'.hist.handled == s.hist.handled)
  {
  }

  lemma ProcessedStaysBlocked(cfg: Settings, s: Sys, u: Uid, run: RuntimeRun, fates: seq<Fate>)
    requires Blocked(cfg, s, u) && s.point.InBatch?
    requires var ctx := s.point.batch.queue[s.point.batch.done];
             ctx.uid == u ==> Evaluation(ctx.content, run).Failure?
    ensures Blocked(cfg, OnProcessed(cfg, s, run, fates), u)
    ensures forall v | u <= v && v in OnProcessed(cfg, s, run, fates).hist.handled :: v in s.hist.handled
  {
    ProcessedKeepsSound(cfg, s, run, fates);
    ProcessedMoves(cfg, s, run, fates);
    HeadNotBeyond(cfg, s, u);
    if s.point.batch.queue[s.point.batch.done].uid != u {
      OthersKeepMessage(cfg, s, u, run, fates);
    } else {
      FailedEvaluation(cfg, s, run, fates);
    }
  }

  lemma FailedEvaluation(cfg: Settings, s: Sys, run: RuntimeRun, fates: seq<Fate>)
    requires s.point.InBatch? && s.point.batch.done < |s.point.batch.queue|
    requires Evaluation(s.point.batch.queue[s.point.batch.done].content, run).Failure?
    ensures OnProcessed(cfg, s, run, fates).point.Idling? && OnProcessed(cfg, s, run, fates).server == s.server
  {
  }

  lemma EnvironmentStaysBlocked(cfg: Settings, s: Sys, u: Uid, e: Happening)
    requires Blocked(cfg, s, u) && IsEnvironment(e) && LeavesAlone(cfg, u, e)
    ensures Blocked(cfg, Environment(cfg, s, e), u) && Environment(cfg, s, e).hist.handled == s.hist.handled
  {
    EnvironmentKeepsSound(cfg, s, e);
  }

  lemma PersistedStaysBlocked(cfg: Settings, s: Sys, u: Uid, ok: bool)
    requires Blocked(cfg, s, u) && Fits(s, Persisted(ok))
    ensures Blocked(cfg, OnPersisted(s, ok), u) && OnPersisted(s, ok).hist.handled == s.hist.handled
  {
    PersistedKeepsSound(cfg, s, ok);
  }

  lemma FetchedStaysBlocked(cfg: Settings, s: Sys, u: Uid, ok: bool)
    requires Blocked(cfg, s, u) && s.point.AwaitingFetch? && Sees(cfg, s, u, FetchReply(ok))
    ensures Blocked(cfg, OnFetched(cfg, s, ok), u) && OnFetched(cfg, s, ok).hist.handled == s.hist.handled
  {
    FetchedKeepsSound(cfg, s, ok);
  }

  lemma SelectedStaysBlocked(cfg: Settings, s: Sys, u: Uid, ok: bool, tellsUidNext: bool, tellsModseq: bool)
    requires Blocked(cfg, s, u) && s.point.Selecting?
    ensures var s' := OnSelected(cfg, s, ok, tellsUidNext, tellsModseq);
            Blocked(cfg, s', u) && s'.hist.handled == s.hist.handled
  {
    SelectedKeepsSound(cfg, s, ok, tellsUidNext, tellsModseq);
  }

  lemma AnswerStaysBlocked(cfg: Settings, s: Sys, u: Uid, e: Happening)
    requires Blocked(cfg, s, u) && Fits(s, e) && FailsOn(cfg, s, u, e) && Sees(cfg, s, u, e)
    ensures Blocked(cfg, Answer(cfg, s, e), u)
    ensures forall v | u <= v && v in Answer(cfg, s, e).hist.handled :: v in s.hist.handled
  {
    AnswerKeepsSound(cfg, s, e);
    match e
    case Process(time, fates) => ProcessedStaysBlocked(cfg, s, u, RunAt(cfg, s, time), fates);
    case Persisted(ok) => PersistedStaysBlocked(cfg, s, u, ok);
    case FetchReply(ok) => FetchedStaysBlocked(cfg, s, u, ok);
    case SelectReply(ok, n, m) => SelectedStaysBlocked(cfg, s, u, ok, n, m);
    case _ =>
  }

  lemma NextStaysBlocked(cfg: Settings, s: Sys, u: Uid, e: Happening)
    requires Blocked(cfg, s, u) && LeavesAlone(cfg, u, e) && FailsOn(cfg, s, u, e) && Sees(cfg, s, u, e)
    ensures Blocked(cfg, Next(cfg, s, e), u)
    ensures forall v | u <= v && v in Next(cfg, s, e).hist.handled :: v in s.hist.handled
  {
    NextKeepsSound(cfg, s, e);
    if IsEnvironment(e) {
      EnvironmentStaysBlocked(cfg, s, u, e);
    } else if !e.Crash? && !e.Launch? && Fits(s, e) {
      AnswerStaysBlocked(cfg, s, u, e);
    }
  }

  /** Through crashes, restarts, new sessions and any number of deliveries, as long as no
      fetch is blind to the message: the counter stays below it, in memory and in the file,
      and no message at or above it is ever executed OK. */
  lemma {:induction false} FailingMessageBlocks(cfg: Settings, s: Sys, u: Uid, es: seq<Happening>)
    requires Blocked(cfg, s, u) && AlwaysFailsOn(cfg, s, u, es) && AlwaysSees(cfg, s, u, es)
    ensures var e := After(cfg, s, es);
            && Blocked(cfg, e, u)
            && (forall v | u <= v && v in e.hist.handled :: v in s.hist.handled)
    decreases |es|
  {
    if es != [] {
      NextStaysBlocked(cfg, s, u, es[0]);
      FailingMessageBlocks(cfg, Next(cfg, s, es[0]), u, es[1..]);
    }
  }

  // ---------- which runs have no blind fetch ----------

  /** Without CONDSTORE no fetch is. */
  lemma {:induction false} BlocksWithoutCondstore(cfg: Settings, s: Sys, u: Uid, es: seq<Happening>)
    requires Blocked(cfg, s, u) && AlwaysFailsOn(cfg, s, u, es)
    requires PlainSession(s.point) && NeverCondstore(es)
    ensures AlwaysSees(cfg, s, u, es)
    decreases |es|
  {
    if es != [] {
      assert NeverCondstore([es[0]]) && NeverCondstore(es[1..]);
      NextStaysBlocked(cfg, s, u, es[0]);
      NextKeepsPlainSession(cfg, s, es[0]);
      BlocksWithoutCondstore(cfg, Next(cfg, s, es[0]), u, es[1..]);
    }
  }

  /** No SELECT of this run reports a mark. */
  ghost predicate NeverReports(cfg: Settings, s: Sys, es: seq<Happening>)
    decreases |es|
  {
    es == [] || (!Reports(cfg, s, es[0]) && NeverReports(cfg, Next(cfg, s, es[0]), es[1..]))
  }

  /** The marks in memory and in the file are older than the message's last change. */
  ghost predicate MarksBelow(cfg: Settings, s: Sys, u: Uid)
    requires u in Current(cfg, s).messages
  {
    var m := Current(cfg, s).messages[u].modseq;
    && (s.mem.highestmodseq.Some? ==> s.mem.highestmodseq.value < m)
    && (Durable(s).highestmodseq.Some? ==> Durable(s).highestmodseq.value < m)
  }

  lemma FileComesFromMemory(cfg: Settings, s: Sys, e: Happening)
    ensures Durable(Next(cfg, s, e)) == Durable(s) || Durable(Next(cfg, s, e)).highestmodseq == s.mem.highestmodseq
  {
    if e.Process? && Fits(s, e) {
      assert OnProcessed(cfg, s, RunAt(cfg, s, e.time), e.fates).file == s.file;
    }
  }

  lemma MarksStayBelow(cfg: Settings, s: Sys, u: Uid, e: Happening)
    requires Blocked(cfg, s, u) && MarksBelow(cfg, s, u) && !Reports(cfg, s, e) && !e.Recreate?
    requires u in Current(cfg, Next(cfg, s, e)).messages
    ensures MarksBelow(cfg, Next(cfg, s, e), u)
  {
    NextKeepsMark(cfg, s, e);
    FileComesFromMemory(cfg, s, e);
    NextEvolves(cfg, s, e);
  }

  /** With CONDSTORE too, no fetch is blind while no SELECT reports a mark: in one session,
      and across reconnects and restarts. */
  lemma {:induction false} BlocksWithoutReport(cfg: Settings, s: Sys, u: Uid, es: seq<Happening>)
    requires Blocked(cfg, s, u) && AlwaysFailsOn(cfg, s, u, es)
    requires MarksBelow(cfg, s, u) && NeverReports(cfg, s, es)
    ensures AlwaysSees(cfg, s, u, es)
    decreases |es|
  {
    if es != [] {
      NextStaysBlocked(cfg, s, u, es[0]);
      MarksStayBelow(cfg, s, u, es[0]);
      BlocksWithoutReport(cfg, Next(cfg, s, es[0]), u, es[1..]);
    }
  }

  /** A SELECT with CONDSTORE that reports its mark ends it: the drain is blind to the
      message, and one delivery that is kept takes the counter past it. */
  lemma ReportEndsBlocking(cfg: Settings, s: Sys, u: Uid, content: Content, time: nat)
    requires Blocked(cfg, s, u) && u !in s.hist.handled && ResumesWithCondstore(cfg, s)
    requires cfg.batchSize > 0 && !s.permit && HasRoom(Current(cfg, s))
    requires content.raw.Some? && cfg.runtime(s.script, content, time) == KEEP_RUN
    ensures var s2 := After(cfg, s, [SelectReply(true, true, true), Persisted(true)]);
            && s2.point.AwaitingFetch? && !Matches(Current(cfg, s2), SinceOf(s2), u)
    ensures var e := AfterOneDelivery(cfg, s, content, time);
            u in Current(cfg, e).messages && u !in e.hist.handled && !Below(e.mem, u)
  {
    Unfold2(cfg, s, SelectReply(true, true, true), Persisted(true));
    CondstoreSkipsWaitingMail(cfg, s, u, content, time);
  }
}
