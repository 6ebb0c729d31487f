/** How the daemon stops. The notification is a stored permit, polled before anything
    else at connect and in the idle loop, and on equal terms during a backoff sleep. */
module ProtocolShutdown {
  import opened Prelude
  import opened Types
  import opened Commands
  import opened SieveEngine
  import opened Protocol
  import opened ProtocolSafety

  // ---------- exits ----------

  /** The supervisor returns Ok only on shutdown, and Err only for a changed UIDVALIDITY. */
  lemma OnlyTwoExits(cfg: Settings, s: Sys, e: Happening)
    requires !s.point.Exited? && Next(cfg, s, e).point.Exited?
    ensures var r := Next(cfg, s, e).point.result;
            || (r == Pass && e == ShutdownSeen && s.permit)
            || (r.Fail? && r.error.UidValidityChanged? && e.SelectReply?
                && s.mem.uidvalidity == Some(r.error.cached) && r.error.server == Current(cfg, s).uidvalidity
                && r.error.cached != r.error.server)
  {
  }

  /** A pending notification is given up only by the exit it asks for, or with the process. */
  lemma NotificationIsKept(cfg: Settings, s: Sys, e: Happening)
    requires s.permit && Alive(s) && !e.Crash?
    ensures Next(cfg, s, e).permit || Next(cfg, s, e).point == Exited(Pass)
  {
    if e.Process? && Fits(s, e) {
      assert OnProcessed(cfg, s, RunAt(cfg, s, e.time), e.fates).permit == s.permit;
    }
  }

  lemma {:induction false} PermitRemains(cfg: Settings, s: Sys, es: seq<Happening>)
    requires s.permit && Alive(s) && SameProcess(es)
    ensures var e := After(cfg, s, es); Alive(e) ==> e.permit
    decreases |es|
  {
    if es != [] {
      assert !es[0].Crash? && !es[0].Launch? && SameProcess(es[1..]);
      NotificationIsKept(cfg, s, es[0]);
      var s1 := Next(cfg, s, es[0]);
      if Alive(s1) { PermitRemains(cfg, s1, es[1..]); } else { DeadStaysDead(cfg, s1, es[1..]); }
    }
  }

  /** A notification of a live process stays pending, whatever happens, until the process
      has ended; and where the daemon waits to connect, to sleep or in IDLE, it is taken. */
  lemma NotificationIsNeverLost(cfg: Settings, s: Sys, es: seq<Happening>)
    requires Alive(s) && SameProcess(es)
    ensures var e := After(cfg, Next(cfg, s, Notify), es);
            Alive(e) ==>
              && e.permit
              && (e.point.Connecting? || e.point.Sleeping? || e.point.Idling? ==>
                    Next(cfg, e, ShutdownSeen).point == Exited(Pass))
  {
    PermitRemains(cfg, Next(cfg, s, Notify), es);
  }

  // ---------- at most one more batch ----------

  predicate PastLastBatch(p: Point) {
    p.InBatch? || p.Committing? || p.Idling? || p.Sleeping? || p.Connecting?
  }

  predicate NoticeKept(s: Sys) {
    s.permit ==> s.hist.sinceNotify <= 1 && (s.hist.sinceNotify == 1 && Alive(s) ==> PastLastBatch(s.point))
  }

  lemma NextKeepsNotice(cfg: Settings, s: Sys, e: Happening)
    requires NoticeKept(s)
    ensures NoticeKept(Next(cfg, s, e))
  {
    if e.Process? && Fits(s, e) {
      var s' := OnProcessed(cfg, s, RunAt(cfg, s, e.time), e.fates);
      assert s'.permit == s.permit && s'.hist.sinceNotify == s.hist.sinceNotify;
      assert s'.point.Idling? || s'.point.Committing?;
    }
  }

  lemma {:induction false} AlwaysNotice(cfg: Settings, s: Sys, es: seq<Happening>)
    requires NoticeKept(s)
    ensures NoticeKept(After(cfg, s, es))
    decreases |es|
  {
    if es != [] {
      NextKeepsNotice(cfg, s, es[0]);
      AlwaysNotice(cfg, Next(cfg, s, es[0]), es[1..]);
    }
  }

  /** In every run, while a notification is pending at most one batch fetches. */
  lemma AtMostOneMoreBatch(cfg: Settings, s: Sys, es: seq<Happening>)
    requires Initially(cfg, s)
    ensures After(cfg, s, es).permit ==> After(cfg, s, es).hist.sinceNotify <= 1
  {
    AlwaysNotice(cfg, s, es);
  }

  // ---------- and the exit comes soon ----------

  /** A bound on the answers the daemon still takes once a notification is pending. */
  function Remaining(cfg: Settings, p: Point): nat {
    match p
    case Down => 0
    case Exited(_) => 0
    case Connecting => 1
    case Idling(_) => 1
    case Sleeping => 2
    case InBatch(_, b) => (if b.done <= |b.queue| then 2 * (|b.queue| - b.done) else 0) + 3
    case Committing(_, b, _) => (if b.done <= |b.queue| then 2 * (|b.queue| - b.done) else 0) + 2
    case AwaitingFetch(_) => 2 * cfg.batchSize + 4
    case Seeding(_) => 2 * cfg.batchSize + 5
    case Adopting(_, _) => 2 * cfg.batchSize + 6
    case Selecting(_) => 2 * cfg.batchSize + 7
    case AwaitingCapability => 2 * cfg.batchSize + 8
  }

  lemma ProcessedComesCloser(cfg: Settings, s: Sys, run: RuntimeRun, fates: seq<Fate>)
    requires s.point.InBatch? && s.point.batch.done < |s.point.batch.queue|
    ensures Remaining(cfg, OnProcessed(cfg, s, run, fates).point) < Remaining(cfg, s.point)
  {
    ProcessedShape(cfg, s, run, fates);
    CloserAfterMessage(cfg, s.point, OnProcessed(cfg, s, run, fates).point);
  }

  lemma CloserAfterMessage(cfg: Settings, p: Point, p': Point)
    requires p.InBatch? && p.batch.done < |p.batch.queue|
    requires p'.Idling? || (p'.Committing? && p'.batch == p.batch)
    ensures Remaining(cfg, p') < Remaining(cfg, p)
  {
  }

  lemma PersistedComesCloser(cfg: Settings, s: Sys, ok: bool)
    requires Fits(s, Persisted(ok))
    ensures Remaining(cfg, OnPersisted(s, ok).point) < Remaining(cfg, s.point)
  {
  }

  lemma AnswerComesCloser(cfg: Settings, s: Sys, e: Happening)
    requires s.permit && Fits(s, e)
    ensures Remaining(cfg, Answer(cfg, s, e).point) < Remaining(cfg, s.point)
  {
    if e.Process? {
      ProcessedComesCloser(cfg, s, RunAt(cfg, s, e.time), e.fates);
    } else if e.Persisted? {
      PersistedComesCloser(cfg, s, e.ok);
    }
  }

  /** How many events of the list the daemon takes as answers. */
  function Answers(cfg: Settings, s: Sys, es: seq<Happening>): nat
    decreases |es|
  {
    if es == [] then 0
    else (if !IsEnvironment(es[0]) && Fits(s, es[0]) then 1 else 0) + Answers(cfg, Next(cfg, s, es[0]), es[1..])
  }

  predicate SameProcess(es: seq<Happening>) {
    forall i :: 0 <= i < |es| ==> !es[i].Crash? && !es[i].Launch?
  }

  lemma {:induction false} DeadTakesNoAnswers(cfg: Settings, s: Sys, es: seq<Happening>)
    requires !Alive(s) && SameProcess(es)
    ensures Answers(cfg, s, es) == 0
    decreases |es|
  {
    if es != [] {
      DeadTakesNoAnswers(cfg, Next(cfg, s, es[0]), es[1..]);
    }
  }

  /** With a notification pending, whatever the environment does, the daemon takes at
      most two answers per message of a batch and eight more before it has exited. */
  lemma {:induction false} ShutdownIsBounded(cfg: Settings, s: Sys, es: seq<Happening>)
    requires s.permit && Alive(s) && SameProcess(es)
    requires s.point.InBatch? || s.point.Committing? ==> |s.point.batch.queue| <= cfg.batchSize
    ensures Answers(cfg, s, es) <= Remaining(cfg, s.point) <= 2 * cfg.batchSize + 8
    ensures Alive(After(cfg, s, es)) ==>
            Answers(cfg, s, es) + Remaining(cfg, After(cfg, s, es).point) <= Remaining(cfg, s.point)
    decreases |es|
  {
    if es != [] {
      var e := es[0];
      var s1 := Next(cfg, s, e);
      assert !e.Crash? && !e.Launch?;
      assert SameProcess(es[1..]);
      NotificationIsKept(cfg, s, e);
      if Fits(s, e) {
        AnswerComesCloser(cfg, s, e);
        QueueStaysShort(cfg, s, e);
      } else {
        assert s1.point == s.point;
      }
      if Alive(s1) {
        ShutdownIsBounded(cfg, s1, es[1..]);
      } else {
        DeadTakesNoAnswers(cfg, s1, es[1..]);
        DeadStaysDead(cfg, s1, es[1..]);
      }
    }
  }

  lemma {:induction false} DeadStaysDead(cfg: Settings, s: Sys, es: seq<Happening>)
    requires !Alive(s) && SameProcess(es)
    ensures !Alive(After(cfg, s, es))
    decreases |es|
  {
    if es != [] {
      DeadStaysDead(cfg, Next(cfg, s, es[0]), es[1..]);
    }
  }

  lemma QueueStaysShort(cfg: Settings, s: Sys, e: Happening)
    requires Fits(s, e)
    requires s.point.InBatch? || s.point.Committing? ==> |s.point.batch.queue| <= cfg.batchSize
    ensures var p := Answer(cfg, s, e).point; p.InBatch? || p.Committing? ==> |p.batch.queue| <= cfg.batchSize
  {
    if e.Process? {
      var s' := OnProcessed(cfg, s, RunAt(cfg, s, e.time), e.fates);
      assert s'.point.Idling? || (s'.point.Committing? && s'.point.batch == s.point.batch);
    }
  }

  // ---------- the batch is finished first ----------

  /** The events of a process that is not killed and whose writes succeed. */
  predicate Undisturbed(es: seq<Happening>) {
    forall i :: 0 <= i < |es| ==> !es[i].Crash? && !es[i].Launch? && es[i] != Persisted(false)
  }

  /** Since `before`, exactly the messages from `i` up to `j` have been processed. */
  ghost predicate Did(before: seq<ProcessingResult>, queue: seq<MessageContext>, i: nat, j: nat,
                      after: seq<ProcessingResult>)
    requires i <= j <= |queue|
  {
    && before <= after && |after| == |before| + (j - i)
    && (forall k :: i <= k < j ==>
          after[|before| + k - i].uid == queue[k].uid && after[|before| + k - i].status.Processed?)
  }

  /** Since `before`, the processing of some message has failed. */
  predicate FailedSince(before: seq<ProcessingResult>, after: seq<ProcessingResult>) {
    exists k :: |before| <= k < |after| && !after[k].status.Processed?
  }

  /** The batch that was at message `i` goes on, or is over, or has failed. */
  ghost predicate Finishing(before: seq<ProcessingResult>, queue: seq<MessageContext>, i: nat, s: Sys)
    requires i <= |queue|
  {
    || FailedSince(before, s.hist.results)
    || ((s.point.InBatch? || s.point.Committing?) && s.permit && s.point.batch.queue == queue
        && i <= s.point.batch.done < |queue| && Did(before, queue, i, s.point.batch.done, s.hist.results))
    || (((s.point.Idling? && s.permit) || s.point == Exited(Pass)) && Did(before, queue, i, |queue|, s.hist.results))
  }

  lemma ResultsGrow(cfg: Settings, s: Sys, e: Happening)
    ensures s.hist.results <= Next(cfg, s, e).hist.results
  {
    if e.Process? && Fits(s, e) {
      assert s.hist.results <= OnProcessed(cfg, s, RunAt(cfg, s, e.time), e.fates).hist.results;
    }
  }

  lemma FailureRemains(before: seq<ProcessingResult>, after: seq<ProcessingResult>, later: seq<ProcessingResult>)
    requires FailedSince(before, after) && after <= later
    ensures FailedSince(before, later)
  {
    var k :| |before| <= k < |after| && !after[k].status.Processed?;
    assert !later[k].status.Processed?;
  }

  lemma ProcessingFinishes(cfg: Settings, before: seq<ProcessingResult>, queue: seq<MessageContext>, i: nat, s: Sys,
                           run: RuntimeRun, fates: seq<Fate>)
    requires i <= |queue| && Finishing(before, queue, i, s) && !FailedSince(before, s.hist.results) && s.point.InBatch?
    ensures Finishing(before, queue, i, OnProcessed(cfg, s, run, fates))
  {
    var s' := OnProcessed(cfg, s, run, fates);
    assert s'.permit == s.permit;
    if s'.point.Committing? {
      assert s'.hist.results == s.hist.results && s'.point.batch == s.point.batch;
    } else {
      assert !s'.hist.results[|s.hist.results|].status.Processed?;
    }
  }

  lemma SavingFinishes(cfg: Settings, before: seq<ProcessingResult>, queue: seq<MessageContext>, i: nat, s: Sys)
    requires i <= |queue| && Finishing(before, queue, i, s) && !FailedSince(before, s.hist.results)
    requires s.point.Committing?
    ensures Finishing(before, queue, i, OnPersisted(s, true))
  {
    var s', j := OnPersisted(s, true), s.point.batch.done;
    assert s'.permit == s.permit;
    assert Did(before, queue, i, j + 1, s'.hist.results);
  }

  lemma NextFinishes(cfg: Settings, before: seq<ProcessingResult>, queue: seq<MessageContext>, i: nat, s: Sys,
                     e: Happening)
    requires i <= |queue| && Finishing(before, queue, i, s) && Undisturbed([e])
    ensures Finishing(before, queue, i, Next(cfg, s, e))
  {
    assert [e][0] == e;
    if FailedSince(before, s.hist.results) {
      ResultsGrow(cfg, s, e);
      FailureRemains(before, s.hist.results, Next(cfg, s, e).hist.results);
    } else if e.Process? && Fits(s, e) {
      ProcessingFinishes(cfg, before, queue, i, s, RunAt(cfg, s, e.time), e.fates);
    } else if e.Persisted? && Fits(s, e) {
      SavingFinishes(cfg, before, queue, i, s);
    }
  }

  lemma {:induction false} AlwaysFinishes(cfg: Settings, before: seq<ProcessingResult>, queue: seq<MessageContext>,
                                          i: nat, s: Sys, es: seq<Happening>)
    requires i <= |queue| && Finishing(before, queue, i, s) && Undisturbed(es)
    ensures Finishing(before, queue, i, After(cfg, s, es))
    decreases |es|
  {
    if es != [] {
      assert Undisturbed([es[0]]) && Undisturbed(es[1..]);
      NextFinishes(cfg, before, queue, i, s, es[0]);
      AlwaysFinishes(cfg, before, queue, i, Next(cfg, s, es[0]), es[1..]);
    }
  }

  /** A daemon notified while it processes a message exits, if nothing fails, only after it
      has processed the rest of the batch. So it stops after the current message exactly
      when that is the last of its batch. */
  lemma ShutdownFinishesBatch(cfg: Settings, s: Sys, es: seq<Happening>)
    requires s.permit && (s.point.InBatch? || s.point.Committing?) && Undisturbed(es)
    requires s.point.batch.done < |s.point.batch.queue|
    requires After(cfg, s, es).point.Exited?
    ensures var b, before, after := s.point.batch, s.hist.results, After(cfg, s, es).hist.results;
            || FailedSince(before, after)
            || (&& Did(before, b.queue, b.done, |b.queue|, after)
                && (|after| == |before| + 1 <==> |b.queue| - b.done <= 1))
  {
    AlwaysFinishes(cfg, s.hist.results, s.point.batch.queue, s.point.batch.done, s, es);
  }
}
