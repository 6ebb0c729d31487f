/** Which modification sequence a CONDSTORE fetch sends, told from the run alone. */
module ProtocolMarks {
  import opened Prelude
  import opened MailStore
  import opened Commands
  import opened SieveEngine
  import opened StateStore
  import opened Fetching
  import opened Protocol
  import opened ProtocolSound
  import opened ProtocolSafety
  import opened ProtocolProgress

  // ---------- the mark adopted last ----------

  /** A SELECT answer that the daemon accepts, and that reports HIGHESTMODSEQ. */
  predicate Reports(cfg: Settings, s: Sys, e: Happening) {
    && e.SelectReply? && e.ok && e.tellsModseq && s.point.Selecting?
    && (s.mem.uidvalidity.Some? ==> s.mem.uidvalidity.value == Current(cfg, s).uidvalidity)
  }

  predicate Starts(s: Sys, e: Happening) {
    e.Launch? && !Alive(s) && e.text.Some? && e.compiles
  }

  /** The value the mailbox had when its last SELECT reported it, or the one loaded from
      the file at the last launch if no SELECT has reported one since. */
  function MarkStep(cfg: Settings, s: Sys, mark: Option<nat>, e: Happening): Option<nat> {
    if Reports(cfg, s, e) then Some(Current(cfg, s).highestmodseq)
    else if Starts(s, e) then Durable(s).highestmodseq
    else mark
  }

  function MarkAfter(cfg: Settings, s: Sys, mark: Option<nat>, es: seq<Happening>): Option<nat>
    decreases |es|
  {
    if es == [] then mark else MarkAfter(cfg, Next(cfg, s, es[0]), MarkStep(cfg, s, mark, es[0]), es[1..])
  }

  lemma NextKeepsMark(cfg: Settings, s: Sys, e: Happening)
    ensures Next(cfg, s, e).mem.highestmodseq == MarkStep(cfg, s, s.mem.highestmodseq, e)
  {
    if e.Process? && Fits(s, e) {
      assert OnProcessed(cfg, s, RunAt(cfg, s, e.time), e.fates).mem.highestmodseq == s.mem.highestmodseq;
    }
  }

  lemma {:induction false} MemoryHoldsMark(cfg: Settings, s: Sys, es: seq<Happening>)
    ensures After(cfg, s, es).mem.highestmodseq == MarkAfter(cfg, s, s.mem.highestmodseq, es)
    decreases |es|
  {
    if es != [] {
      NextKeepsMark(cfg, s, es[0]);
      MemoryHoldsMark(cfg, Next(cfg, s, es[0]), es[1..]);
    }
  }

  // ---------- every pass goes back to a fetch of the run ----------

  /** The `k`-th event is the answer to a fetch that saw this mailbox and sent this mark:
      the one adopted last, if the session has CONDSTORE. */
  ghost predicate FetchedAt(cfg: Settings, s: Sys, es: seq<Happening>, k: nat, snapshot: Mailbox, since: Option<nat>)
    requires k < |es|
  {
    var f := After(cfg, s, es[..k]);
    && es[k] == FetchReply(true) && f.point.AwaitingFetch?
    && snapshot == Current(cfg, f)
    && since == if f.point.session.caps.condstore then MarkAfter(cfg, s, s.mem.highestmodseq, es[..k]) else None
  }

  ghost predicate Traced(cfg: Settings, s: Sys, es: seq<Happening>, snapshot: Mailbox, since: Option<nat>) {
    exists k :: 0 <= k < |es| && FetchedAt(cfg, s, es, k, snapshot, since)
  }

  ghost predicate AllTraced(cfg: Settings, s: Sys, es: seq<Happening>, e: Sys) {
    && (forall i :: 0 <= i < |e.hist.passes| ==> Traced(cfg, s, es, e.hist.passes[i].snapshot, e.hist.passes[i].since))
    && (e.point.InBatch? || e.point.Committing? ==> Traced(cfg, s, es, e.point.batch.snapshot, e.point.batch.since))
  }

  lemma TracedLater(cfg: Settings, s: Sys, es: seq<Happening>, e: Happening, snapshot: Mailbox, since: Option<nat>)
    requires Traced(cfg, s, es, snapshot, since)
    ensures Traced(cfg, s, es + [e], snapshot, since)
  {
    var k :| 0 <= k < |es| && FetchedAt(cfg, s, es, k, snapshot, since);
    assert (es + [e])[..k] == es[..k] && (es + [e])[k] == es[k];
    assert FetchedAt(cfg, s, es + [e], k, snapshot, since);
  }

  /** A fetch answer starts a batch on what it saw. */
  lemma FetchIsTraced(cfg: Settings, s: Sys, es: seq<Happening>, f: Sys)
    requires f == After(cfg, s, es) && f.point.AwaitingFetch? && OnFetched(cfg, f, true).point.InBatch?
    ensures var b := OnFetched(cfg, f, true).point.batch; Traced(cfg, s, es + [FetchReply(true)], b.snapshot, b.since)
  {
    var all := es + [FetchReply(true)];
    assert all[..|es|] == es && all[|es|] == FetchReply(true);
    MemoryHoldsMark(cfg, s, es);
    var b := OnFetched(cfg, f, true).point.batch;
    assert FetchedAt(cfg, s, all, |es|, b.snapshot, b.since);
  }

  /** What a step adds to the passes, and where a batch comes from. */
  ghost predicate CarriesOver(s: Sys, s': Sys) {
    && (forall i :: 0 <= i < |s'.hist.passes| ==>
          || (i < |s.hist.passes| && s'.hist.passes[i] == s.hist.passes[i])
          || (s.point.InBatch? && s'.hist.passes[i].snapshot == s.point.batch.snapshot
              && s'.hist.passes[i].since == s.point.batch.since))
    && (s'.point.InBatch? || s'.point.Committing? ==>
          && (s.point.InBatch? || s.point.Committing?)
          && s'.point.batch.snapshot == s.point.batch.snapshot && s'.point.batch.since == s.point.batch.since)
  }

  lemma NextCarriesOver(cfg: Settings, s: Sys, e: Happening)
    requires !(e.FetchReply? && Fits(s, e))
    ensures CarriesOver(s, Next(cfg, s, e))
  {
    if e.Process? && Fits(s, e) {
      ProcessedCarriesOver(cfg, s, RunAt(cfg, s, e.time), e.fates);
    }
  }

  lemma ProcessedCarriesOver(cfg: Settings, s: Sys, run: RuntimeRun, fates: seq<Fate>)
    requires s.point.InBatch? && s.point.batch.done < |s.point.batch.queue|
    ensures CarriesOver(s, OnProcessed(cfg, s, run, fates))
  {
    var s' := OnProcessed(cfg, s, run, fates);
    assert s'.point.Idling? || (s'.point.Committing? && s'.point.batch == s.point.batch);
    if s'.point.Committing? {
      assert |s'.hist.passes| == |s.hist.passes| + 1 && s.hist.passes <= s'.hist.passes;
    } else {
      assert s'.hist.passes == s.hist.passes;
    }
  }

  lemma CarriedIsTraced(cfg: Settings, s: Sys, es: seq<Happening>, e: Happening, f: Sys, f': Sys)
    requires AllTraced(cfg, s, es, f) && CarriesOver(f, f')
    ensures AllTraced(cfg, s, es + [e], f')
  {
    forall i | 0 <= i < |f'.hist.passes|
      ensures Traced(cfg, s, es + [e], f'.hist.passes[i].snapshot, f'.hist.passes[i].since)
    {
      TracedLater(cfg, s, es, e, f'.hist.passes[i].snapshot, f'.hist.passes[i].since);
    }
    if f'.point.InBatch? || f'.point.Committing? {
      TracedLater(cfg, s, es, e, f'.point.batch.snapshot, f'.point.batch.since);
    }
  }

  lemma FetchingIsTraced(cfg: Settings, s: Sys, es: seq<Happening>, ok: bool, f: Sys)
    requires f == After(cfg, s, es) && f.point.AwaitingFetch? && AllTraced(cfg, s, es, f)
    ensures AllTraced(cfg, s, es + [FetchReply(ok)], OnFetched(cfg, f, ok))
  {
    var f' := OnFetched(cfg, f, ok);
    forall i | 0 <= i < |f'.hist.passes|
      ensures Traced(cfg, s, es + [FetchReply(ok)], f'.hist.passes[i].snapshot, f'.hist.passes[i].since)
    {
      TracedLater(cfg, s, es, FetchReply(ok), f.hist.passes[i].snapshot, f.hist.passes[i].since);
    }
    if f'.point.InBatch? { FetchIsTraced(cfg, s, es, f); }
  }

  lemma {:induction false} AlwaysTraced(cfg: Settings, s: Sys, es: seq<Happening>, n: nat)
    requires Initially(cfg, s) && n <= |es|
    ensures AllTraced(cfg, s, es[..n], After(cfg, s, es[..n]))
    decreases n
  {
    if n == 0 {
      assert es[..n] == [];
    } else {
      var before, e := es[..n - 1], es[n - 1];
      var f := After(cfg, s, before);
      AlwaysTraced(cfg, s, es, n - 1);
      assert es[..n] == before + [e] && [e][1..] == [];
      AfterConcat(cfg, s, before, [e]);
      assert After(cfg, f, [e]) == Next(cfg, f, e);
      if e.FetchReply? && Fits(f, e) {
        FetchingIsTraced(cfg, s, before, e.ok, f);
      } else {
        NextCarriesOver(cfg, f, e);
        CarriedIsTraced(cfg, s, before, e, f, Next(cfg, f, e));
      }
    }
  }

  /** The counter passed `u` on the strength of the fetch answered by the `k`-th event,
      which could not return it: it was absent, or had not changed since the mark adopted
      last. */
  ghost predicate SkippedAt(cfg: Settings, s: Sys, es: seq<Happening>, k: nat, pass: Advance, u: Uid)
    requires k < |es|
  {
    var f := After(cfg, s, es[..k]);
    var mark := MarkAfter(cfg, s, s.mem.highestmodseq, es[..k]);
    && es[k] == FetchReply(true) && f.point.AwaitingFetch?
    && pass.lo < u <= pass.hi && pass.snapshot == Current(cfg, f)
    && (u !in Current(cfg, f).messages
        || (f.point.session.caps.condstore && mark.Some? && Current(cfg, f).messages[u].modseq <= mark.value))
  }

  /** In every run from the start, in memory and in the file: each identifier above the
      anchor that the counter has reached was executed OK, or was passed on the strength of
      a fetch at which it was absent or, with CONDSTORE, had not changed since the mark
      adopted at the last SELECT that reported one, or loaded from the file if none has. */
  lemma SkippedOnlyByMark(cfg: Settings, s: Sys, es: seq<Happening>, st: State, u: Uid)
    requires Initially(cfg, s)
    requires var e := After(cfg, s, es); st in {e.mem, Durable(e)}
    requires st.lastSeenUid.Some? && After(cfg, s, es).hist.anchor < u <= st.lastSeenUid.value
    ensures var h := After(cfg, s, es).hist;
            u in h.handled ||
            exists i, k :: 0 <= i < |h.passes| && 0 <= k < |es| && SkippedAt(cfg, s, es, k, h.passes[i], u)
  {
    var e := After(cfg, s, es);
    AlwaysCovered(cfg, s, es);
    AlwaysSound(cfg, s, es);
    CoveredBelow(e.hist, e.mem, Durable(e));
    assert Covered(e.hist, st);
    if u !in e.hist.handled {
      var i :| 0 <= i < |e.hist.passes| && PassSkips(e.hist.passes[i], u);
      AlwaysTraced(cfg, s, es, |es|);
      assert es[..|es|] == es;
      var k := TracedSkip(cfg, s, es, e.hist.passes[i], u);
    }
  }

  lemma TracedSkip(cfg: Settings, s: Sys, es: seq<Happening>, pass: Advance, u: Uid) returns (k: nat)
    requires PassSkips(pass, u) && Traced(cfg, s, es, pass.snapshot, pass.since)
    ensures k < |es| && SkippedAt(cfg, s, es, k, pass, u)
  {
    k :| 0 <= k < |es| && FetchedAt(cfg, s, es, k, pass.snapshot, pass.since);
  }

  // ---------- what arrives in a session is never left out ----------

  /** No SELECT is answered, and no process starts. */
  predicate SameSession(es: seq<Happening>) {
    forall i :: 0 <= i < |es| ==> !es[i].SelectReply? && !es[i].Launch?
  }

  /** Since the mailbox was `mb0`, the session, if any, is this one, with this mark. */
  ghost predicate InSession(cfg: Settings, mb0: Mailbox, session: Session, mark: Option<nat>, s: Sys) {
    && Sound(cfg, s)
    && (HasSelected(s.point) ==>
          Evolves(mb0, Current(cfg, s)) && SessionOf(s.point) == session && s.mem.highestmodseq == mark)
  }

  lemma NextStaysInSession(cfg: Settings, mb0: Mailbox, session: Session, mark: Option<nat>, s: Sys, e: Happening)
    requires WellFormed(mb0) && InSession(cfg, mb0, session, mark, s) && !e.SelectReply? && !e.Launch?
    ensures InSession(cfg, mb0, session, mark, Next(cfg, s, e))
  {
    var s' := Next(cfg, s, e);
    NextKeepsSound(cfg, s, e);
    NextKeepsMark(cfg, s, e);
    NextEvolves(cfg, s, e);
    if HasSelected(s'.point) {
      SelectedBefore(cfg, s, e);
      assert Evolves(Current(cfg, s), Current(cfg, s'));
      EvolvesTransitive(mb0, Current(cfg, s), Current(cfg, s'));
    }
  }

  lemma SelectedBefore(cfg: Settings, s: Sys, e: Happening)
    requires !e.SelectReply? && !e.Launch? && HasSelected(Next(cfg, s, e).point)
    ensures HasSelected(s.point) && SessionOf(Next(cfg, s, e).point) == SessionOf(s.point)
  {
    if e.Process? && Fits(s, e) {
      var s' := OnProcessed(cfg, s, RunAt(cfg, s, e.time), e.fates);
      assert s'.point.Idling? || s'.point.Committing?;
    }
  }

  lemma {:induction false} AlwaysInSession(cfg: Settings, mb0: Mailbox, session: Session, mark: Option<nat>,
                                           s: Sys, es: seq<Happening>)
    requires WellFormed(mb0) && InSession(cfg, mb0, session, mark, s) && SameSession(es)
    ensures InSession(cfg, mb0, session, mark, After(cfg, s, es))
    decreases |es|
  {
    if es != [] {
      assert !es[0].SelectReply? && !es[0].Launch?;
      NextStaysInSession(cfg, mb0, session, mark, s, es[0]);
      AlwaysInSession(cfg, mb0, session, mark, Next(cfg, s, es[0]), es[1..]);
    }
  }

  lemma ReportStartsSession(cfg: Settings, s: Sys, reply: Happening)
    requires Sound(cfg, s) && Reports(cfg, s, reply)
    ensures var s1, mb := Next(cfg, s, reply), Current(cfg, s);
            && HasSelected(s1.point) && SessionOf(s1.point).caps == s.point.caps && WellFormed(mb)
            && InSession(cfg, mb, SessionOf(s1.point), Some(mb.highestmodseq), s1)
  {
    NextKeepsSound(cfg, s, reply);
    EvolvesReflexive(s.server);
  }

  // ---------- which messages a fetch returns ----------

  /** A fetch is due, and the message is in the mailbox, above the counter. */
  ghost predicate DueAt(cfg: Settings, f: Sys, u: Uid) {
    && f.point.AwaitingFetch? && f.mem.lastSeenUid.Some?
    && f.mem.lastSeenUid.value < u && u in Current(cfg, f).messages
  }

  lemma FetchReturnsIff(cfg: Settings, f: Sys, u: Uid)
    requires Sound(cfg, f) && DueAt(cfg, f, u)
    ensures Returned(NextFetch(cfg, f), u)
            <==> SinceOf(f).None? || SinceOf(f).value < Current(cfg, f).messages[u].modseq
  {
    FetchMissesIff(Current(cfg, f), f.mem.lastSeenUid.value + 1, SinceOf(f), u);
  }

  /** At every fetch of every run, after failures, reconnects and restarts: a message that
      is in the mailbox above the counter is returned exactly when the session has no
      CONDSTORE, or no mark was ever adopted, or the message has changed since the mark
      adopted at the last SELECT that reported one, or loaded from the file if none has. */
  lemma FetchedAgainIff(cfg: Settings, s: Sys, es: seq<Happening>, u: Uid)
    requires Sound(cfg, s) && DueAt(cfg, After(cfg, s, es), u)
    ensures var f, mark := After(cfg, s, es), MarkAfter(cfg, s, s.mem.highestmodseq, es);
            Returned(NextFetch(cfg, f), u)
            <==> !f.point.session.caps.condstore || mark.None? || mark.value < Current(cfg, f).messages[u].modseq
  {
    AlwaysSound(cfg, s, es);
    MemoryHoldsMark(cfg, s, es);
    FetchReturnsIff(cfg, After(cfg, s, es), u);
  }

  /** A message that arrives after the session's SELECT reported its mark is returned by
      every later fetch of that session that has not passed it, CONDSTORE or not. */
  lemma ArrivalsAreNeverLeftOut(cfg: Settings, s: Sys, reply: Happening, es: seq<Happening>, u: Uid)
    requires Sound(cfg, s) && Reports(cfg, s, reply) && SameSession(es)
    requires DueAt(cfg, After(cfg, Next(cfg, s, reply), es), u) && Current(cfg, s).uidnext <= u
    ensures Returned(NextFetch(cfg, After(cfg, Next(cfg, s, reply), es)), u)
  {
    var mb, s1 := Current(cfg, s), Next(cfg, s, reply);
    ReportStartsSession(cfg, s, reply);
    AlwaysInSession(cfg, mb, SessionOf(s1.point), Some(mb.highestmodseq), s1, es);
    FetchReturnsIff(cfg, After(cfg, s1, es), u);
  }

  /** A message that was there when a SELECT with CONDSTORE reported its mark is returned
      by a later fetch of that session exactly when it has changed since. */
  lemma OldMailIsHiddenUntilChanged(cfg: Settings, s: Sys, reply: Happening, es: seq<Happening>, u: Uid)
    requires Sound(cfg, s) && Reports(cfg, s, reply) && s.point.caps.condstore && SameSession(es)
    requires u in Current(cfg, s).messages && DueAt(cfg, After(cfg, Next(cfg, s, reply), es), u)
    ensures var f := After(cfg, Next(cfg, s, reply), es);
            Returned(NextFetch(cfg, f), u) <==> Current(cfg, f).messages[u] != Current(cfg, s).messages[u]
  {
    var mb, s1 := Current(cfg, s), Next(cfg, s, reply);
    ReportStartsSession(cfg, s, reply);
    AlwaysInSession(cfg, mb, SessionOf(s1.point), Some(mb.highestmodseq), s1, es);
    FetchReturnsIff(cfg, After(cfg, s1, es), u);
  }
}
