/** What the file holds, at every point of every run. */
module ProtocolDurable {
  import opened Prelude
  import opened MailStore
  import opened Commands
  import opened SieveEngine
  import opened StateStore
  import opened Protocol
  import opened ProtocolSound
  import opened ProtocolSafety
  import opened ProtocolProgress
  import opened ProtocolMarks
  import opened ProtocolFindings
  import opened Types

  // ---------- an acknowledged write has reached the file ----------

  /** While the daemon fetches, processes or idles, the file holds the state in memory;
      while a new counter waits to be written, it holds all but that. */
  ghost predicate FileLevel(s: Sys) {
    && (s.point.AwaitingFetch? || s.point.InBatch? || s.point.Idling? ==> s.file == Some(s.mem))
    && (s.point.Seeding? ==> s.file == Some(s.mem.(lastSeenUid := None)))
    && (s.point.Committing? ==> s.file.Some? && s.mem == s.file.value.(lastSeenUid := s.mem.lastSeenUid))
  }

  lemma ProcessedKeepsLevel(cfg: Settings, s: Sys, run: RuntimeRun, fates: seq<Fate>)
    requires FileLevel(s) && s.point.InBatch? && s.point.batch.done < |s.point.batch.queue|
    ensures FileLevel(OnProcessed(cfg, s, run, fates))
  {
    var s' := OnProcessed(cfg, s, run, fates);
    ProcessedShape(cfg, s, run, fates);
    if s'.point.Committing? {
      assert s'.mem == s.mem.(lastSeenUid := s'.mem.lastSeenUid);
    } else {
      assert s'.mem == s.mem;
    }
  }

  lemma NextKeepsLevel(cfg: Settings, s: Sys, e: Happening)
    requires FileLevel(s)
    ensures FileLevel(Next(cfg, s, e))
  {
    if e.Process? && Fits(s, e) { ProcessedKeepsLevel(cfg, s, RunAt(cfg, s, e.time), e.fates); }
  }

  /** In every run from the start, at every fetch, message and wait: the file holds exactly
      the state in memory; while the seed is being written it holds the rest of it. */
  lemma {:induction false} FileHoldsMemory(cfg: Settings, s: Sys, es: seq<Happening>)
    requires FileLevel(s)
    ensures FileLevel(After(cfg, s, es))
    decreases |es|
  {
    if es != [] {
      NextKeepsLevel(cfg, s, es[0]);
      FileHoldsMemory(cfg, Next(cfg, s, es[0]), es[1..]);
    }
  }

  lemma InitiallyLevel(cfg: Settings, s: Sys)
    requires Initially(cfg, s)
    ensures FileLevel(s)
  {
  }

  /** The state in memory when the last write of a run was acknowledged. */
  function LastAcknowledged(cfg: Settings, s: Sys, file: Option<State>, es: seq<Happening>): Option<State>
    decreases |es|
  {
    if es == [] then file
    else
      LastAcknowledged(cfg, Next(cfg, s, es[0]),
                       if es[0] == Persisted(true) && Fits(s, es[0]) then Some(s.mem) else file, es[1..])
  }

  lemma NextWrites(cfg: Settings, s: Sys, e: Happening)
    ensures Next(cfg, s, e).file == if e == Persisted(true) && Fits(s, e) then Some(s.mem) else s.file
  {
    if e.Process? && Fits(s, e) { ProcessedShape(cfg, s, RunAt(cfg, s, e.time), e.fates); }
  }

  /** In every run the file is what was in memory at the last acknowledged write: a failed
      write leaves it alone. */
  lemma {:induction false} FileIsLastAcknowledged(cfg: Settings, s: Sys, es: seq<Happening>)
    ensures After(cfg, s, es).file == LastAcknowledged(cfg, s, s.file, es)
    decreases |es|
  {
    if es != [] {
      NextWrites(cfg, s, es[0]);
      FileIsLastAcknowledged(cfg, Next(cfg, s, es[0]), es[1..]);
    }
  }

  // ---------- the anchor stays ----------

  /** A counter is in memory and in the file, and this is the anchor. */
  ghost predicate Anchored(s: Sys, anchor: nat) {
    s.hist.anchor == anchor && s.mem.lastSeenUid.Some? && Durable(s).lastSeenUid.Some?
  }

  lemma AnchorMovesOnlyWithoutCounter(cfg: Settings, s: Sys, e: Happening)
    requires s.mem.lastSeenUid.Some?
    ensures Next(cfg, s, e).hist.anchor == s.hist.anchor
  {
    if e.Process? && Fits(s, e) {
      assert OnProcessed(cfg, s, RunAt(cfg, s, e.time), e.fates).hist.anchor == s.hist.anchor;
    }
  }

  lemma LaunchLoads(cfg: Settings, s: Sys, e: Happening)
    requires e.Launch?
    ensures Next(cfg, s, e).mem == s.mem || Next(cfg, s, e).mem == Durable(s)
  {
  }

  lemma NextStaysAnchored(cfg: Settings, s: Sys, e: Happening, anchor: nat)
    requires Sound(cfg, s) && Anchored(s, anchor)
    ensures Anchored(Next(cfg, s, e), anchor)
  {
    NextIsAhead(cfg, s, e);
    AnchorMovesOnlyWithoutCounter(cfg, s, e);
    if e.Launch? { LaunchLoads(cfg, s, e); }
  }

  lemma {:induction false} AlwaysAnchored(cfg: Settings, s: Sys, es: seq<Happening>, anchor: nat)
    requires Sound(cfg, s) && Anchored(s, anchor)
    ensures Anchored(After(cfg, s, es), anchor)
    decreases |es|
  {
    if es != [] {
      NextStaysAnchored(cfg, s, es[0], anchor);
      NextKeepsSound(cfg, s, es[0]);
      AlwaysAnchored(cfg, Next(cfg, s, es[0]), es[1..], anchor);
    }
  }

  /** Once a process has waited for a fetch, no crash, restart or reconnect moves the
      anchor: every later launch loads a counter at least as high as the one then, so
      nothing above it is left behind by a new seed. */
  lemma AnchorStays(cfg: Settings, s: Sys, es: seq<Happening>, later: seq<Happening>, launch: Happening)
    requires Initially(cfg, s) && After(cfg, s, es).point.AwaitingFetch?
    requires Starts(After(cfg, After(cfg, s, es), later), launch)
    ensures var f := After(cfg, s, es);
            var e := After(cfg, f, later);
            var started := Next(cfg, e, launch);
            && e.hist.anchor == f.hist.anchor && started.hist.anchor == f.hist.anchor
            && started.mem == Durable(e)
            && f.mem.lastSeenUid.Some? && started.mem.lastSeenUid.Some?
            && f.mem.lastSeenUid.value <= started.mem.lastSeenUid.value
  {
    var f := After(cfg, s, es);
    InitiallyLevel(cfg, s);
    FileHoldsMemory(cfg, s, es);
    AlwaysSound(cfg, s, es);
    AlwaysAnchored(cfg, f, later, f.hist.anchor);
    NeverBackwards(cfg, f, later);
  }

  // ---------- no file, no counter ----------

  /** The start of a process, and its first session up to its first fetch. */
  function FirstStart(text: string, caps: Capabilities, tellsModseq: bool): seq<Happening> {
    [Launch(Some(text), true), Connected(true), CapabilityReply(Some(caps))] +
    [SelectReply(true, true, tellsModseq), Persisted(true), Persisted(true)]
  }

  /** Without a state file a process starts without counter or UIDVALIDITY: it accepts
      whatever UIDVALIDITY the mailbox has, and its first counter is UIDNEXT - 1. */
  lemma MissingFileMeansNoCounter(cfg: Settings, s: Sys, text: string, caps: Capabilities, tellsModseq: bool)
    requires s.point.Down? && s.file.None? && caps.idle && cfg.mailbox in s.server
    requires WellFormed(Current(cfg, s))
    ensures var e := After(cfg, s, FirstStart(text, caps, tellsModseq));
            && e.point.AwaitingFetch? && e.server == s.server && e.script.text == text
            && e.mem.lastSeenUid == Some(Current(cfg, s).uidnext - 1)
            && e.mem.uidvalidity == Some(Current(cfg, s).uidvalidity) && e.file == Some(e.mem)
  {
    var first := [Launch(Some(text), true), Connected(true), CapabilityReply(Some(caps))];
    var second := [SelectReply(true, true, tellsModseq), Persisted(true), Persisted(true)];
    var s1 := After(cfg, s, first);
    ProcessStarts(cfg, s, text, caps);
    FirstSessionSeeds(cfg, s1, tellsModseq);
    AfterConcat(cfg, s, first, second);
  }

  lemma ProcessStarts(cfg: Settings, s: Sys, text: string, caps: Capabilities)
    requires s.point.Down? && s.file.None? && caps.idle
    ensures var e := After(cfg, s, [Launch(Some(text), true), Connected(true), CapabilityReply(Some(caps))]);
            && e.point == Selecting(caps) && e.server == s.server && e.script.text == text
            && e.mem.lastSeenUid.None? && e.mem.uidvalidity.None?
  {
    Unfold3(cfg, s, Launch(Some(text), true), Connected(true), CapabilityReply(Some(caps)));
  }

  lemma FirstSessionSeeds(cfg: Settings, s: Sys, tellsModseq: bool)
    requires s.point.Selecting? && s.mem.lastSeenUid.None? && s.mem.uidvalidity.None? && WellFormed(Current(cfg, s))
    ensures var e := After(cfg, s, [SelectReply(true, true, tellsModseq), Persisted(true), Persisted(true)]);
            && e.point.AwaitingFetch? && e.server == s.server && e.script == s.script
            && e.mem.lastSeenUid == Some(Current(cfg, s).uidnext - 1)
            && e.mem.uidvalidity == Some(Current(cfg, s).uidvalidity) && e.file == Some(e.mem)
  {
    Unfold3(cfg, s, SelectReply(true, true, tellsModseq), Persisted(true), Persisted(true));
  }
}
