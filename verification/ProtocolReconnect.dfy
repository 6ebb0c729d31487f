/** What follows a failure: the session is over, and a delay comes before the next one. */
module ProtocolReconnect {
  import opened Protocol
  import opened ProtocolProgress

  /** The answers that end a connection attempt or a session. */
  predicate Failing(e: Happening) {
    || e == Connected(false)
    || (e.CapabilityReply? && (e.caps.None? || !e.caps.value.idle))
    || (e.SelectReply? && !e.ok)
    || e == Persisted(false)
    || e == FetchReply(false)
    || (e.IdleReply? && (e.event.Disconnected? || e.event.IdleError?))
  }

  /** The daemon has no connection that it could use. */
  predicate Disconnected(p: Point) {
    p.Sleeping? || p.Connecting? || p.Down? || p.Exited?
  }

  /** No connection is made, and no process starts. */
  predicate NoConnect(es: seq<Happening>) {
    forall i :: 0 <= i < |es| ==> es[i] != Connected(true) && !es[i].Launch?
  }

  lemma FailureDisconnects(cfg: Settings, s: Sys, e: Happening)
    requires Failing(e) && Fits(s, e)
    ensures Next(cfg, s, e).point.Sleeping? && Next(cfg, s, e).server == s.server && Next(cfg, s, e).sent == s.sent
  {
  }

  lemma {:induction false} StaysDisconnected(cfg: Settings, s: Sys, es: seq<Happening>)
    requires Disconnected(s.point) && NoConnect(es)
    ensures var e := After(cfg, s, es);
            && Disconnected(e.point) && e.sent == s.sent && e.mem == s.mem && e.hist.oks == s.hist.oks
            && e.hist.batches == s.hist.batches && e.server == EnvironmentAlone(cfg, s, es)
    decreases |es|
  {
    if es != [] {
      assert es[0] != Connected(true) && !es[0].Launch?;
      var s1 := Next(cfg, s, es[0]);
      StaysDisconnected(cfg, s1, es[1..]);
      if !IsEnvironment(es[0]) { SameStoreAlone(cfg, s, s1, es[1..]); }
    }
  }

  /** What the environment makes of the store does not depend on the daemon, as long as
      that has nothing selected. */
  lemma {:induction false} SameStoreAlone(cfg: Settings, s: Sys, s': Sys, es: seq<Happening>)
    requires Disconnected(s.point) && Disconnected(s'.point) && s'.server == s.server
    ensures EnvironmentAlone(cfg, s', es) == EnvironmentAlone(cfg, s, es)
    decreases |es|
  {
    if es != [] {
      if IsEnvironment(es[0]) {
        SameStoreAlone(cfg, Environment(cfg, s, es[0]), Environment(cfg, s', es[0]), es[1..]);
      } else {
        SameStoreAlone(cfg, s, s', es[1..]);
      }
    }
  }

  /** After any failed answer, an error in IDLE included, the daemon does nothing until it
      has connected again: no fetch, no execution, no mail, and only the environment
      changes the mailboxes. */
  lemma FailureEndsSession(cfg: Settings, s: Sys, e: Happening, es: seq<Happening>)
    requires Failing(e) && Fits(s, e) && NoConnect(es)
    ensures var f, s1 := After(cfg, Next(cfg, s, e), es), Next(cfg, s, e);
            && Disconnected(f.point) && f.sent == s.sent && f.hist.oks == s.hist.oks
            && f.hist.batches == s1.hist.batches && f.server == EnvironmentAlone(cfg, s1, es)
  {
    FailureDisconnects(cfg, s, e);
    StaysDisconnected(cfg, Next(cfg, s, e), es);
    FailureCounts(cfg, s, e);
  }

  lemma FailureCounts(cfg: Settings, s: Sys, e: Happening)
    requires Failing(e) && Fits(s, e)
    ensures Next(cfg, s, e).hist.oks == s.hist.oks
  {
  }

  // ---------- a delay before each reconnect ----------

  /** Attempts to connect that were answered. */
  function Attempts(cfg: Settings, s: Sys, es: seq<Happening>): nat
    decreases |es|
  {
    if es == [] then 0
    else (if es[0].Connected? && Fits(s, es[0]) then 1 else 0) + Attempts(cfg, Next(cfg, s, es[0]), es[1..])
  }

  /** Delays that were waited out, and processes that were started. */
  function Waits(cfg: Settings, s: Sys, es: seq<Happening>): nat
    decreases |es|
  {
    if es == [] then 0
    else
      (if (es[0].SleepOver? && Fits(s, es[0])) || (es[0].Launch? && !Alive(s)) then 1 else 0) +
      Waits(cfg, Next(cfg, s, es[0]), es[1..])
  }

  function Ready(p: Point): nat {
    if p.Connecting? then 1 else 0
  }

  lemma NextSpends(cfg: Settings, s: Sys, e: Happening)
    ensures (if e.Connected? && Fits(s, e) then 1 else 0) + Ready(Next(cfg, s, e).point) <=
            Ready(s.point) + if (e.SleepOver? && Fits(s, e)) || (e.Launch? && !Alive(s)) then 1 else 0
  {
    if e.Process? && Fits(s, e) { ProcessedShape(cfg, s, RunAt(cfg, s, e.time), e.fates); }
  }

  /** In every run each attempt to connect, the first of a process apart, comes after a
      delay that was waited out. */
  lemma {:induction false} DelayBeforeReconnect(cfg: Settings, s: Sys, es: seq<Happening>)
    ensures Attempts(cfg, s, es) + Ready(After(cfg, s, es).point) <= Waits(cfg, s, es) + Ready(s.point)
    decreases |es|
  {
    if es != [] {
      NextSpends(cfg, s, es[0]);
      DelayBeforeReconnect(cfg, Next(cfg, s, es[0]), es[1..]);
    }
  }
}
