/** The invariant every run keeps: state, file, session and batch fit the mailbox. */
module ProtocolSound {
  import opened Prelude
  import opened MailStore
  import opened Types
  import opened Commands
  import opened ActionExecutor
  import opened SieveEngine
  import opened StateStore
  import opened Fetching
  import opened Protocol

  /** A state that the mailbox could have given rise to: its UIDVALIDITY is not from the
      future, and if it is the present one, its counter is below UIDNEXT. */
  ghost predicate StateFits(mb: Mailbox, st: State) {
    && (st.lastSeenUid.Some? ==> st.uidvalidity.Some?)
    && (st.uidvalidity.Some? ==> st.uidvalidity.value <= mb.uidvalidity)
    && (st.lastSeenUid.Some? && st.uidvalidity == Some(mb.uidvalidity) ==> st.lastSeenUid.value < mb.uidnext)
  }

  /** Memory is level with the file or ahead of it. */
  ghost predicate Ahead(m: State, d: State) {
    NotBehind(m, d) && (d.uidvalidity.Some? ==> m.uidvalidity == d.uidvalidity)
  }

  function SessionOf(p: Point): Session
    requires HasSelected(p)
  {
    p.session
  }

  /** How far the counter has come when `n` messages of the batch are done. */
  function Reached(b: Batch, n: nat): nat
    requires n <= |b.queue| && 1 <= b.start
  {
    if n == 0 then b.start - 1 else Max(b.start - 1, b.queue[n - 1].uid)
  }

  ghost predicate BatchSound(cfg: Settings, mb: Mailbox, session: Session, b: Batch) {
    && WellFormed(b.snapshot) && Evolves(b.snapshot, mb)
    && 1 <= b.start
    && b.since == (if session.caps.condstore then session.modseq else None)
    && b.queue == Truncate(Fetched(b.snapshot, b.start, b.since), cfg.batchSize)
    && b.done < |b.queue|
  }

  ghost predicate PointSound(cfg: Settings, mb: Mailbox, p: Point, m: State) {
    && (HasSelected(p) ==>
          && SessionOf(p).uidvalidity == mb.uidvalidity
          && m.uidvalidity == Some(mb.uidvalidity)
          && m.highestmodseq == SessionOf(p).modseq)
    && (p.Adopting? ==> p.uidnext <= mb.uidnext)
    && (p.Seeding? || p.AwaitingFetch? || p.InBatch? || p.Committing? || p.Idling? ==> m.lastSeenUid.Some?)
    && (p.InBatch? ==> BatchSound(cfg, mb, p.session, p.batch) && m.lastSeenUid.value == Reached(p.batch, p.batch.done))
    && (p.Committing? ==>
        BatchSound(cfg, mb, p.session, p.batch) && m.lastSeenUid.value == Reached(p.batch, p.batch.done + 1))
  }

  ghost predicate Sound(cfg: Settings, s: Sys) {
    && cfg.mailbox in s.server
    && WellFormedServer(s.server)
    && StateFits(Current(cfg, s), s.mem)
    && StateFits(Current(cfg, s), Durable(s))
    && Ahead(s.mem, Durable(s))
    && PointSound(cfg, Current(cfg, s), s.point, s.mem)
  }

  // ---------- the environment ----------

  lemma ServerEvolutionKeepsSound(cfg: Settings, s: Sys, server: Server)
    requires Sound(cfg, s) && EvolvesServer(s.server, server)
    ensures Sound(cfg, s.(server := server))
  {
    if s.point.InBatch? || s.point.Committing? {
      EvolvesTransitive(s.point.batch.snapshot, Current(cfg, s), server[cfg.mailbox]);
    }
  }

  lemma RecreateKeepsSound(cfg: Settings, s: Sys, v: nat)
    requires Sound(cfg, s) && Current(cfg, s).uidvalidity < v && !HasSelected(s.point)
    ensures Sound(cfg, s.(server := s.server[cfg.mailbox := Mailbox(map[], 1, v, 0)]))
  {
  }

  lemma EnvironmentKeepsSound(cfg: Settings, s: Sys, e: Happening)
    requires Sound(cfg, s) && IsEnvironment(e)
    ensures Sound(cfg, Environment(cfg, s, e))
  {
    match e
    case Deliver(b, content, flags) =>
      if b in s.server && HasRoom(s.server[b]) {
        AppendEvolves(s.server[b], content, flags);
        UpdateEvolves(s.server, b, Append(s.server[b], content, flags));
        ServerEvolutionKeepsSound(cfg, s, s.server[b := Append(s.server[b], content, flags)]);
      }
    case RemoveMessage(b, u) =>
      if b in s.server {
        DropEvolves(s.server[b], u);
        UpdateEvolves(s.server, b, Drop(s.server[b], u));
        ServerEvolutionKeepsSound(cfg, s, s.server[b := Drop(s.server[b], u)]);
      }
    case ChangeFlags(b, u, flags) =>
      if b in s.server {
        StoreFlagsEvolves(s.server[b], u, Set, flags);
        UpdateEvolves(s.server, b, StoreFlags(s.server[b], u, Set, flags));
        ServerEvolutionKeepsSound(cfg, s, s.server[b := StoreFlags(s.server[b], u, Set, flags)]);
      }
    case Recreate(v) =>
      if s.server[cfg.mailbox].uidvalidity < v && !HasSelected(s.point) {
        RecreateKeepsSound(cfg, s, v);
      }
    case Notify =>
    case Reload(_, _) =>
  }

  // ---------- the daemon ----------

  /** The batch's queue: ascending, out of the snapshot, a prefix of what the fetch returned. */
  lemma QueueListed(cfg: Settings, b: Batch)
    requires b.queue == Truncate(Fetched(b.snapshot, b.start, b.since), cfg.batchSize)
    ensures b.queue <= Fetched(b.snapshot, b.start, b.since)
    ensures Ascending(b.queue)
    ensures forall i :: 0 <= i < |b.queue| ==>
              b.queue[i].uid < b.snapshot.uidnext && Matches(b.snapshot, b.since, b.queue[i].uid)
  {
    var fs := Fetched(b.snapshot, b.start, b.since);
    FetchLists(b.snapshot, b.start, b.since);
    var lo := Min(b.start, Highest(b.snapshot, b.snapshot.uidnext));
    assert forall i :: 0 <= i < |b.queue| ==>
           b.queue[i] == fs[i] && Listed(fs[i], b.snapshot, b.since, lo, b.snapshot.uidnext);
  }

  lemma SelectedKeepsSound(cfg: Settings, s: Sys, ok: bool, tellsUidNext: bool, tellsModseq: bool)
    requires Sound(cfg, s) && s.point.Selecting?
    ensures Sound(cfg, OnSelected(cfg, s, ok, tellsUidNext, tellsModseq))
  {
  }

  lemma AfterMessageKeepsSound(cfg: Settings, s: Sys)
    requires s.point.Committing? && Sound(cfg, s)
    ensures var b := s.point.batch;
            Sound(cfg, AfterMessage(s.(file := Some(s.mem)), s.point.session, b.(done := b.done + 1)))
  {
  }

  lemma PersistedKeepsSound(cfg: Settings, s: Sys, ok: bool)
    requires Sound(cfg, s) && Fits(s, Persisted(ok))
    ensures Sound(cfg, OnPersisted(s, ok))
  {
    if ok && s.point.Committing? {
      AfterMessageKeepsSound(cfg, s);
    }
  }

  lemma FetchedKeepsSound(cfg: Settings, s: Sys, ok: bool)
    requires Sound(cfg, s) && s.point.AwaitingFetch?
    ensures Sound(cfg, OnFetched(cfg, s, ok))
  {
  }

  /** Advancing past the head of the queue keeps the counter where the batch says. */
  lemma ReachedStep(cfg: Settings, b: Batch)
    requires 1 <= b.start && b.done < |b.queue|
    requires b.queue == Truncate(Fetched(b.snapshot, b.start, b.since), cfg.batchSize)
    ensures Reached(b, b.done + 1) == Max(b.queue[b.done].uid, Reached(b, b.done))
  {
    QueueListed(cfg, b);
  }

  lemma EvaluatedKeepsSound(cfg: Settings, s: Sys, actions: seq<SieveAction>, fates: seq<Fate>)
    requires Sound(cfg, s) && s.point.InBatch?
    ensures var w := World(s.server, s.sent, fates, []);
            var ctx := s.point.batch.queue[s.point.batch.done];
            Sound(cfg, s.(server := Executed(w, cfg.mailbox, s.point.session.caps, cfg.smtp, ctx, actions).0.server))
  {
    var ctx := s.point.batch.queue[s.point.batch.done];
    var w := World(s.server, s.sent, fates, []);
    RunEvolves(w, Subject(cfg.mailbox, ctx.uid), Program(s.point.session.caps, cfg.smtp, ctx, actions));
    ServerEvolutionKeepsSound(cfg, s, Executed(w, cfg.mailbox, s.point.session.caps, cfg.smtp, ctx, actions).0.server);
  }

  /** The counter in memory moves on to the message that was processed. */
  lemma CountingKeepsSound(cfg: Settings, s: Sys, actions: seq<SieveAction>)
    requires Sound(cfg, s) && s.point.InBatch?
    ensures var b := s.point.batch;
            Sound(cfg, s.(mem := s.mem.(lastSeenUid := Some(Max(b.queue[b.done].uid, s.mem.lastSeenUid.value))),
                          point := Committing(s.point.session, b, actions)))
  {
    ReachedStep(cfg, s.point.batch);
    QueueListed(cfg, s.point.batch);
  }

  lemma StoppingKeepsSound(cfg: Settings, s: Sys)
    requires Sound(cfg, s) && s.point.InBatch?
    ensures Sound(cfg, s.(point := Idling(s.point.session)))
  {
  }

  lemma ProcessedKeepsSound(cfg: Settings, s: Sys, run: RuntimeRun, fates: seq<Fate>)
    requires Sound(cfg, s) && s.point.InBatch?
    ensures Sound(cfg, OnProcessed(cfg, s, run, fates))
  {
    var ctx := s.point.batch.queue[s.point.batch.done];
    var evaluated := Evaluation(ctx.content, run);
    var s' := OnProcessed(cfg, s, run, fates);
    if evaluated.Failure? {
      StoppingKeepsSound(cfg, s);
    } else {
      var w := World(s.server, s.sent, fates, []);
      var (w', r) := Executed(w, cfg.mailbox, s.point.session.caps, cfg.smtp, ctx, evaluated.value);
      var s2 := s.(server := w'.server);
      EvaluatedKeepsSound(cfg, s, evaluated.value, fates);
      if r.Fail? {
        StoppingKeepsSound(cfg, s2);
      } else {
        CountingKeepsSound(cfg, s2, evaluated.value);
      }
    }
  }

  lemma AnswerKeepsSound(cfg: Settings, s: Sys, e: Happening)
    requires Sound(cfg, s) && Fits(s, e)
    ensures Sound(cfg, Answer(cfg, s, e))
  {
    match e
    case SelectReply(ok, n, m) => SelectedKeepsSound(cfg, s, ok, n, m);
    case Persisted(ok) => PersistedKeepsSound(cfg, s, ok);
    case FetchReply(ok) => FetchedKeepsSound(cfg, s, ok);
    case Process(time, fates) => ProcessedKeepsSound(cfg, s, RunAt(cfg, s, time), fates);
    case _ =>
  }

  lemma NextKeepsSound(cfg: Settings, s: Sys, e: Happening)
    requires Sound(cfg, s)
    ensures Sound(cfg, Next(cfg, s, e))
  {
    if IsEnvironment(e) {
      EnvironmentKeepsSound(cfg, s, e);
    } else if Fits(s, e) {
      AnswerKeepsSound(cfg, s, e);
    }
  }

  /** Every run from a sound state stays sound. */
  lemma {:induction false} AlwaysSound(cfg: Settings, s: Sys, es: seq<Happening>)
    requires Sound(cfg, s)
    ensures Sound(cfg, After(cfg, s, es))
    decreases |es|
  {
    if es != [] {
      NextKeepsSound(cfg, s, es[0]);
      AlwaysSound(cfg, Next(cfg, s, es[0]), es[1..]);
    }
  }
}
