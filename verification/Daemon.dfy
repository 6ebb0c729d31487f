/** The daemon's loops: supervisor, session and batch, driven by a finite schedule.

    The schedule lists what happens, in order: what the environment does and what the
    daemon is told at each await. The ghost `sys` follows the state machine of module
    Protocol, and every method keeps the loops in step with it: running the rest of the
    schedule from `sys` always leads to the same state. */
module Daemon {
  import opened Prelude
  import opened MailStore
  import opened Types
  import opened Commands
  import opened ImapClient
  import opened ActionExecutor
  import opened SieveEngine
  import opened StateStore
  import opened ScriptLoader
  import opened BackoffDelay
  import opened Protocol

  /** How a loop ended: it returned, or the schedule ran out while it waited. */
  datatype Ran = Returned(result: Outcome<CoreError>) | Suspended

  datatype BatchRan = BatchDone(results: seq<ProcessingResult>) | BatchFailed(error: CoreError) | BatchSuspended

  datatype TurnRan =
    | TurnDone(result: ProcessingResult)
    | TurnStops(result: ProcessingResult)
    | TurnFailed(error: CoreError)
    | TurnSuspended

  /** What the daemon waits for. */
  datatype Wait = ForConnect | ForSleep | ForCapability | ForSelect | ForDisk | ForFetch | ForMessage | ForIdle

  /** The answers it takes there; a pending notification is polled first. */
  predicate Suits(w: Wait, permit: bool, e: Happening) {
    match w
    case ForConnect => if permit then e.ShutdownSeen? else e.Connected?
    case ForSleep => e.SleepOver? || (permit && e.ShutdownSeen?)
    case ForCapability => e.CapabilityReply?
    case ForSelect => e.SelectReply?
    case ForDisk => e.Persisted?
    case ForFetch => e.FetchReply?
    case ForMessage => e.Process?
    case ForIdle => if permit then e.ShutdownSeen? else e.IdleReply?
  }

  ghost predicate WaitsFor(p: Point, w: Wait) {
    match p
    case Down => false
    case Exited(_) => false
    case Connecting => w == ForConnect
    case Sleeping => w == ForSleep
    case AwaitingCapability => w == ForCapability
    case Selecting(_) => w == ForSelect
    case Adopting(_, _) => w == ForDisk
    case Seeding(_) => w == ForDisk
    case Committing(_, b, _) => w == ForDisk && b.done < |b.queue|
    case AwaitingFetch(_) => w == ForFetch
    case InBatch(_, b) => w == ForMessage && b.done < |b.queue|
    case Idling(_) => w == ForIdle
  }

  class Daemon {
    const cfg: Settings
    const endpoints: Endpoints
    const store: Store
    const handle: ScriptHandle
    const loader: Loader
    const backoff: Backoff
    var permit: bool
    var schedule: seq<Happening>
    ghost var sys: Sys

    /** Loops and machine agree. Between an error and the supervisor's reaction to it,
        one delay is still owed and the connection is yet to be dropped. */
    ghost predicate Valid(owed: bool)
      reads this, endpoints, store, handle, backoff
    {
      && endpoints.mailbox == cfg.mailbox && loader.handle == handle && handle.Valid()
      && sys.server == endpoints.server && sys.sent == endpoints.sent
      && sys.mem == store.state && sys.file == store.disk.file
      && sys.script == handle.current && sys.permit == permit
      && sys.attempt == (if owed then Min(backoff.attempt + 1, U32_MAX) else backoff.attempt)
      && (!owed && Alive(sys) ==> endpoints.selected == HasSelected(sys.point))
      && (forall i :: 0 <= i < |schedule| ==> !schedule[i].Crash? && !schedule[i].Launch?)
    }

    /** Where the machine will be when the schedule is over. */
    ghost function Goal(): Sys
      reads this
    {
      After(cfg, sys, schedule)
    }

    /** Starts a process on the state file found, with a script that has compiled. */
    constructor (cfg: Settings, server: Server, sent: seq<OutgoingMail>, file: Option<State>, script: CompiledScript,
                 delays: Config, schedule: seq<Happening>, ghost sys: Sys)
      requires forall i :: 0 <= i < |schedule| ==> !schedule[i].Crash? && !schedule[i].Launch?
      requires sys.point.Connecting? && !sys.permit && sys.attempt == 0 && sys.script == script
      requires sys.server == server && sys.sent == sent && sys.file == file && sys.mem == Durable(sys)
      ensures Valid(false) && this.cfg == cfg && this.schedule == schedule && this.sys == sys
      ensures fresh(endpoints) && fresh(store) && fresh(handle) && fresh(backoff)
    {
      this.cfg := cfg;
      this.schedule := schedule;
      this.permit := false;
      this.sys := sys;
      var h := new ScriptHandle(script);
      handle := h;
      loader := new Loader(h);
      endpoints := new Endpoints(cfg.mailbox, server, sent);
      store := new Store.Open(Disk(file, None));
      backoff := new Backoff(delays);
    }

    /** Something the environment does while the daemon waits. */
    method Background(e: Happening)
      requires Valid(false) && Alive(sys) && IsEnvironment(e)
      modifies this`permit, this`sys, endpoints`server, handle
      ensures Valid(false) && sys == Next(cfg, old(sys), e)
      ensures sys.point == old(sys.point) && sys.hist.results == old(sys).hist.results
    {
      var server := endpoints.server;
      match e {
        case Deliver(b, content, flags) =>
          if b in server && HasRoom(server[b]) {
            endpoints.server := server[b := Append(server[b], content, flags)];
          }
        case RemoveMessage(b, u) =>
          if b in server { endpoints.server := server[b := Drop(server[b], u)]; }
        case ChangeFlags(b, u, flags) =>
          if b in server { endpoints.server := server[b := StoreFlags(server[b], u, Set, flags)]; }
        case Recreate(v) =>
          if cfg.mailbox in server && server[cfg.mailbox].uidvalidity < v && !endpoints.selected {
            endpoints.server := server[cfg.mailbox := Mailbox(map[], 1, v, 0)];
          }
        case Notify =>
          permit := true;
        case Reload(text, compiles) =>
          var reloaded := loader.Reload(text, compiles);
      }
      sys := Next(cfg, sys, e);
    }

    /** Waits for the next answer that fits; what comes before it is the environment's. */
    method Await(w: Wait) returns (e: Option<Happening>)
      requires Valid(false) && WaitsFor(sys.point, w)
      modifies this`permit, this`schedule, this`sys, endpoints`server, handle
      ensures Valid(false) && sys.point == old(sys.point) && sys.hist.results == old(sys.hist.results)
      ensures e.None? ==> schedule == [] && Goal() == old(Goal())
      ensures e.Some? ==> Suits(w, permit, e.value) && Fits(sys, e.value)
      ensures e.Some? ==> After(cfg, Next(cfg, sys, e.value), schedule) == old(Goal())
      ensures e.Some? ==> |schedule| < |old(schedule)|
    {
      while schedule != []
        invariant Valid(false) && sys.point == old(sys.point) && sys.hist.results == old(sys.hist.results)
        invariant Goal() == old(Goal()) && |schedule| <= |old(schedule)|
        decreases |schedule|
      {
        var next := schedule[0];
        assert !next.Crash? && !next.Launch?;
        Consume(cfg, sys, schedule);
        schedule := schedule[1..];
        if IsEnvironment(next) {
          Background(next);
        } else {
          Ignore(cfg, sys, w, next);
          if Suits(w, permit, next) { return Some(next); }
        }
      }
      e := None;
    }

    // ---------- one batch ----------

    /** Executes the actions for one message on the wire. */
    method Perform(caps: Capabilities, ctx: MessageContext, actions: seq<SieveAction>, fates: seq<Fate>)
      returns (answer: Outcome<CoreError>)
      modifies endpoints`server, endpoints`sent, endpoints`fates, endpoints`log
      ensures var (w, r) := Executed(World(old(endpoints.server), old(endpoints.sent), fates, []),
                                     endpoints.mailbox, caps, cfg.smtp, ctx, actions);
              endpoints.server == w.server && endpoints.sent == w.sent && answer == r
    {
      endpoints.Begin(fates);
      var executor := new Executor(endpoints, cfg.smtp, caps);
      answer := executor.Execute(ctx, actions);
    }

    /** Evaluates and executes the head of the batch and, if all went well, moves the
        counter in memory. */
    method ProcessHead(script: CompiledScript, caps: Capabilities, ctx: MessageContext, time: nat, fates: seq<Fate>)
      returns (actions: seq<SieveAction>, status: ProcessingStatus)
      requires Valid(false) && sys.point.InBatch? && sys.point.batch.done < |sys.point.batch.queue|
      requires caps == sys.point.session.caps && ctx == sys.point.batch.queue[sys.point.batch.done]
      requires script == sys.point.batch.script
      modifies this`sys, endpoints`server, endpoints`sent, endpoints`fates, endpoints`log, store`state
      ensures Valid(false) && sys == Next(cfg, old(sys), Process(time, fates))
      ensures status.Processed? ==> sys.point == Committing(old(sys).point.session, old(sys).point.batch, actions)
      ensures !status.Processed? ==> sys.point == Idling(old(sys).point.session)
      ensures sys.hist.results == old(sys).hist.results +
              (if status.Processed? then [] else [ProcessingResult(ctx.uid, actions, status)])
    {
      var evaluated := Evaluate(ctx, cfg.runtime(script, ctx.content, time));
      if evaluated.Failure? {
        UnevaluatedStep(cfg, sys, time, fates);
        sys := Next(cfg, sys, Process(time, fates));
        return [Keep], SieveError(evaluated.error);
      }
      actions := evaluated.value;
      status := Apply(caps, ctx, actions, time, fates);
    }

    /** Executes the actions of the head and, if that went well, moves the counter. */
    method Apply(caps: Capabilities, ctx: MessageContext, actions: seq<SieveAction>, ghost time: nat, fates: seq<Fate>)
      returns (status: ProcessingStatus)
      requires Valid(false) && sys.point.InBatch? && sys.point.batch.done < |sys.point.batch.queue|
      requires caps == sys.point.session.caps && ctx == sys.point.batch.queue[sys.point.batch.done]
      requires Evaluation(ctx.content, RunAt(cfg, sys, time)) == Success(actions)
      modifies this`sys, endpoints`server, endpoints`sent, endpoints`fates, endpoints`log, store`state
      ensures Valid(false) && sys == Next(cfg, old(sys), Process(time, fates))
      ensures status.Processed? ==> sys.point == Committing(old(sys).point.session, old(sys).point.batch, actions)
      ensures !status.Processed? ==> sys.point == Idling(old(sys).point.session)
      ensures sys.hist.results == old(sys).hist.results +
              (if status.Processed? then [] else [ProcessingResult(ctx.uid, actions, status)])
    {
      EvaluatedStep(cfg, sys, time, fates);
      var answer := Perform(caps, ctx, actions, fates);
      sys := Next(cfg, sys, Process(time, fates));
      if answer.Fail? {
        return ActionError(answer.error);
      }
      store.Mutate((m: State) =>
        m.(lastSeenUid := Some(Max(ctx.uid, if m.lastSeenUid.Some? then m.lastSeenUid.value else 0))));
      status := Processed;
    }

    /** The disk's answer to an update whose new state is already in memory. */
    method FinishUpdate(ok: bool) returns (r: Outcome<CoreError>)
      modifies store`disk
      ensures r.Pass? == ok && (r.Fail? ==> r.error.StateFailure?)
      ensures store.disk.file == if ok then Some(store.state) else old(store.disk.file)
    {
      r := store.Persist(if ok then PERSIST_STEPS else 0);
    }

    /** The start of `run_batch`: the range to fetch, and the fetch cut to the batch size. */
    method FetchPending(caps: Capabilities, ok: bool) returns (r: Result<seq<MessageContext>, CoreError>)
      requires Valid(false) && sys.point.AwaitingFetch? && caps == sys.point.session.caps
      modifies this`sys
      ensures sys == Next(cfg, old(sys), FetchReply(ok)) && sys.hist.results == old(sys).hist.results
      ensures r.Failure? ==> Valid(true) && sys.point.Sleeping? && !r.error.UidValidityChanged?
      ensures r.Success? ==> Valid(false) && AtMessage(sys.point, old(sys).point.session, handle.current, r.value, 0)
    {
      var lastSeen := store.state.lastSeenUid;
      sys := Next(cfg, sys, FetchReply(ok));
      if lastSeen.None? {
        return Failure(Imap("last_seen_uid not initialized"));
      }
      var start := lastSeen.value + 1;
      var changedSince := if caps.condstore then store.state.highestmodseq else None;
      if !ok {
        return Failure(Imap("fetch failed"));
      }
      var messages := endpoints.FetchUidRange(start, changedSince);
      r := Success(Truncate(messages, cfg.batchSize));
    }

    /** Persists the counter after a message that went well. */
    method SaveCounter(ok: bool) returns (r: Outcome<CoreError>)
      requires Valid(false) && sys.point.Committing? && sys.point.batch.done < |sys.point.batch.queue|
      modifies this`sys, store`disk
      ensures sys == Next(cfg, old(sys), Persisted(ok))
      ensures r.Fail? ==> Valid(true) && sys.point.Sleeping? && !r.error.UidValidityChanged?
      ensures r.Pass? ==>
                var p := old(sys).point;
                && Valid(false)
                && AtMessage(sys.point, p.session, p.batch.script, p.batch.queue, p.batch.done + 1)
                && sys.hist.results == old(sys).hist.results +
                                       [ProcessingResult(p.batch.queue[p.batch.done].uid, p.actions, Processed)]
    {
      sys := Next(cfg, sys, Persisted(ok));
      r := FinishUpdate(ok);
    }

    /** Waits for the disk, and saves the counter. */
    method AwaitSaved() returns (r: Option<Outcome<CoreError>>)
      requires Valid(false) && sys.point.Committing? && sys.point.batch.done < |sys.point.batch.queue|
      modifies this`permit, this`schedule, this`sys, endpoints`server, store`disk, handle
      ensures Goal() == old(Goal()) && |schedule| <= |old(schedule)|
      ensures r.None? ==> Valid(false) && schedule == []
      ensures r.Some? && r.value.Fail? ==> Valid(true) && sys.point.Sleeping? && !r.value.error.UidValidityChanged?
      ensures r.Some? && r.value.Pass? ==>
                var p := old(sys).point;
                && Valid(false)
                && AtMessage(sys.point, p.session, p.batch.script, p.batch.queue, p.batch.done + 1)
                && sys.hist.results == old(sys).hist.results +
                                       [ProcessingResult(p.batch.queue[p.batch.done].uid, p.actions, Processed)]
    {
      var e := Await(ForDisk);
      if e.None? { return None; }
      var saved := SaveCounter(e.value.ok);
      r := Some(saved);
    }

    /** One turn of the batch loop: evaluate, execute, save. */
    method Turn(script: CompiledScript, caps: Capabilities, ghost session: Session, messages: seq<MessageContext>,
                i: nat)
      returns (r: TurnRan)
      requires Valid(false) && i < |messages| && AtMessage(sys.point, session, script, messages, i)
      requires caps == session.caps
      modifies this`permit, this`schedule, this`sys, endpoints`server, endpoints`sent, endpoints`fates, endpoints`log,
               store, handle
      ensures Goal() == old(Goal()) && |schedule| <= |old(schedule)|
      ensures r.TurnSuspended? ==> Valid(false) && schedule == []
      ensures r.TurnFailed? ==> Valid(true) && sys.point.Sleeping? && !r.error.UidValidityChanged?
      ensures r.TurnStops? ==> Valid(false) && sys.point == Idling(session) && |schedule| < |old(schedule)|
      ensures r.TurnDone? ==>
              Valid(false) && AtMessage(sys.point, session, script, messages, i + 1) && |schedule| < |old(schedule)|
      ensures r.TurnDone? || r.TurnStops? ==> sys.hist.results == old(sys).hist.results + [r.result]
    {
      var ctx := messages[i];
      var e := Await(ForMessage);
      if e.None? { return TurnSuspended; }
      var actions, status := ProcessHead(script, caps, ctx, e.value.time, e.value.fates);
      if !status.Processed? {
        return TurnStops(ProcessingResult(ctx.uid, actions, status));
      }
      var saved := AwaitSaved();
      if saved.None? { return TurnSuspended; }
      if saved.value.Fail? { return TurnFailed(saved.value.error); }
      r := TurnDone(ProcessingResult(ctx.uid, actions, status));
    }

    /** Waits for the server, and fetches; `None` when the schedule ran out. */
    method AwaitFetched(caps: Capabilities) returns (r: Option<Result<seq<MessageContext>, CoreError>>)
      requires Valid(false) && sys.point.AwaitingFetch? && caps == sys.point.session.caps
      modifies this`permit, this`schedule, this`sys, endpoints`server, handle
      ensures Goal() == old(Goal()) && |schedule| <= |old(schedule)| && sys.hist.results == old(sys).hist.results
      ensures r.None? ==> Valid(false) && schedule == []
      ensures r.Some? && r.value.Failure? ==> Valid(true) && sys.point.Sleeping? && !r.value.error.UidValidityChanged?
      ensures r.Some? && r.value.Success? ==>
                && Valid(false) && |schedule| < |old(schedule)|
                && AtMessage(sys.point, old(sys).point.session, handle.current, r.value.value, 0)
    {
      var e := Await(ForFetch);
      if e.None? { return None; }
      var fetched := FetchPending(caps, e.value.ok);
      r := Some(fetched);
    }

    /** Fetches all messages newer than the counter and processes up to a batch of them,
        stopping at the first that fails. */
    method RunBatch(caps: Capabilities) returns (r: BatchRan)
      requires Valid(false) && sys.point.AwaitingFetch? && caps == sys.point.session.caps
      modifies this`permit, this`schedule, this`sys, endpoints`server, endpoints`sent, endpoints`fates, endpoints`log,
               store, handle
      ensures Goal() == old(Goal()) && |schedule| <= |old(schedule)|
      ensures r.BatchSuspended? ==> Valid(false) && schedule == []
      ensures r.BatchDone? ==>
                && Valid(false) && sys.point == Idling(old(sys).point.session)
                && sys.hist.results == old(sys).hist.results + r.results
                && |schedule| < |old(schedule)|
      ensures r.BatchFailed? ==> Valid(true) && sys.point.Sleeping? && !r.error.UidValidityChanged?
    {
      ghost var session := sys.point.session;
      var fetched := AwaitFetched(caps);
      if fetched.None? { return BatchSuspended; }
      if fetched.value.Failure? { return BatchFailed(fetched.value.error); }
      var messages := fetched.value.value;
      var script := handle.current;
      var results: seq<ProcessingResult> := [];
      var i := 0;
      while i < |messages|
        invariant 0 <= i <= |messages|
        invariant Valid(false) && Goal() == old(Goal()) && |schedule| < |old(schedule)|
        invariant AtMessage(sys.point, session, script, messages, i)
        invariant sys.hist.results == old(sys).hist.results + results
      {
        var turn := Turn(script, caps, session, messages, i);
        match turn {
          case TurnSuspended => return BatchSuspended;
          case TurnFailed(error) => return BatchFailed(error);
          case TurnStops(result) => return BatchDone(results + [result]);
          case TurnDone(result) => results := results + [result];
        }
        i := i + 1;
      }
      r := BatchDone(results);
    }

    // ---------- one session ----------

    /** An error that ends the session: the supervisor will back off and reconnect. */
    ghost predicate SessionLost(r: Ran)
      reads this, endpoints, store, handle, backoff
    {
      r.Returned? && r.result.Fail? && !r.result.error.UidValidityChanged? && Valid(true) && sys.point.Sleeping?
    }

    /** The supervisor returns what the session returned. */
    ghost predicate Over(r: Ran)
      reads this, endpoints, store, handle, backoff
    {
      && r.Returned? && Valid(false) && sys.point == Exited(r.result)
      && (r.result.Fail? ==> r.result.error.UidValidityChanged?)
    }

    /** SELECT, and the check of UIDVALIDITY; then the new state is in memory. */
    method SelectMailbox(caps: Capabilities) returns (r: Ran, status: MailboxStatus, selected: bool)
      requires Valid(false) && sys.point == Selecting(caps)
      modifies this`permit, this`schedule, this`sys, endpoints`server, endpoints`selected, store`state, handle
      ensures Goal() == old(Goal()) && |schedule| <= |old(schedule)|
      ensures selected ==>
                && Valid(false) && sys.point.Adopting? && sys.point.session.caps == caps
                && status.uidnext == sys.point.uidnext
      ensures !selected ==> (r.Suspended? && Valid(false) && schedule == []) || SessionLost(r) || Over(r)
    {
      status := MailboxStatus(0, 0, None);
      var e := Await(ForSelect);
      if e.None? { return Suspended, status, false; }
      if !e.value.ok {
        sys := Next(cfg, sys, e.value);
        return Returned(Fail(Imap("select failed"))), status, false;
      }
      r, status, selected := Adopt(caps, e.value.tellsUidNext, e.value.tellsModseq);
    }

    /** What the server reports is compared with what is cached, and taken over. */
    method Adopt(caps: Capabilities, tellsUidNext: bool, tellsModseq: bool)
      returns (r: Ran, status: MailboxStatus, selected: bool)
      requires Valid(false) && sys.point == Selecting(caps)
      modifies this`sys, endpoints`selected, store`state
      ensures sys == Next(cfg, old(sys), SelectReply(true, tellsUidNext, tellsModseq))
      ensures selected ==>
                && Valid(false) && sys.point.Adopting? && sys.point.session.caps == caps
                && status.uidnext == sys.point.uidnext
      ensures !selected ==> Over(r)
    {
      sys := Next(cfg, sys, SelectReply(true, tellsUidNext, tellsModseq));
      status := endpoints.Select(tellsUidNext, tellsModseq);
      var cached := store.state.uidvalidity;
      if cached.Some? && cached.value != status.uidvalidity {
        return Returned(Fail(UidValidityChanged(cached.value, status.uidvalidity))), status, false;
      }
      var mailbox, answer := cfg.mailbox, status;
      store.Mutate((m: State) =>
        State(Some(mailbox), Some(answer.uidvalidity), m.lastSeenUid,
              if answer.highestmodseq.Some? then answer.highestmodseq else m.highestmodseq));
      return Suspended, status, true;
    }

    /** Persists the adopted state; on first run, takes the counter from UIDNEXT. */
    method SaveAdopted(status: MailboxStatus) returns (r: Ran, going: bool, seeding: bool)
      requires Valid(false) && sys.point.Adopting? && status.uidnext == sys.point.uidnext
      modifies this`permit, this`schedule, this`sys, endpoints`server, store, handle
      ensures Goal() == old(Goal()) && |schedule| <= |old(schedule)|
      ensures going ==>
                && Valid(false)
                && sys.point ==
                   if seeding then Seeding(old(sys).point.session) else AwaitingFetch(old(sys).point.session)
      ensures !going ==> (r.Suspended? && Valid(false) && schedule == []) || SessionLost(r)
    {
      var e := Await(ForDisk);
      if e.None? { return Suspended, false, false; }
      sys := Next(cfg, sys, e.value);
      var saved := FinishUpdate(e.value.ok);
      if saved.Fail? { return Returned(saved), false, false; }
      seeding := store.state.lastSeenUid.None?;
      if seeding {
        var seed := if status.uidnext == 0 then 0 else status.uidnext - 1;
        store.Mutate((m: State) => m.(lastSeenUid := Some(seed)));
      }
      return Suspended, true, seeding;
    }

    /** Persists the counter taken from UIDNEXT. */
    method SaveSeed() returns (r: Ran, seeded: bool)
      requires Valid(false) && sys.point.Seeding?
      modifies this`permit, this`schedule, this`sys, endpoints`server, store`disk, handle
      ensures Goal() == old(Goal()) && |schedule| <= |old(schedule)|
      ensures seeded ==> Valid(false) && sys.point == AwaitingFetch(old(sys).point.session)
      ensures !seeded ==> (r.Suspended? && Valid(false) && schedule == []) || SessionLost(r)
    {
      var e := Await(ForDisk);
      if e.None? { return Suspended, false; }
      sys := Next(cfg, sys, e.value);
      var saved := FinishUpdate(e.value.ok);
      if saved.Fail? { return Returned(saved), false; }
      return Suspended, true;
    }

    /** Persists the adopted state and, on first run, seeds the counter from UIDNEXT. */
    method SeedCounter(caps: Capabilities, status: MailboxStatus) returns (r: Ran, seeded: bool)
      requires Valid(false) && sys.point.Adopting? && sys.point.session.caps == caps
      requires status.uidnext == sys.point.uidnext
      modifies this`permit, this`schedule, this`sys, endpoints`server, store, handle
      ensures Goal() == old(Goal()) && |schedule| <= |old(schedule)|
      ensures seeded ==> Valid(false) && sys.point.AwaitingFetch? && sys.point.session.caps == caps
      ensures !seeded ==> (r.Suspended? && Valid(false) && schedule == []) || SessionLost(r)
    {
      var seeding;
      r, seeded, seeding := SaveAdopted(status);
      if seeded && seeding {
        r, seeded := SaveSeed();
      }
    }

    /** One batch of pending mail; `going` when the session goes on. */
    method ProcessPending(caps: Capabilities) returns (r: Ran, going: bool)
      requires Valid(false) && sys.point.AwaitingFetch? && sys.point.session.caps == caps
      modifies this`permit, this`schedule, this`sys, endpoints`server, endpoints`sent, endpoints`fates, endpoints`log,
               store, handle
      ensures Goal() == old(Goal()) && |schedule| <= |old(schedule)|
      ensures going ==> Valid(false) && sys.point.Idling? && sys.point.session.caps == caps
      ensures !going ==> (r.Suspended? && Valid(false) && schedule == []) || SessionLost(r)
    {
      var batch := RunBatch(caps);
      match batch {
        case BatchSuspended => return Suspended, false;
        case BatchFailed(error) => return Returned(Fail(error)), false;
        case BatchDone(_) => return Suspended, true;
      }
    }

    /** Waits for new mail, the keepalive interval, shutdown or an error. */
    method AwaitWork() returns (r: Ran, going: bool)
      requires Valid(false) && sys.point.Idling?
      modifies this`permit, this`schedule, this`sys, endpoints`server, handle
      ensures Goal() == old(Goal()) && |schedule| <= |old(schedule)|
      ensures going ==>
                && Valid(false) && sys.point == AwaitingFetch(old(sys).point.session)
                && |schedule| < |old(schedule)|
      ensures !going ==> (r.Suspended? && Valid(false) && schedule == []) || SessionLost(r) || Over(r)
    {
      var e := Await(ForIdle);
      if e.None? { return Suspended, false; }
      sys := Next(cfg, sys, e.value);
      if e.value.ShutdownSeen? {
        permit := false;
        return Returned(Pass), false;
      }
      match e.value.event {
        case Exists => return Suspended, true;
        case Interrupted => return Suspended, true;
        case Disconnected => return Returned(Fail(Imap("connection lost during IDLE"))), false;
        case IdleError => return Returned(Fail(Imap("idle failed"))), false;
      }
    }

    /** Drains what is pending, then waits and processes in turn, until shutdown or an error. */
    method IdleLoop(caps: Capabilities) returns (r: Ran)
      requires Valid(false) && sys.point.AwaitingFetch? && sys.point.session.caps == caps
      modifies this`permit, this`schedule, this`sys, endpoints`server, endpoints`sent, endpoints`fates, endpoints`log,
               store, handle
      ensures Goal() == old(Goal()) && |schedule| <= |old(schedule)|
      ensures (r.Suspended? && Valid(false) && schedule == []) || SessionLost(r) || Over(r)
    {
      var going;
      r, going := ProcessPending(caps);
      while going
        invariant Goal() == old(Goal()) && |schedule| <= |old(schedule)|
        invariant going ==> Valid(false) && sys.point.Idling? && sys.point.session.caps == caps
        invariant !going ==> (r.Suspended? && Valid(false) && schedule == []) || SessionLost(r) || Over(r)
        decreases going, |schedule|
      {
        r, going := AwaitWork();
        if going {
          r, going := ProcessPending(caps);
        }
      }
    }

    /** One session, from CAPABILITY to its end. */
    method RunSession() returns (r: Ran)
      requires Valid(false) && sys.point.AwaitingCapability?
      modifies this`permit, this`schedule, this`sys, endpoints, store, handle
      ensures Goal() == old(Goal()) && |schedule| <= |old(schedule)|
      ensures (r.Suspended? && Valid(false) && schedule == []) || SessionLost(r) || Over(r)
    {
      var e := Await(ForCapability);
      if e.None? { return Suspended; }
      sys := Next(cfg, sys, e.value);
      if e.value.caps.None? { return Returned(Fail(Imap("capability failed"))); }
      var caps := e.value.caps.value;
      if !caps.idle { return Returned(Fail(MissingCapability("IDLE"))); }
      var status, going;
      r, status, going := SelectMailbox(caps);
      if !going { return; }
      r, going := SeedCounter(caps, status);
      if !going { return; }
      r := IdleLoop(caps);
    }

    // ---------- the supervisor ----------

    /** The wait before a reconnect; a draw of the jitter sets its length. */
    method SleepBackoff(jitter: real) returns (r: Ran, over: bool)
      requires Valid(true) && sys.point.Sleeping? && ValidConfig(backoff.cfg) && 0.0 <= jitter <= backoff.cfg.jitter
      modifies this`permit, this`schedule, this`sys, endpoints`server, endpoints`selected, handle, backoff
      ensures Goal() == old(Goal()) && |schedule| <= |old(schedule)|
      ensures over ==> (r.Suspended? && Valid(false) && schedule == []) || Over(r)
      ensures !over ==> Valid(false) && sys.point.Connecting? && |schedule| < |old(schedule)|
    {
      var delay := backoff.NextDelay(jitter);
      endpoints.Disconnect();
      var e := Await(ForSleep);
      if e.None? { return Suspended, true; }
      sys := Next(cfg, sys, e.value);
      if e.value.ShutdownSeen? {
        permit := false;
        return Returned(Pass), true;
      }
      return Suspended, false;
    }

    /** Connect, run a session, back off, reconnect: until shutdown or a changed
        UIDVALIDITY. What the loops do is what the state machine does on the same schedule. */
    method Supervise(draws: nat -> real) returns (r: Ran)
      requires Valid(false) && sys.point.Connecting? && ValidConfig(backoff.cfg)
      requires forall n: nat :: 0.0 <= draws(n) <= backoff.cfg.jitter
      modifies this`permit, this`schedule, this`sys, endpoints, store, handle, backoff
      ensures Goal() == old(Goal())
      ensures r.Suspended? ==>
                && sys == After(cfg, old(sys), old(schedule))
                && endpoints.server == sys.server && endpoints.sent == sys.sent
                && store.state == sys.mem && store.disk.file == sys.file
      ensures r.Returned? ==>
                && Valid(false) && sys.point == Exited(r.result)
                && (r.result.Pass? || r.result.error.UidValidityChanged?)
    {
      var delays: nat := 0;
      while true
        invariant Valid(false) && sys.point.Connecting?
        invariant Goal() == old(Goal())
        decreases |schedule|
      {
        var e := Await(ForConnect);
        if e.None? { return Suspended; }
        sys := Next(cfg, sys, e.value);
        if e.value.ShutdownSeen? {
          permit := false;
          return Returned(Pass);
        }
        if e.value.ok {
          backoff.Reset();
          r := RunSession();
          if r.Suspended? { return; }
          if r.result.Pass? || r.result.error.UidValidityChanged? { return; }
        }
        var over;
        r, over := SleepBackoff(draws(delays));
        delays := delays + 1;
        if over { return; }
      }
    }
  }

  /** The batch loop is at message `i` of `messages`, or past the last one. */
  predicate AtMessage(p: Point, session: Session, script: CompiledScript, messages: seq<MessageContext>, i: nat) {
    if i < |messages| then
      && p.InBatch? && p.session == session && p.batch.queue == messages && p.batch.done == i
      && p.batch.script == script
    else
      p == Idling(session)
  }

  lemma Consume(cfg: Settings, s: Sys, es: seq<Happening>)
    requires es != []
    ensures After(cfg, s, es) == After(cfg, Next(cfg, s, es[0]), es[1..])
  {
  }

  /** At an await, an answer to something else changes nothing. */
  lemma Ignore(cfg: Settings, s: Sys, w: Wait, e: Happening)
    requires WaitsFor(s.point, w) && !IsEnvironment(e) && !e.Crash? && !e.Launch?
    ensures if Suits(w, s.permit, e) then Fits(s, e) else Next(cfg, s, e) == s
  {
  }

  lemma UnevaluatedStep(cfg: Settings, s: Sys, time: nat, fates: seq<Fate>)
    requires s.point.InBatch? && s.point.batch.done < |s.point.batch.queue|
    requires Evaluation(s.point.batch.queue[s.point.batch.done].content, RunAt(cfg, s, time)).Failure?
    ensures var ctx := s.point.batch.queue[s.point.batch.done];
            var error := Evaluation(ctx.content, RunAt(cfg, s, time)).error;
            var s' := Next(cfg, s, Process(time, fates));
            && s' == s.(point := Idling(s.point.session), hist := s'.hist)
            && s'.hist.results == s.hist.results + [ProcessingResult(ctx.uid, [Keep], SieveError(error))]
  {
  }

  lemma EvaluatedStep(cfg: Settings, s: Sys, time: nat, fates: seq<Fate>)
    requires s.point.InBatch? && s.point.batch.done < |s.point.batch.queue|
    requires Evaluation(s.point.batch.queue[s.point.batch.done].content, RunAt(cfg, s, time)).Success?
    ensures var actions := Evaluation(s.point.batch.queue[s.point.batch.done].content, RunAt(cfg, s, time)).value;
            EvaluatedLeads(cfg, s, Next(cfg, s, Process(time, fates)), fates, actions)
  {
    NextProcesses(cfg, s, time, fates);
    EvaluatedProcessed(cfg, s, RunAt(cfg, s, time), fates);
  }

  /** `s'` is where executing these actions for the head of the batch leads. */
  predicate EvaluatedLeads(cfg: Settings, s: Sys, s': Sys, fates: seq<Fate>, actions: seq<SieveAction>)
    requires s.point.InBatch? && s.point.batch.done < |s.point.batch.queue|
  {
    var ctx := s.point.batch.queue[s.point.batch.done];
    var (w, r) := Executed(World(s.server, s.sent, fates, []), cfg.mailbox, s.point.session.caps,
                           cfg.smtp, ctx, actions);
    var last := if s.mem.lastSeenUid.Some? then s.mem.lastSeenUid.value else 0;
    && s' == s.(server := w.server, sent := w.sent, mem := s'.mem, point := s'.point, hist := s'.hist)
    && if r.Fail? then
         && s'.mem == s.mem && s'.point == Idling(s.point.session)
         && s'.hist.results == s.hist.results + [ProcessingResult(ctx.uid, actions, ActionError(r.error))]
       else
         && s'.mem == s.mem.(lastSeenUid := Some(Max(ctx.uid, last)))
         && s'.point == Committing(s.point.session, s.point.batch, actions)
         && s'.hist.results == s.hist.results
  }

  lemma EvaluatedProcessed(cfg: Settings, s: Sys, run: RuntimeRun, fates: seq<Fate>)
    requires s.point.InBatch? && s.point.batch.done < |s.point.batch.queue|
    requires Evaluation(s.point.batch.queue[s.point.batch.done].content, run).Success?
    ensures var actions := Evaluation(s.point.batch.queue[s.point.batch.done].content, run).value;
            EvaluatedLeads(cfg, s, OnProcessed(cfg, s, run, fates), fates, actions)
  {
  }
}
