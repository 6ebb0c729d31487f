/** The whole daemon as a state machine over its awaits.

    An event is either something the environment does (mail arrives or goes, a signal,
    a script edit, a crash, a restart) or the answer to what the daemon waits for. The
    machine is total: an event that does not fit the point the daemon is at changes
    nothing, so every list of events is a run. */
module Protocol {
  import opened Prelude
  import opened MailStore
  import opened Types
  import opened Commands
  import opened ActionExecutor
  import opened SieveEngine
  import opened StateStore
  import opened ScriptLoader
  import opened Fetching
  import opened BackoffDelay

  /** What the Sieve runtime does with a script and the contents of a message, at a given
      time. It sees neither the identifier nor the flags. */
  type Runtime = (CompiledScript, Content, nat) -> RuntimeRun

  datatype Settings = Settings(mailbox: string, batchSize: nat, smtp: bool, runtime: Runtime)

  datatype IdleEvent = Exists | Interrupted | Disconnected | IdleError

  datatype Happening =
    // the environment
    | Deliver(box: string, content: Content, flags: set<string>)
    | RemoveMessage(box: string, uid: Uid)
    | ChangeFlags(box: string, uid: Uid, flags: set<string>)
    | Recreate(uidvalidity: nat)
    | Notify
    | Reload(text: Option<string>, compiles: bool)
    // the life of the process
    | Crash
    | Launch(text: Option<string>, compiles: bool)
    // answers to the daemon
    | ShutdownSeen
    | Connected(ok: bool)
    | SleepOver
    | CapabilityReply(caps: Option<Capabilities>)
    | SelectReply(ok: bool, tellsUidNext: bool, tellsModseq: bool)
    | Persisted(ok: bool)
    | FetchReply(ok: bool)
    | Process(time: nat, fates: seq<Fate>)
    | IdleReply(event: IdleEvent)

  /** What a session learned at its start. */
  datatype Session = Session(caps: Capabilities, uidvalidity: nat, modseq: Option<nat>)

  /** One call of `run_batch`: its script, its fetch, and the messages it will process. */
  datatype Batch = Batch(script: CompiledScript, snapshot: Mailbox, start: nat, since: Option<nat>,
                         queue: seq<MessageContext>, done: nat)

  /** Where the daemon is: at which await. */
  datatype Point =
    | Down
    | Exited(result: Outcome<CoreError>)
    | Connecting
    | Sleeping
    | AwaitingCapability
    | Selecting(caps: Capabilities)
    | Adopting(session: Session, uidnext: nat)
    | Seeding(session: Session)
    | AwaitingFetch(session: Session)
    | InBatch(session: Session, batch: Batch)
    | Committing(session: Session, batch: Batch, actions: seq<SieveAction>)
    | Idling(session: Session)

  /** A move of the counter from `lo` to `hi`, on the strength of this fetch. */
  datatype Advance = Advance(lo: nat, hi: nat, snapshot: Mailbox, since: Option<nat>)

  /** An execution that answered OK, in which process, out of which fetch. */
  datatype Done = Done(life: nat, uid: Uid, start: nat, snapshot: Mailbox)

  /** What the theorems speak about and the daemon itself does not keep. */
  datatype History = History(
    anchor: nat,                    // the counter as loaded or seeded
    handled: set<Uid>,              // executed OK since the anchor
    passes: seq<Advance>,              // since the anchor
    oks: seq<Done>,
    life: nat,                      // processes started
    batches: nat,                   // calls of run_batch
    sinceNotify: nat,               // ... that fetched while a notification was pending
    results: seq<ProcessingResult>)

  datatype Sys = Sys(
    server: Server,
    mem: State,
    file: Option<State>,
    point: Point,
    script: CompiledScript,
    permit: bool,
    attempt: nat,
    sent: seq<OutgoingMail>,
    hist: History)

  function Current(cfg: Settings, s: Sys): Mailbox {
    Box(s.server, cfg.mailbox)
  }

  function Durable(s: Sys): State {
    Opened(Disk(s.file, None))
  }

  // ---------- the environment ----------

  predicate IsEnvironment(e: Happening) {
    e.Deliver? || e.RemoveMessage? || e.ChangeFlags? || e.Recreate? || e.Notify? || e.Reload?
  }

  predicate Alive(s: Sys) {
    !s.point.Down? && !s.point.Exited?
  }

  /** A session has the mailbox selected; its UIDVALIDITY cannot change under it. */
  predicate HasSelected(p: Point) {
    p.Adopting? || p.Seeding? || p.AwaitingFetch? || p.InBatch? || p.Committing? || p.Idling?
  }

  function Environment(cfg: Settings, s: Sys, e: Happening): Sys
    requires IsEnvironment(e)
  {
    match e
    case Deliver(b, content, flags) =>
      if b in s.server && HasRoom(s.server[b]) then
        s.(server := s.server[b := Append(s.server[b], content, flags)])
      else s
    case RemoveMessage(b, u) =>
      if b in s.server then s.(server := s.server[b := Drop(s.server[b], u)]) else s
    case ChangeFlags(b, u, flags) =>
      if b in s.server then s.(server := s.server[b := StoreFlags(s.server[b], u, Set, flags)]) else s
    case Recreate(v) =>
      if cfg.mailbox in s.server && s.server[cfg.mailbox].uidvalidity < v && !HasSelected(s.point) then
        s.(server := s.server[cfg.mailbox := Mailbox(map[], 1, v, 0)])
      else s
    case Notify =>
      if !Alive(s) || s.permit then s
      else s.(permit := true, hist := s.hist.(sinceNotify := 0))
    case Reload(text, compiles) =>
      if Alive(s) && text.Some? && compiles then
        s.(script := CompiledScript(text.value))
      else s
  }

  function Lifecycle(s: Sys, e: Happening): Sys
    requires e.Crash? || e.Launch?
  {
    if e.Crash? then s.(point := Down, permit := false)
    else if Alive(s) then s
    else if e.text.None? || !e.compiles then s.(point := Down)
    else
      s.(mem := Durable(s), point := Connecting, script := CompiledScript(e.text.value), permit := false, attempt := 0,
         hist := s.hist.(life := s.hist.life + 1))
  }

  // ---------- the daemon ----------

  /** Whether the answer fits the await; the notification is polled first. */
  predicate Fits(s: Sys, e: Happening) {
    match e
    case ShutdownSeen => s.permit && (s.point.Connecting? || s.point.Sleeping? || s.point.Idling?)
    case Connected(_) => s.point.Connecting? && !s.permit
    case SleepOver => s.point.Sleeping?
    case CapabilityReply(_) => s.point.AwaitingCapability?
    case SelectReply(_, _, _) => s.point.Selecting?
    case Persisted(_) =>
      s.point.Adopting? || s.point.Seeding? || (s.point.Committing? && s.point.batch.done < |s.point.batch.queue|)
    case FetchReply(_) => s.point.AwaitingFetch?
    case Process(_, _) => s.point.InBatch? && s.point.batch.done < |s.point.batch.queue|
    case IdleReply(_) => s.point.Idling? && !s.permit
    case _ => false
  }

  /** A failed connect or session: sleep, then reconnect. */
  function BackOff(s: Sys): Sys {
    s.(point := Sleeping, attempt := Min(s.attempt + 1, U32_MAX))
  }

  function OnConnected(s: Sys, ok: bool): Sys {
    if ok then s.(point := AwaitingCapability, attempt := 0) else BackOff(s)
  }

  function OnCapability(s: Sys, caps: Option<Capabilities>): Sys {
    if caps.None? || !caps.value.idle then BackOff(s) else s.(point := Selecting(caps.value))
  }

  function OnSelected(cfg: Settings, s: Sys, ok: bool, tellsUidNext: bool, tellsModseq: bool): Sys
    requires s.point.Selecting?
  {
    var mb := Current(cfg, s);
    if !ok then BackOff(s)
    else if s.mem.uidvalidity.Some? && s.mem.uidvalidity.value != mb.uidvalidity then
      s.(point := Exited(Fail(UidValidityChanged(s.mem.uidvalidity.value, mb.uidvalidity))))
    else
      var modseq := if tellsModseq then Some(mb.highestmodseq) else s.mem.highestmodseq;
      s.(mem := State(Some(cfg.mailbox), Some(mb.uidvalidity), s.mem.lastSeenUid, modseq),
         point := Adopting(Session(s.point.caps, mb.uidvalidity, modseq), if tellsUidNext then mb.uidnext else 0))
  }

  function OnPersisted(s: Sys, ok: bool): Sys
    requires
      || s.point.Adopting? || s.point.Seeding?
      || (s.point.Committing? && s.point.batch.done < |s.point.batch.queue|)
  {
    if !ok then BackOff(s)
    else
      var s1 := s.(file := Some(s.mem));
      match s.point
      case Adopting(session, uidnext) =>
        if s.mem.lastSeenUid.None? then
          var seed := if uidnext == 0 then 0 else uidnext - 1;
          s1.(mem := s.mem.(lastSeenUid := Some(seed)), point := Seeding(session),
              hist := s.hist.(anchor := seed, handled := {}, passes := []))
        else s1.(point := AwaitingFetch(session))
      case Seeding(session) => s1.(point := AwaitingFetch(session))
      case Committing(session, batch, actions) =>
        var uid := batch.queue[batch.done].uid;
        AfterMessage(s1.(hist := s.hist.(results := s.hist.results + [ProcessingResult(uid, actions, Processed)])),
                     session, batch.(done := batch.done + 1))
  }

  /** The next turn of the loop of `run_batch`, or its end. */
  function AfterMessage(s: Sys, session: Session, batch: Batch): Sys {
    s.(point := if batch.done < |batch.queue| then InBatch(session, batch) else Idling(session))
  }

  /** The mark that a fetch sends: with CONDSTORE, the one in memory. */
  function SinceOf(s: Sys): Option<nat>
    requires HasSelected(s.point)
  {
    if s.point.session.caps.condstore then s.mem.highestmodseq else None
  }

  /** What a fetch would return now. */
  function NextFetch(cfg: Settings, s: Sys): seq<MessageContext>
    requires HasSelected(s.point) && s.mem.lastSeenUid.Some?
  {
    Fetched(Current(cfg, s), s.mem.lastSeenUid.value + 1, SinceOf(s))
  }

  function OnFetched(cfg: Settings, s: Sys, ok: bool): Sys
    requires s.point.AwaitingFetch?
  {
    var s1 := s.(hist := s.hist.(batches := s.hist.batches + 1,
                                 sinceNotify := s.hist.sinceNotify + if s.permit then 1 else 0));
    if !ok || s.mem.lastSeenUid.None? then BackOff(s1)
    else
      var queue := Truncate(NextFetch(cfg, s), cfg.batchSize);
      var batch := Batch(s.script, Current(cfg, s), s.mem.lastSeenUid.value + 1, SinceOf(s), queue, 0);
      AfterMessage(s1, s.point.session, batch)
  }

  /** The run of the batch's script on its next message. */
  function RunAt(cfg: Settings, s: Sys, time: nat): RuntimeRun
    requires s.point.InBatch? && s.point.batch.done < |s.point.batch.queue|
  {
    cfg.runtime(s.point.batch.script, s.point.batch.queue[s.point.batch.done].content, time)
  }

  function OnProcessed(cfg: Settings, s: Sys, run: RuntimeRun, fates: seq<Fate>): Sys
    requires s.point.InBatch? && s.point.batch.done < |s.point.batch.queue|
  {
    var b := s.point.batch;
    var ctx := b.queue[b.done];
    match Evaluation(ctx.content, run)
    case Failure(e) =>
      s.(point := Idling(s.point.session),
          hist := s.hist.(results := s.hist.results + [ProcessingResult(ctx.uid, [Keep], SieveError(e))]))
    case Success(actions) =>
      var (w, r) := Executed(World(s.server, s.sent, fates, []), cfg.mailbox, s.point.session.caps, cfg.smtp, ctx,
                             actions);
      var s2 := s.(server := w.server, sent := w.sent);
      if r.Fail? then
        s2.(point := Idling(s.point.session),
            hist := s.hist.(results := s.hist.results + [ProcessingResult(ctx.uid, actions, ActionError(r.error))]))
      else
        var last := if s.mem.lastSeenUid.Some? then s.mem.lastSeenUid.value else 0;
        s2.(mem := s.mem.(lastSeenUid := Some(Max(ctx.uid, last))),
            point := Committing(s.point.session, b, actions),
            hist := s.hist.(handled := s.hist.handled + {ctx.uid},
                             passes := s.hist.passes + [Advance(last, Max(ctx.uid, last), b.snapshot, b.since)],
                             oks := s.hist.oks + [Done(s.hist.life, ctx.uid, b.start, b.snapshot)]))
  }

  function OnIdle(s: Sys, e: IdleEvent): Sys
    requires s.point.Idling?
  {
    if e.Exists? || e.Interrupted? then s.(point := AwaitingFetch(s.point.session)) else BackOff(s)
  }

  function Answer(cfg: Settings, s: Sys, e: Happening): Sys
    requires Fits(s, e)
  {
    match e
    case ShutdownSeen => s.(point := Exited(Pass), permit := false)
    case Connected(ok) => OnConnected(s, ok)
    case SleepOver => s.(point := Connecting)
    case CapabilityReply(caps) => OnCapability(s, caps)
    case SelectReply(ok, tellsUidNext, tellsModseq) => OnSelected(cfg, s, ok, tellsUidNext, tellsModseq)
    case Persisted(ok) => OnPersisted(s, ok)
    case FetchReply(ok) => OnFetched(cfg, s, ok)
    case Process(time, fates) => OnProcessed(cfg, s, RunAt(cfg, s, time), fates)
    case IdleReply(event) => OnIdle(s, event)
  }

  function Next(cfg: Settings, s: Sys, e: Happening): Sys {
    if IsEnvironment(e) then Environment(cfg, s, e)
    else if e.Crash? || e.Launch? then Lifecycle(s, e)
    else if Fits(s, e) then Answer(cfg, s, e)
    else s
  }

  function After(cfg: Settings, s: Sys, es: seq<Happening>): Sys
    decreases |es|
  {
    if es == [] then s else After(cfg, Next(cfg, s, es[0]), es[1..])
  }

  lemma NextProcesses(cfg: Settings, s: Sys, time: nat, fates: seq<Fate>)
    requires s.point.InBatch? && s.point.batch.done < |s.point.batch.queue|
    ensures Next(cfg, s, Process(time, fates)) == OnProcessed(cfg, s, RunAt(cfg, s, time), fates)
  {
  }

  /** What processing a message leaves alone, and where it leads. */
  lemma ProcessedShape(cfg: Settings, s: Sys, run: RuntimeRun, fates: seq<Fate>)
    requires s.point.InBatch? && s.point.batch.done < |s.point.batch.queue|
    ensures var s' := OnProcessed(cfg, s, run, fates);
            && s'.file == s.file && s'.script == s.script && s'.permit == s.permit && s'.attempt == s.attempt
            && s'.mem.highestmodseq == s.mem.highestmodseq && s'.mem.uidvalidity == s.mem.uidvalidity
            && s'.hist.sinceNotify == s.hist.sinceNotify && s'.hist.batches == s.hist.batches
            && (s'.point == Idling(s.point.session) ||
                (s'.point.Committing? && s'.point.session == s.point.session && s'.point.batch == s.point.batch))
  {
  }

  lemma {:induction false} AfterConcat(cfg: Settings, s: Sys, a: seq<Happening>, b: seq<Happening>)
    ensures After(cfg, s, a + b) == After(cfg, After(cfg, s, a), b)
    decreases |a|
  {
    if a == [] {
      assert a + b == b;
    } else {
      assert (a + b)[0] == a[0] && (a + b)[1..] == a[1..] + b;
      AfterConcat(cfg, Next(cfg, s, a[0]), a[1..], b);
    }
  }
}
