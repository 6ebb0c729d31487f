/** The batch size does not show: draining in batches does what one big batch does. */
module Batching {
  import opened Prelude
  import opened MailStore
  import opened Types
  import opened Commands
  import opened ActionExecutor
  import opened SieveEngine
  import opened StateStore
  import opened ScriptLoader
  import opened Fetching
  import opened Conservation
  import opened Sketches
  import opened Pipeline
  import opened Protocol

  /** What processing changes, the history of the machine apart. */
  datatype Core = Core(server: Server, sent: seq<OutgoingMail>, mem: State, file: Option<State>,
                       results: seq<ProcessingResult>)

  function CoreOf(s: Sys): Core {
    Core(s.server, s.sent, s.mem, s.file, s.hist.results)
  }

  /** How one script runs on each message. */
  type Runs = MessageContext -> RuntimeRun

  /** When each message is evaluated. */
  type Times = MessageContext -> nat

  /** At these times, the script runs so on each message. */
  ghost predicate Evaluates(cfg: Settings, script: CompiledScript, at: Times, rt: Runs) {
    forall ctx: MessageContext :: cfg.runtime(script, ctx.content, at(ctx)) == rt(ctx)
  }

  /** One message without faults; `None` when evaluation or execution fails. */
  function Handled(cfg: Settings, caps: Capabilities, rt: Runs, c: Core, ctx: MessageContext): Option<Core> {
    match Evaluation(ctx.content, rt(ctx))
    case Failure(_) => None
    case Success(actions) =>
      var (w, r) := Executed(World(c.server, c.sent, [], []), cfg.mailbox, caps, cfg.smtp, ctx, actions);
      if r.Fail? then None
      else
        var last := if c.mem.lastSeenUid.Some? then c.mem.lastSeenUid.value else 0;
        var mem := c.mem.(lastSeenUid := Some(Max(ctx.uid, last)));
        Some(Core(w.server, w.sent, mem, Some(mem), c.results + [ProcessingResult(ctx.uid, actions, Processed)]))
  }

  /** How one message changes the core, if it can be handled at all. */
  type Handler = (Core, MessageContext) -> Option<Core>

  ghost predicate Implements(h: Handler, cfg: Settings, caps: Capabilities, rt: Runs) {
    forall c, ctx {:trigger Handled(cfg, caps, rt, c, ctx)} :: h(c, ctx) == Handled(cfg, caps, rt, c, ctx)
  }

  /** The handler of these settings. */
  function HandlerOf(cfg: Settings, caps: Capabilities, rt: Runs): Handler {
    (c: Core, ctx: MessageContext) => Handled(cfg, caps, rt, c, ctx)
  }

  lemma HandlerImplements(cfg: Settings, caps: Capabilities, rt: Runs)
    ensures Implements(HandlerOf(cfg, caps, rt), cfg, caps, rt)
  {
  }

  function HandledAll(h: Handler, c: Core, queue: seq<MessageContext>): Option<Core>
    decreases |queue|
  {
    if queue == [] then Some(c)
    else
      match h(c, queue[0])
      case None => None
      case Some(c1) => HandledAll(h, c1, queue[1..])
  }

  /** The answers the daemon gets while it processes these messages without faults. */
  function MessageEvents(at: Times, queue: seq<MessageContext>): seq<Happening> {
    if queue == [] then [] else [Process(at(queue[0]), []), Persisted(true)] + MessageEvents(at, queue[1..])
  }

  /** The schedule that drains `pending`: batch after batch, woken again in between. */
  function DrainEvents(at: Times, size: nat, pending: seq<MessageContext>): seq<Happening>
    requires size > 0
    decreases |pending|
  {
    if |pending| <= size then [FetchReply(true)] + MessageEvents(at, pending)
    else
      ([FetchReply(true)] + MessageEvents(at, pending[..size])) +
      ([IdleReply(Exists)] + DrainEvents(at, size, pending[size..]))
  }

  function Batches(n: nat, size: nat): nat
    requires size > 0
  {
    if n <= size then 1 else 1 + Batches(n - size, size)
  }

  /** For a positive number of messages, that is n / size, rounded up. */
  lemma {:induction false} BatchesIsCeiling(n: nat, size: nat)
    requires size > 0 && n > 0
    ensures (Batches(n, size) - 1) * size < n <= Batches(n, size) * size
  {
    if n > size { BatchesIsCeiling(n - size, size); }
  }

  // ---------- one batch ----------

  ghost predicate AtWork(s: Sys, session: Session, queue: seq<MessageContext>, i: nat) {
    if i < |queue| then
      && s.point.InBatch? && s.point.session == session && s.point.batch.queue == queue && s.point.batch.done == i
      && s.point.batch.script == s.script
    else
      s.point == Idling(session)
  }

  lemma OneMessage(cfg: Settings, s: Sys, session: Session, rt: Runs, at: Times, queue: seq<MessageContext>, i: nat)
    requires Evaluates(cfg, s.script, at, rt)
    requires i < |queue| && AtWork(s, session, queue, i)
    requires Handled(cfg, session.caps, rt, CoreOf(s), queue[i]).Some?
    ensures var s' := Next(cfg, Next(cfg, s, Process(at(queue[i]), [])), Persisted(true));
            && CoreOf(s') == Handled(cfg, session.caps, rt, CoreOf(s), queue[i]).value
            && AtWork(s', session, queue, i + 1)
            && s'.hist.batches == s.hist.batches && s'.permit == s.permit && s'.script == s.script
  {
    var s1 := Next(cfg, s, Process(at(queue[i]), []));
    assert s1.point.Committing? && s1.point.batch == s.point.batch && s1.point.session == session;
    assert s1.hist.batches == s.hist.batches && s1.permit == s.permit && s1.hist.results == s.hist.results;
  }

  lemma {:induction false} OneBatch(cfg: Settings, s: Sys, session: Session, rt: Runs, at: Times, h: Handler,
                                    queue: seq<MessageContext>, i: nat)
    requires Evaluates(cfg, s.script, at, rt)
    requires Implements(h, cfg, session.caps, rt) && i <= |queue| && AtWork(s, session, queue, i)
    requires HandledAll(h, CoreOf(s), queue[i..]).Some?
    ensures var s' := After(cfg, s, MessageEvents(at, queue[i..]));
            && CoreOf(s') == HandledAll(h, CoreOf(s), queue[i..]).value
            && s'.point == Idling(session)
            && s'.hist.batches == s.hist.batches && s'.permit == s.permit && s'.script == s.script
    decreases |queue| - i
  {
    if i < |queue| {
      var rest := MessageEvents(at, queue[i + 1..]);
      var s1 := Next(cfg, s, Process(at(queue[i]), []));
      var s2 := Next(cfg, s1, Persisted(true));
      assert queue[i..][1..] == queue[i + 1..];
      OneMessage(cfg, s, session, rt, at, queue, i);
      OneBatch(cfg, s2, session, rt, at, h, queue, i + 1);
      TwoSteps(cfg, s, Process(at(queue[i]), []), Persisted(true), rest);
    }
  }

  lemma TwoSteps(cfg: Settings, s: Sys, a: Happening, b: Happening, rest: seq<Happening>)
    ensures After(cfg, s, [a, b] + rest) == After(cfg, Next(cfg, Next(cfg, s, a), b), rest)
  {
    assert ([a, b] + rest)[1..] == [b] + rest && ([b] + rest)[1..] == rest;
  }

  lemma OneStep(cfg: Settings, s: Sys, a: Happening, rest: seq<Happening>)
    ensures After(cfg, s, [a] + rest) == After(cfg, Next(cfg, s, a), rest)
  {
    assert ([a] + rest)[1..] == rest;
  }

  lemma {:induction false} HandledAllConcat(h: Handler, c: Core, a: seq<MessageContext>, b: seq<MessageContext>)
    ensures HandledAll(h, c, a + b) ==
            match HandledAll(h, c, a) case None => None case Some(c1) => HandledAll(h, c1, b)
    decreases |a|
  {
    if a == [] {
      assert a + b == b;
    } else {
      assert (a + b)[0] == a[0] && (a + b)[1..] == a[1..] + b;
      match h(c, a[0])
      case None =>
      case Some(c1) => HandledAllConcat(h, c1, a[1..], b);
    }
  }

  // ---------- what is still pending stays as it was ----------

  /** From `lim` on, the two mailboxes hold the same messages, and nothing arrived. */
  ghost predicate SameFrom(mb: Mailbox, mb': Mailbox, lim: nat) {
    && mb'.uidnext == mb.uidnext
    && (forall u | lim <= u :: u in mb'.messages <==> u in mb.messages)
    && (forall u | lim <= u && u in mb.messages :: mb'.messages[u] == mb.messages[u])
  }

  /** No message of the queue is filed back into its own mailbox. */
  predicate FiledElsewhere(cfg: Settings, rt: Runs, queue: seq<MessageContext>) {
    forall i :: 0 <= i < |queue| ==> FiledAway(cfg, rt, queue[i])
  }

  predicate FiledAway(cfg: Settings, rt: Runs, ctx: MessageContext) {
    var e := Evaluation(ctx.content, rt(ctx));
    e.Success? ==> cfg.mailbox !in Targets(e.value)
  }

  ghost predicate Queued(mb: Mailbox, queue: seq<MessageContext>) {
    && Ascending(queue)
    && (forall i :: 0 <= i < |queue| ==> queue[i].uid in mb.messages && queue[i] == ContextOf(mb, queue[i].uid))
  }

  lemma HandledKeepsTheRest(cfg: Settings, caps: Capabilities, rt: Runs, c: Core, ctx: MessageContext)
    requires WellFormedServer(c.server) && cfg.mailbox in c.server
    requires ctx.uid in c.server[cfg.mailbox].messages && ctx == ContextOf(c.server[cfg.mailbox], ctx.uid)
    requires FiledAway(cfg, rt, ctx) && Handled(cfg, caps, rt, c, ctx).Some?
    ensures var c1 := Handled(cfg, caps, rt, c, ctx).value;
            && WellFormedServer(c1.server) && cfg.mailbox in c1.server
            && SameFrom(c.server[cfg.mailbox], c1.server[cfg.mailbox], ctx.uid + 1)
  {
    var subj := Subject(cfg.mailbox, ctx.uid);
    var w := World(c.server, c.sent, [], []);
    var actions := Evaluation(ctx.content, rt(ctx)).value;
    var m := c.server[cfg.mailbox].messages[ctx.uid];
    AgreesInitially(c.server, subj);
    ProgramFilesElsewhere(caps, cfg.smtp, ctx, actions, cfg.mailbox);
    RunAgrees(c.server, w, subj, Program(caps, cfg.smtp, ctx, actions), m.content, Sketch(true, m.flags, []));
  }

  lemma QueuedTail(mb: Mailbox, mb': Mailbox, queue: seq<MessageContext>)
    requires queue != [] && Queued(mb, queue) && SameFrom(mb, mb', queue[0].uid + 1)
    ensures Queued(mb', queue[1..])
  {
    forall i | 0 <= i < |queue[1..]|
      ensures queue[1..][i].uid in mb'.messages && queue[1..][i] == ContextOf(mb', queue[1..][i].uid)
    {
      assert queue[1..][i] == queue[i + 1] && queue[0].uid < queue[i + 1].uid;
    }
  }

  /** Handling a queue leaves everything above its last message alone, and moves the
      counter to that message. */
  lemma {:induction false} HandledAllKeepsTheRest(cfg: Settings, caps: Capabilities, rt: Runs, h: Handler, c: Core,
                                                  queue: seq<MessageContext>, lim: nat)
    requires Implements(h, cfg, caps, rt) && WellFormedServer(c.server) && cfg.mailbox in c.server
    requires Queued(c.server[cfg.mailbox], queue) && FiledElsewhere(cfg, rt, queue)
    requires queue != [] ==>
             queue[|queue| - 1].uid < lim && c.mem.lastSeenUid.Some? && c.mem.lastSeenUid.value < queue[0].uid
    requires HandledAll(h, c, queue).Some?
    ensures var c1 := HandledAll(h, c, queue).value;
            && WellFormedServer(c1.server) && cfg.mailbox in c1.server
            && SameFrom(c.server[cfg.mailbox], c1.server[cfg.mailbox], lim)
            && (queue == [] ==> c1 == c)
            && (queue != [] ==> c1.mem == c.mem.(lastSeenUid := Some(queue[|queue| - 1].uid)))
    decreases |queue|
  {
    if queue != [] {
      var c1 := Handled(cfg, caps, rt, c, queue[0]).value;
      HandledKeepsTheRest(cfg, caps, rt, c, queue[0]);
      QueuedTail(c.server[cfg.mailbox], c1.server[cfg.mailbox], queue);
      assert FiledElsewhere(cfg, rt, queue[1..]);
      assert c1.mem == c.mem.(lastSeenUid := Some(queue[0].uid));
      if |queue| > 1 { assert queue[1..][0] == queue[1]; }
      HandledAllKeepsTheRest(cfg, caps, rt, h, c1, queue[1..], lim);
      assert queue[0].uid < lim;
    }
  }

  // ---------- the next fetch returns the rest ----------

  lemma {:induction false} CollectSuffix(mb: Mailbox, lo: nat, hi: nat, k: nat)
    requires 0 < k <= |Collect(mb, None, lo, hi)|
    ensures var fs := Collect(mb, None, lo, hi);
            Collect(mb, None, fs[k - 1].uid + 1, hi) == fs[k..]
    decreases hi - lo
  {
    if Matches(mb, None, lo) {
      if k > 1 { CollectSuffix(mb, lo + 1, hi, k - 1); }
    } else {
      CollectSuffix(mb, lo + 1, hi, k);
    }
  }

  lemma {:induction false} CollectSame(mb: Mailbox, mb': Mailbox, lo: nat, hi: nat)
    requires SameFrom(mb, mb', lo)
    ensures Collect(mb', None, lo, hi) == Collect(mb, None, lo, hi)
    decreases hi - lo
  {
    if lo < hi { CollectSame(mb, mb', lo + 1, hi); }
  }

  lemma FetchIsPending(mb: Mailbox, start: nat)
    requires WellFormed(mb) && Pending(mb, start) != []
    ensures Fetched(mb, start, None) == Pending(mb, start) && Queued(mb, Pending(mb, start))
    ensures forall i :: 0 <= i < |Pending(mb, start)| ==> start <= Pending(mb, start)[i].uid
  {
    var fs := Pending(mb, start);
    CollectLists(mb, None, start, mb.uidnext);
    assert forall i :: 0 <= i < |fs| ==> Listed(fs[i], mb, None, start, mb.uidnext);
    assert fs[0].uid <= Highest(mb, mb.uidnext);
  }

  // ---------- draining ----------

  ghost predicate Ready(cfg: Settings, c: Core) {
    cfg.mailbox in c.server && WellFormedServer(c.server) && c.mem.lastSeenUid.Some?
  }

  /** The messages the daemon has yet to process. */
  ghost function ToDo(cfg: Settings, c: Core): seq<MessageContext>
    requires Ready(cfg, c)
  {
    Pending(c.server[cfg.mailbox], c.mem.lastSeenUid.value + 1)
  }

  ghost predicate AtFetch(cfg: Settings, s: Sys, session: Session) {
    s.point == AwaitingFetch(session) && !session.caps.condstore && !s.permit && Ready(cfg, CoreOf(s))
  }

  /** These messages can all be handled, and none is filed back into the mailbox. */
  ghost predicate Handleable(cfg: Settings, h: Handler, rt: Runs, c: Core, queue: seq<MessageContext>) {
    queue != [] && FiledElsewhere(cfg, rt, queue) && HandledAll(h, c, queue).Some?
  }

  lemma HandleablePrefix(cfg: Settings, h: Handler, rt: Runs, c: Core, queue: seq<MessageContext>, n: nat)
    requires Handleable(cfg, h, rt, c, queue) && 0 < n <= |queue|
    ensures Handleable(cfg, h, rt, c, queue[..n])
  {
    assert queue[..n] + queue[n..] == queue;
    HandledAllConcat(h, c, queue[..n], queue[n..]);
  }

  lemma HandledInTwo(h: Handler, c: Core, queue: seq<MessageContext>, n: nat, c1: Core)
    requires n <= |queue| && HandledAll(h, c, queue[..n]) == Some(c1)
    ensures HandledAll(h, c1, queue[n..]) == HandledAll(h, c, queue)
  {
    assert queue[..n] + queue[n..] == queue;
    HandledAllConcat(h, c, queue[..n], queue[n..]);
  }

  lemma FetchStep(cfg: Settings, s: Sys, session: Session)
    requires AtFetch(cfg, s, session) && ToDo(cfg, CoreOf(s)) != []
    ensures var s' := Next(cfg, s, FetchReply(true));
            && AtWork(s', session, Truncate(ToDo(cfg, CoreOf(s)), cfg.batchSize), 0)
            && CoreOf(s') == CoreOf(s) && s'.hist.batches == s.hist.batches + 1 && !s'.permit
            && s'.script == s.script
  {
    FetchIsPending(Current(cfg, s), s.mem.lastSeenUid.value + 1);
  }

  /** The fetch of a batch, and the batch. */
  lemma FetchThenBatch(cfg: Settings, s: Sys, session: Session, rt: Runs, at: Times, h: Handler,
                       queue: seq<MessageContext>)
    requires Evaluates(cfg, s.script, at, rt)
    requires Implements(h, cfg, session.caps, rt) && AtFetch(cfg, s, session) && ToDo(cfg, CoreOf(s)) != []
    requires queue == Truncate(ToDo(cfg, CoreOf(s)), cfg.batchSize)
    requires HandledAll(h, CoreOf(s), queue).Some?
    ensures var s' := After(cfg, s, [FetchReply(true)] + MessageEvents(at, queue));
            && Some(CoreOf(s')) == HandledAll(h, CoreOf(s), queue)
            && s'.point == Idling(session) && !s'.permit
            && s'.hist.batches == s.hist.batches + 1 && s'.script == s.script
  {
    assert queue[0..] == queue;
    FetchStep(cfg, s, session);
    OneBatch(cfg, Next(cfg, s, FetchReply(true)), session, rt, at, h, queue, 0);
    OneStep(cfg, s, FetchReply(true), MessageEvents(at, queue));
  }

  lemma QueuedPrefix(mb: Mailbox, queue: seq<MessageContext>, n: nat)
    requires n <= |queue| && Queued(mb, queue)
    ensures Queued(mb, queue[..n])
  {
  }

  lemma PendingAfter(mb: Mailbox, mb': Mailbox, start: nat, n: nat)
    requires 0 < n <= |Pending(mb, start)| && SameFrom(mb, mb', Pending(mb, start)[n - 1].uid + 1)
    ensures Pending(mb', Pending(mb, start)[n - 1].uid + 1) == Pending(mb, start)[n..]
  {
    CollectSuffix(mb, start, mb.uidnext, n);
    CollectSame(mb, mb', Pending(mb, start)[n - 1].uid + 1, mb.uidnext);
  }

  lemma PendingPrefix(mb: Mailbox, start: nat, n: nat)
    requires WellFormed(mb) && 0 < n <= |Pending(mb, start)|
    ensures Queued(mb, Pending(mb, start)[..n]) && start <= Pending(mb, start)[0].uid
  {
    FetchIsPending(mb, start);
    QueuedPrefix(mb, Pending(mb, start), n);
  }

  /** Handling the first `n` pending messages touches no later one. */
  lemma PrefixKeepsTheRest(cfg: Settings, caps: Capabilities, rt: Runs, h: Handler, c: Core,
                           queue: seq<MessageContext>, n: nat, c1: Core)
    requires Implements(h, cfg, caps, rt) && Ready(cfg, c) && 0 < n <= |ToDo(cfg, c)| && queue == ToDo(cfg, c)[..n]
    requires FiledElsewhere(cfg, rt, queue) && HandledAll(h, c, queue) == Some(c1)
    ensures Ready(cfg, c1) && c1.mem.lastSeenUid == Some(queue[n - 1].uid)
    ensures SameFrom(c.server[cfg.mailbox], c1.server[cfg.mailbox], queue[n - 1].uid + 1)
  {
    PendingPrefix(c.server[cfg.mailbox], c.mem.lastSeenUid.value + 1, n);
    HandledAllKeepsTheRest(cfg, caps, rt, h, c, queue, queue[n - 1].uid + 1);
  }

  /** After the first `n` pending messages, exactly the rest is pending. */
  lemma RestIsPending(cfg: Settings, caps: Capabilities, rt: Runs, h: Handler, c: Core, n: nat, c1: Core)
    requires Implements(h, cfg, caps, rt) && Ready(cfg, c) && 0 < n <= |ToDo(cfg, c)|
    requires FiledElsewhere(cfg, rt, ToDo(cfg, c)[..n])
    requires HandledAll(h, c, ToDo(cfg, c)[..n]) == Some(c1)
    ensures Ready(cfg, c1) && ToDo(cfg, c1) == ToDo(cfg, c)[n..]
  {
    PrefixKeepsTheRest(cfg, caps, rt, h, c, ToDo(cfg, c)[..n], n, c1);
    PendingAfter(c.server[cfg.mailbox], c1.server[cfg.mailbox], c.mem.lastSeenUid.value + 1, n);
  }

  /** ... and it is as handleable as before. */
  lemma RestIsHandleable(cfg: Settings, h: Handler, rt: Runs, c: Core, queue: seq<MessageContext>, n: nat, c1: Core)
    requires n < |queue| && Handleable(cfg, h, rt, c, queue)
    requires HandledAll(h, c, queue[..n]) == Some(c1)
    ensures Handleable(cfg, h, rt, c1, queue[n..])
    ensures HandledAll(h, c1, queue[n..]) == HandledAll(h, c, queue)
  {
    HandledInTwo(h, c, queue, n, c1);
  }

  lemma Woken(cfg: Settings, s: Sys, session: Session)
    requires s.point == Idling(session) && !s.permit
    ensures Next(cfg, s, IdleReply(Exists)) == s.(point := AwaitingFetch(session))
    ensures CoreOf(Next(cfg, s, IdleReply(Exists))) == CoreOf(s)
  {
  }

  /** `s'` is idle after handling all that `s` had to do, with nothing left. */
  ghost predicate Drained(cfg: Settings, s: Sys, session: Session, rt: Runs, h: Handler, s': Sys)
    requires Ready(cfg, CoreOf(s)) && cfg.batchSize > 0
  {
    && Some(CoreOf(s')) == HandledAll(h, CoreOf(s), ToDo(cfg, CoreOf(s)))
    && s'.point == Idling(session)
    && s'.hist.batches == s.hist.batches + Batches(|ToDo(cfg, CoreOf(s))|, cfg.batchSize)
    && Ready(cfg, CoreOf(s')) && ToDo(cfg, CoreOf(s')) == []
  }

  /** One batch holds everything. */
  lemma LastRound(cfg: Settings, s: Sys, session: Session, rt: Runs, at: Times, h: Handler, todo: seq<MessageContext>)
    requires Evaluates(cfg, s.script, at, rt)
    requires Implements(h, cfg, session.caps, rt) && AtFetch(cfg, s, session) && todo == ToDo(cfg, CoreOf(s))
    requires 0 < |todo| <= cfg.batchSize
    requires Handleable(cfg, h, rt, CoreOf(s), todo)
    ensures Drained(cfg, s, session, rt, h, After(cfg, s, DrainEvents(at, cfg.batchSize, todo)))
  {
    FetchThenBatch(cfg, s, session, rt, at, h, todo);
    assert todo[..|todo|] == todo;
    RestIsPending(cfg, session.caps, rt, h, CoreOf(s), |todo|,
                  CoreOf(After(cfg, s, DrainEvents(at, cfg.batchSize, todo))));
  }

  lemma DrainUnrolled(cfg: Settings, s: Sys, at: Times, size: nat, todo: seq<MessageContext>)
    requires 0 < size < |todo|
    ensures var s1 := After(cfg, s, [FetchReply(true)] + MessageEvents(at, todo[..size]));
            After(cfg, s, DrainEvents(at, size, todo)) ==
            After(cfg, Next(cfg, s1, IdleReply(Exists)), DrainEvents(at, size, todo[size..]))
  {
    var first, rest := [FetchReply(true)] + MessageEvents(at, todo[..size]), DrainEvents(at, size, todo[size..]);
    AfterConcat(cfg, s, first, [IdleReply(Exists)] + rest);
    OneStep(cfg, After(cfg, s, first), IdleReply(Exists), rest);
  }

  /** One full batch, and the wake-up after it. */
  lemma FullRound(cfg: Settings, s: Sys, session: Session, rt: Runs, at: Times, h: Handler, todo: seq<MessageContext>)
    returns (s2: Sys)
    requires Evaluates(cfg, s.script, at, rt)
    requires Implements(h, cfg, session.caps, rt) && AtFetch(cfg, s, session) && todo == ToDo(cfg, CoreOf(s))
    requires 0 < cfg.batchSize < |todo|
    requires Handleable(cfg, h, rt, CoreOf(s), todo)
    ensures After(cfg, s, DrainEvents(at, cfg.batchSize, todo)) ==
            After(cfg, s2, DrainEvents(at, cfg.batchSize, todo[cfg.batchSize..]))
    ensures s2.point == AwaitingFetch(session) && !s2.permit && s2.script == s.script
    ensures s2.hist.batches == s.hist.batches + 1
    ensures HandledAll(h, CoreOf(s), todo[..cfg.batchSize]) == Some(CoreOf(s2))
  {
    var s1 := After(cfg, s, [FetchReply(true)] + MessageEvents(at, todo[..cfg.batchSize]));
    HandleablePrefix(cfg, h, rt, CoreOf(s), todo, cfg.batchSize);
    FetchThenBatch(cfg, s, session, rt, at, h, todo[..cfg.batchSize]);
    Woken(cfg, s1, session);
    s2 := Next(cfg, s1, IdleReply(Exists));
    DrainUnrolled(cfg, s, at, cfg.batchSize, todo);
  }

  /** Draining the rest after a full batch is draining everything. */
  lemma DrainedLater(cfg: Settings, s: Sys, session: Session, rt: Runs, h: Handler, todo: seq<MessageContext>,
                     s2: Sys, s': Sys)
    requires AtFetch(cfg, s, session) && todo == ToDo(cfg, CoreOf(s)) && 0 < cfg.batchSize < |todo|
    requires s2.hist.batches == s.hist.batches + 1 && s2.script == s.script
    requires Ready(cfg, CoreOf(s2)) && ToDo(cfg, CoreOf(s2)) == todo[cfg.batchSize..]
    requires HandledAll(h, CoreOf(s2), todo[cfg.batchSize..]) == HandledAll(h, CoreOf(s), todo)
    requires Drained(cfg, s2, session, rt, h, s')
    ensures Drained(cfg, s, session, rt, h, s')
  {
  }

  /** Without faults and arrivals, whatever the batch size, the pending messages are
      drained by as many calls of `run_batch` as it takes to hold them, and store, state
      and results are those of handling them all in one go; nothing is pending then. */
  lemma {:induction false} DrainIsOneBatch(cfg: Settings, s: Sys, session: Session, rt: Runs, at: Times, h: Handler,
                                           todo: seq<MessageContext>)
    requires Evaluates(cfg, s.script, at, rt)
    requires Implements(h, cfg, session.caps, rt) && AtFetch(cfg, s, session) && cfg.batchSize > 0
    requires todo == ToDo(cfg, CoreOf(s))
    requires Handleable(cfg, h, rt, CoreOf(s), todo)
    ensures Drained(cfg, s, session, rt, h, After(cfg, s, DrainEvents(at, cfg.batchSize, todo)))
    decreases |todo|
  {
    if |todo| <= cfg.batchSize {
      LastRound(cfg, s, session, rt, at, h, todo);
    } else {
      var s2 := NextRound(cfg, s, session, rt, at, h, todo);
      var rest := todo[cfg.batchSize..];
      DrainIsOneBatch(cfg, s2, session, rt, at, h, rest);
      DrainedLater(cfg, s, session, rt, h, todo, s2, After(cfg, s2, DrainEvents(at, cfg.batchSize, rest)));
    }
  }

  /** A full batch leads to the next fetch, with the rest to do. */
  lemma NextRound(cfg: Settings, s: Sys, session: Session, rt: Runs, at: Times, h: Handler, todo: seq<MessageContext>)
    returns (s2: Sys)
    requires Evaluates(cfg, s.script, at, rt)
    requires Implements(h, cfg, session.caps, rt) && AtFetch(cfg, s, session) && todo == ToDo(cfg, CoreOf(s))
    requires 0 < cfg.batchSize < |todo|
    requires Handleable(cfg, h, rt, CoreOf(s), todo)
    ensures After(cfg, s, DrainEvents(at, cfg.batchSize, todo)) ==
            After(cfg, s2, DrainEvents(at, cfg.batchSize, todo[cfg.batchSize..]))
    ensures AtFetch(cfg, s2, session) && s2.hist.batches == s.hist.batches + 1 && s2.script == s.script
    ensures ToDo(cfg, CoreOf(s2)) == todo[cfg.batchSize..]
    ensures Handleable(cfg, h, rt, CoreOf(s2), todo[cfg.batchSize..])
    ensures HandledAll(h, CoreOf(s2), todo[cfg.batchSize..]) == HandledAll(h, CoreOf(s), todo)
  {
    s2 := FullRound(cfg, s, session, rt, at, h, todo);
    RestIsPending(cfg, session.caps, rt, h, CoreOf(s), cfg.batchSize, CoreOf(s2));
    RestIsHandleable(cfg, h, rt, CoreOf(s), todo, cfg.batchSize, CoreOf(s2));
  }

  /** Two batch sizes, the same outcome. */
  lemma BatchSizeDoesNotShow(cfg: Settings, s: Sys, session: Session, rt: Runs, at: Times, a: nat, b: nat)
    requires Evaluates(cfg, s.script, at, rt) && a > 0 && b > 0 && AtFetch(cfg, s, session)
    requires Handleable(cfg, HandlerOf(cfg, session.caps, rt), rt, CoreOf(s), ToDo(cfg, CoreOf(s)))
    ensures CoreOf(After(cfg.(batchSize := a), s, DrainEvents(at, a, ToDo(cfg, CoreOf(s))))) ==
            CoreOf(After(cfg.(batchSize := b), s, DrainEvents(at, b, ToDo(cfg, CoreOf(s)))))
  {
    HandlerImplements(cfg, session.caps, rt);
    DrainAt(cfg, s, session, rt, at, HandlerOf(cfg, session.caps, rt), a, ToDo(cfg, CoreOf(s)));
    DrainAt(cfg, s, session, rt, at, HandlerOf(cfg, session.caps, rt), b, ToDo(cfg, CoreOf(s)));
  }

  lemma DrainAt(cfg: Settings, s: Sys, session: Session, rt: Runs, at: Times, h: Handler, size: nat,
                todo: seq<MessageContext>)
    requires Evaluates(cfg, s.script, at, rt)
    requires Implements(h, cfg, session.caps, rt) && size > 0 && AtFetch(cfg, s, session)
    requires todo == ToDo(cfg, CoreOf(s)) && Handleable(cfg, h, rt, CoreOf(s), todo)
    ensures Some(CoreOf(After(cfg.(batchSize := size), s, DrainEvents(at, size, todo)))) ==
            HandledAll(h, CoreOf(s), todo)
  {
    ImplementsAnySize(h, cfg, session.caps, rt, size);
    DrainIsOneBatch(cfg.(batchSize := size), s, session, rt, at, h, todo);
  }

  lemma ImplementsAnySize(h: Handler, cfg: Settings, caps: Capabilities, rt: Runs, size: nat)
    requires Implements(h, cfg, caps, rt)
    ensures Implements(h, cfg.(batchSize := size), caps, rt)
  {
    forall c, ctx ensures h(c, ctx) == Handled(cfg.(batchSize := size), caps, rt, c, ctx) {
      assert Handled(cfg.(batchSize := size), caps, rt, c, ctx) == Handled(cfg, caps, rt, c, ctx);
    }
  }
}
