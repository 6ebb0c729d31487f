/** What a quiet mailbox costs: every keepalive poll processes its newest message again. */
module ProtocolPolls {
  import opened Prelude
  import opened MailStore
  import opened Types
  import opened ActionExecutor
  import opened SieveEngine
  import opened Fetching
  import opened Pipeline
  import opened EndToEnd
  import opened Outgoing
  import opened Retry
  import opened Protocol
  import opened ProtocolSound
  import opened ProtocolFindings
  import opened ProtocolRetry
  import opened ProtocolAccounts

  /** The idle interval ends, and the daemon fetches and processes one message. */
  function Poll(time: nat): seq<Happening> {
    [IdleReply(Interrupted), FetchReply(true), Process(time, []), Persisted(true)]
  }

  function Polls(time: nat, k: nat): seq<Happening> {
    if k == 0 then [] else Poll(time) + Polls(time, k - 1)
  }

  function Repeat<T>(s: seq<T>, k: nat): seq<T> {
    if k == 0 then [] else s + Repeat(s, k - 1)
  }

  /** The daemon is idle, and the newest message, long processed, is one that the script
      keeps in the mailbox. */
  ghost predicate Quiet(cfg: Settings, s: Sys, session: Session, u: Uid, content: Content, run: RuntimeRun, time: nat) {
    && Sound(cfg, s) && s.point == Idling(session) && !s.permit && !session.caps.condstore && cfg.batchSize > 0
    && u == Highest(Current(cfg, s), Current(cfg, s).uidnext) && u <= s.mem.lastSeenUid.value
    && u in Current(cfg, s).messages && Current(cfg, s).messages[u].content == content && content.raw.Some?
    && cfg.runtime(s.script, content, time) == run && Completed(run)
    && cfg.mailbox !in Folders(Events(run)) && Stays(session.caps, Events(run))
  }

  /** Executing its actions now would answer OK. */
  ghost predicate Succeeding(cfg: Settings, s: Sys, caps: Capabilities, u: Uid, run: RuntimeRun)
    requires Completed(run)
  {
    u in Current(cfg, s).messages &&
    Executed(WorldOf(s), cfg.mailbox, caps, cfg.smtp, ContextOf(Current(cfg, s), u), ActionsOf(run)).1.Pass?
  }

  // ---------- one poll, step by step ----------

  /** The batch that a poll starts. */
  function PollBatch(cfg: Settings, s: Sys, u: Uid): Batch
    requires u in Current(cfg, s).messages && s.mem.lastSeenUid.Some?
  {
    Batch(s.script, Current(cfg, s), s.mem.lastSeenUid.value + 1, None, [ContextOf(Current(cfg, s), u)], 0)
  }

  lemma PollFetches(cfg: Settings, s: Sys, session: Session, u: Uid, content: Content, run: RuntimeRun, time: nat)
    requires Quiet(cfg, s, session, u, content, run, time)
    ensures var s2 := Next(cfg, Next(cfg, s, IdleReply(Interrupted)), FetchReply(true));
            s2 == s.(point := InBatch(session, PollBatch(cfg, s, u)), hist := s2.hist)
  {
    FetchBeyondTheEnd(Current(cfg, s), s.mem.lastSeenUid.value + 1, None);
    var s1 := Next(cfg, s, IdleReply(Interrupted));
    assert s1 == s.(point := AwaitingFetch(session));
  }

  /** After the fetch: the message is executed and the counter stays where it is. */
  lemma PollProcesses(cfg: Settings, s: Sys, s2: Sys, session: Session, u: Uid, content: Content, run: RuntimeRun,
                      time: nat)
    requires Quiet(cfg, s, session, u, content, run, time) && Succeeding(cfg, s, session.caps, u, run)
    requires s2 == s.(point := InBatch(session, PollBatch(cfg, s, u)), hist := s2.hist)
    ensures var s3 := OnProcessed(cfg, s2, run, []);
            var w := Executed(WorldOf(s), cfg.mailbox, session.caps, cfg.smtp, ContextOf(Current(cfg, s), u),
                              ActionsOf(run)).0;
            && s3 == s.(server := w.server, sent := w.sent, hist := s3.hist,
                        point := Committing(session, PollBatch(cfg, s, u), ActionsOf(run)))
  {
    ProcessedExecutes(cfg, s2, run, [], ActionsOf(run));
    assert Max(u, s.mem.lastSeenUid.value) == s.mem.lastSeenUid.value;
    assert s.mem.(lastSeenUid := Some(s.mem.lastSeenUid.value)) == s.mem;
  }

  lemma PollSaves(cfg: Settings, s3: Sys)
    requires s3.point.Committing? && s3.point.batch.done + 1 == |s3.point.batch.queue|
    ensures var s4 := Next(cfg, s3, Persisted(true));
            s4 == s3.(file := Some(s3.mem), point := Idling(s3.point.session), hist := s4.hist)
  {
  }

  lemma PollEnds(cfg: Settings, s: Sys, session: Session, u: Uid, content: Content, run: RuntimeRun, time: nat)
    requires Quiet(cfg, s, session, u, content, run, time) && Succeeding(cfg, s, session.caps, u, run)
    ensures var e := After(cfg, s, Poll(time));
            var w := Executed(WorldOf(s), cfg.mailbox, session.caps, cfg.smtp, ContextOf(Current(cfg, s), u),
                              ActionsOf(run)).0;
            e == s.(server := w.server, sent := w.sent, file := Some(s.mem), hist := e.hist)
  {
    var s2 := Next(cfg, Next(cfg, s, IdleReply(Interrupted)), FetchReply(true));
    PollFetches(cfg, s, session, u, content, run, time);
    PollProcesses(cfg, s, s2, session, u, content, run, time);
    assert RunAt(cfg, s2, time) == run;
    NextProcesses(cfg, s2, time, []);
    PollSaves(cfg, OnProcessed(cfg, s2, run, []));
    Unfold4(cfg, s, IdleReply(Interrupted), FetchReply(true), Process(time, []), Persisted(true));
  }

  // ---------- what a poll leaves ----------

  lemma {:induction false} MailsOfContent(ctx: MessageContext, ctx': MessageContext, events: seq<Event>)
    requires ctx.content == ctx'.content && ctx.content.raw.Some?
    ensures MailsOf(ctx, events) == MailsOf(ctx', events)
  {
    if events != [] { MailsOfContent(ctx, ctx', events[1..]); }
  }

  lemma HighestStays(mb: Mailbox, mb': Mailbox, u: Uid)
    requires WellFormed(mb) && mb'.uidnext == mb.uidnext && u == Highest(mb, mb.uidnext)
    requires u in mb'.messages && (forall v | v in mb'.messages :: v in mb.messages)
    ensures Highest(mb', mb'.uidnext) == u
  {
    if u in mb.messages { HighestIs(mb', mb'.uidnext, u); }
  }

  lemma {:induction false} HighestIs(mb: Mailbox, n: nat, u: Uid)
    requires u in mb.messages && u < n && (forall v | u < v < n :: v !in mb.messages)
    ensures Highest(mb, n) == u
  {
    if n - 1 != u { HighestIs(mb, n - 1, u); }
  }

  lemma ExecutedStaysQuiet(cfg: Settings, s: Sys, session: Session, u: Uid, content: Content, run: RuntimeRun,
                           time: nat)
    requires Quiet(cfg, s, session, u, content, run, time) && Succeeding(cfg, s, session.caps, u, run)
    ensures Quiet(cfg, After(cfg, s, Poll(time)), session, u, content, run, time)
  {
    var ctx := ContextOf(Current(cfg, s), u);
    var e := After(cfg, s, Poll(time));
    NormalisedFacts(Events(run), {});
    SuccessKeepsSource(WorldOf(s), cfg.mailbox, session.caps, cfg.smtp, ctx, ActionsOf(run));
    PollEnds(cfg, s, session, u, content, run, time);
    HighestStays(Current(cfg, s), Current(cfg, e), u);
    AlwaysSound(cfg, s, Poll(time));
  }

  /** One poll sends the message's mails once more. */
  lemma OnePollSends(cfg: Settings, s: Sys, session: Session, u: Uid, content: Content, run: RuntimeRun, time: nat)
    requires Quiet(cfg, s, session, u, content, run, time) && Succeeding(cfg, s, session.caps, u, run)
    ensures After(cfg, s, Poll(time)).sent == s.sent + MailsOf(MessageContext(u, content, {}), Events(run))
  {
    var ctx := ContextOf(Current(cfg, s), u);
    PollEnds(cfg, s, session, u, content, run, time);
    EvaluateThenSend(WorldOf(s), cfg.mailbox, session.caps, cfg.smtp, ctx, run);
    MailsOfContent(ctx, MessageContext(u, content, {}), Events(run));
  }

  /** One poll files the message's copies once more. */
  lemma OnePollFiles(cfg: Settings, s: Sys, session: Session, u: Uid, content: Content, run: RuntimeRun, time: nat,
                     t: string)
    requires Quiet(cfg, s, session, u, content, run, time) && Succeeding(cfg, s, session.caps, u, run)
    requires t != cfg.mailbox
    ensures Gained(Box(s.server, t), Box(After(cfg, s, Poll(time)).server, t), content,
                   Count(Recipients(session.caps, Events(run)), t))
  {
    PollEnds(cfg, s, session, u, content, run, time);
    EvaluateThenExecute(WorldOf(s), cfg.mailbox, session.caps, cfg.smtp, ContextOf(Current(cfg, s), u), run);
  }

  // ---------- k polls ----------

  /** Each of the next `k` polls finds its execution answering OK. */
  ghost predicate AllSucceed(cfg: Settings, s: Sys, caps: Capabilities, u: Uid, run: RuntimeRun, time: nat, k: nat)
    requires Completed(run)
    decreases k
  {
    k > 0 ==> Succeeding(cfg, s, caps, u, run) && AllSucceed(cfg, After(cfg, s, Poll(time)), caps, u, run, time, k - 1)
  }

  lemma SentAgain<T>(a: seq<T>, b: seq<T>, c: seq<T>, mails: seq<T>, k: nat)
    requires k > 0 && b == a + mails && c == b + Repeat(mails, k - 1)
    ensures c == a + Repeat(mails, k)
  {
  }

  /** In a quiet mailbox, k keepalive polls send every mail of the newest message k more
      times, in order. */
  lemma {:induction false} QuietPollsResend(cfg: Settings, s: Sys, session: Session, u: Uid, content: Content,
                                            run: RuntimeRun, time: nat, k: nat, mails: seq<OutgoingMail>)
    requires Quiet(cfg, s, session, u, content, run, time) && AllSucceed(cfg, s, session.caps, u, run, time, k)
    requires mails == MailsOf(MessageContext(u, content, {}), Events(run))
    ensures After(cfg, s, Polls(time, k)).sent == s.sent + Repeat(mails, k)
    decreases k
  {
    if k > 0 {
      var s1 := After(cfg, s, Poll(time));
      ExecutedStaysQuiet(cfg, s, session, u, content, run, time);
      OnePollSends(cfg, s, session, u, content, run, time);
      QuietPollsResend(cfg, s1, session, u, content, run, time, k - 1, mails);
      AfterConcat(cfg, s, Poll(time), Polls(time, k - 1));
      SentAgain(s.sent, s1.sent, After(cfg, s1, Polls(time, k - 1)).sent, mails, k);
    }
  }

  function Times(k: nat, m: nat): nat {
    if k == 0 then 0 else m + Times(k - 1, m)
  }

  lemma {:induction false} TimesMultiplies(k: nat, m: nat)
    ensures Times(k, m) == k * m
  {
    if k > 0 {
      TimesMultiplies(k - 1, m);
      OneMore(k - 1, m);
    }
  }

  /** ... and file every copy of it k more times. */
  lemma {:induction false} QuietPollsRefile(cfg: Settings, s: Sys, session: Session, u: Uid, content: Content,
                                            run: RuntimeRun, time: nat, k: nat, t: string, m: nat)
    requires Quiet(cfg, s, session, u, content, run, time) && t != cfg.mailbox
    requires AllSucceed(cfg, s, session.caps, u, run, time, k)
    requires m == Count(Recipients(session.caps, Events(run)), t)
    ensures Gained(Box(s.server, t), Box(After(cfg, s, Polls(time, k)).server, t), content, Times(k, m))
    decreases k
  {
    assert WellFormed(Box(s.server, t));
    if k > 0 {
      var s1 := After(cfg, s, Poll(time));
      ExecutedStaysQuiet(cfg, s, session, u, content, run, time);
      OnePollFiles(cfg, s, session, u, content, run, time, t);
      QuietPollsRefile(cfg, s1, session, u, content, run, time, k - 1, t, m);
      AfterConcat(cfg, s, Poll(time), Polls(time, k - 1));
      assert WellFormed(Box(s1.server, t));
      var later := After(cfg, s1, Polls(time, k - 1)).server;
      GainedTransitive(Box(s.server, t), Box(s1.server, t), Box(later, t), content, m, Times(k - 1, m));
    }
  }
}
