/** Every mail sent and every copy filed, accounted for by the attempts of a run. */
module ProtocolAccounts {
  import opened Prelude
  import opened MailStore
  import opened Types
  import opened Commands
  import opened ActionExecutor
  import opened SieveEngine
  import opened EndToEnd
  import opened Outgoing
  import opened Retry
  import opened Protocol
  import opened ProtocolSound
  import opened ProtocolRetry

  // ---------- attempts, told from the run ----------

  /** The event is an attempt at a message whose evaluation succeeds. */
  predicate Attempted(cfg: Settings, s: Sys, e: Happening) {
    e.Process? && Fits(s, e) && Head(s).content.raw.Some? && Completed(RunAt(cfg, s, e.time))
  }

  /** ... and whose execution answers OK. */
  predicate AnswersOk(cfg: Settings, s: Sys, e: Happening)
    requires Attempted(cfg, s, e)
  {
    OnProcessed(cfg, s, RunAt(cfg, s, e.time), e.fates).point.Committing?
  }

  function EventsAt(cfg: Settings, s: Sys, e: Happening): seq<Event>
    requires Attempted(cfg, s, e)
  {
    Events(RunAt(cfg, s, e.time))
  }

  // ---------- mail ----------

  /** How often the events of this attempt ask for the mail, if it is one. */
  function AskedBy(cfg: Settings, s: Sys, e: Happening, x: OutgoingMail): nat {
    if Attempted(cfg, s, e) then Count(MailsOf(Head(s), EventsAt(cfg, s, e)), x) else 0
  }

  /** ... and if it is successful. */
  function OwedBy(cfg: Settings, s: Sys, e: Happening, x: OutgoingMail): nat {
    if Attempted(cfg, s, e) && AnswersOk(cfg, s, e) then AskedBy(cfg, s, e, x) else 0
  }

  /** How often the events of all attempts ask for this mail. */
  function MailAsked(cfg: Settings, s: Sys, es: seq<Happening>, x: OutgoingMail): nat
    decreases |es|
  {
    if es == [] then 0 else AskedBy(cfg, s, es[0], x) + MailAsked(cfg, Next(cfg, s, es[0]), es[1..], x)
  }

  /** How often the events of the successful attempts ask for it. */
  function MailOwed(cfg: Settings, s: Sys, es: seq<Happening>, x: OutgoingMail): nat
    decreases |es|
  {
    if es == [] then 0 else OwedBy(cfg, s, es[0], x) + MailOwed(cfg, Next(cfg, s, es[0]), es[1..], x)
  }

  lemma NoOtherSends(cfg: Settings, s: Sys, e: Happening)
    requires !Attempted(cfg, s, e)
    ensures Next(cfg, s, e).sent == s.sent
  {
    if e.Process? && Fits(s, e) {
      assert Evaluation(Head(s).content, RunAt(cfg, s, e.time)).Failure?;
    }
  }

  /** Executing these actions for the head of the batch. */
  function ExecutedAt(cfg: Settings, s: Sys, fates: seq<Fate>, actions: seq<SieveAction>): (World, Outcome<CoreError>)
    requires s.point.InBatch? && s.point.batch.done < |s.point.batch.queue|
  {
    Executed(World(s.server, s.sent, fates, []), cfg.mailbox, s.point.session.caps, cfg.smtp, Head(s), actions)
  }

  lemma ProcessedExecutes(cfg: Settings, s: Sys, run: RuntimeRun, fates: seq<Fate>, actions: seq<SieveAction>)
    requires s.point.InBatch? && s.point.batch.done < |s.point.batch.queue|
    requires Evaluation(Head(s).content, run) == Success(actions)
    ensures var s', after := OnProcessed(cfg, s, run, fates), ExecutedAt(cfg, s, fates, actions);
            s'.server == after.0.server && s'.sent == after.0.sent
    ensures OnProcessed(cfg, s, run, fates).point.Committing? <==> ExecutedAt(cfg, s, fates, actions).1.Pass?
  {
    var (w, r) := ExecutedAt(cfg, s, fates, actions);
    if r.Fail? {
      assert OnProcessed(cfg, s, run, fates).point.Idling?;
    } else {
      assert OnProcessed(cfg, s, run, fates).point.Committing?;
    }
  }

  /** What an attempt does to store and mail is what executing its actions does. */
  lemma AttemptExecutes(cfg: Settings, s: Sys, e: Happening)
    requires Attempted(cfg, s, e)
    ensures var actions := ActionsOf(RunAt(cfg, s, e.time));
            var (w, r) := ExecutedAt(cfg, s, e.fates, actions);
            && Evaluation(Head(s).content, RunAt(cfg, s, e.time)) == Success(actions)
            && Next(cfg, s, e).server == w.server && Next(cfg, s, e).sent == w.sent
            && (AnswersOk(cfg, s, e) <==> r.Pass?)
  {
    ProcessedExecutes(cfg, s, RunAt(cfg, s, e.time), e.fates, ActionsOf(RunAt(cfg, s, e.time)));
    NextProcesses(cfg, s, e.time, e.fates);
  }

  lemma ProcessedReports(cfg: Settings, s: Sys, run: RuntimeRun, fates: seq<Fate>, actions: seq<SieveAction>)
    requires s.point.InBatch? && s.point.batch.done < |s.point.batch.queue|
    requires Evaluation(Head(s).content, run) == Success(actions) && ExecutedAt(cfg, s, fates, actions).1.Fail?
    ensures var error := ExecutedAt(cfg, s, fates, actions).1.error;
            OnProcessed(cfg, s, run, fates).hist.results ==
            s.hist.results + [ProcessingResult(Head(s).uid, actions, ActionError(error))]
  {
  }

  /** An attempt that fails is reported with its actions and the error that stopped it. */
  lemma FailureIsReported(cfg: Settings, s: Sys, e: Happening)
    requires Attempted(cfg, s, e) && !AnswersOk(cfg, s, e)
    ensures var actions := ActionsOf(RunAt(cfg, s, e.time));
            var r := ExecutedAt(cfg, s, e.fates, actions).1;
            && r.Fail?
            && Next(cfg, s, e).hist.results ==
               s.hist.results + [ProcessingResult(Head(s).uid, actions, ActionError(r.error))]
  {
    AttemptExecutes(cfg, s, e);
    ProcessedReports(cfg, s, RunAt(cfg, s, e.time), e.fates, ActionsOf(RunAt(cfg, s, e.time)));
    NextProcesses(cfg, s, e.time, e.fates);
  }

  lemma AttemptSends(cfg: Settings, s: Sys, e: Happening)
    requires Attempted(cfg, s, e)
    ensures var mails, sent := MailsOf(Head(s), EventsAt(cfg, s, e)), Next(cfg, s, e).sent;
            && s.sent <= sent <= s.sent + mails
            && (AnswersOk(cfg, s, e) ==> sent == s.sent + mails)
  {
    var run := RunAt(cfg, s, e.time);
    AttemptExecutes(cfg, s, e);
    EvaluateThenSend(World(s.server, s.sent, e.fates, []), cfg.mailbox, s.point.session.caps, cfg.smtp, Head(s), run);
  }

  /** Over every run: each mail is sent at least as often as the successful attempts ask for
      it and at most as often as all attempts do, and none is ever taken back. */
  lemma {:induction false} MailAccount(cfg: Settings, s: Sys, es: seq<Happening>, x: OutgoingMail)
    ensures var sent := After(cfg, s, es).sent;
            && s.sent <= sent
            && MailOwed(cfg, s, es, x) <= Count(sent[|s.sent|..], x) <= MailAsked(cfg, s, es, x)
    decreases |es|
  {
    if es != [] {
      var s1, sent := Next(cfg, s, es[0]), After(cfg, s, es).sent;
      MailAccount(cfg, s1, es[1..], x);
      if Attempted(cfg, s, es[0]) {
        var mails := MailsOf(Head(s), EventsAt(cfg, s, es[0]));
        AttemptSends(cfg, s, es[0]);
        CountBothParts(s.sent, s1.sent, sent, mails, x);
        if AnswersOk(cfg, s, es[0]) { CountAll(s.sent, mails, sent, x); }
      } else {
        NoOtherSends(cfg, s, es[0]);
      }
    }
  }

  lemma CountAll<T>(a: seq<T>, mails: seq<T>, c: seq<T>, x: T)
    requires a + mails <= c
    ensures Count(c[|a|..], x) == Count(mails, x) + Count(c[|a + mails|..], x)
  {
    assert c[|a|..] == mails + c[|a + mails|..];
    CountConcat(mails, c[|a + mails|..], x);
  }

  // ---------- copies ----------

  /** Mail that arrives in another mailbox from elsewhere. */
  function Delivered(s: Sys, e: Happening, t: string): nat {
    if e.Deliver? && e.box == t && t in s.server && HasRoom(s.server[t]) then 1 else 0
  }

  /** How many arrivals in mailbox `t` deliveries and all attempts can account for. */
  function ArrivalsAsked(cfg: Settings, s: Sys, es: seq<Happening>, t: string): nat
    decreases |es|
  {
    if es == [] then 0
    else
      Delivered(s, es[0], t) +
      (if Attempted(cfg, s, es[0]) then Count(Folders(EventsAt(cfg, s, es[0])), t) else 0) +
      ArrivalsAsked(cfg, Next(cfg, s, es[0]), es[1..], t)
  }

  /** A successful attempt at a message that is still there, and not filed back. */
  predicate Files(cfg: Settings, s: Sys, e: Happening) {
    && Attempted(cfg, s, e) && AnswersOk(cfg, s, e) && Head(s).uid in Current(cfg, s).messages
    && cfg.mailbox !in Folders(EventsAt(cfg, s, e))
  }

  /** How many arrivals deliveries and successful attempts must have caused. */
  function ArrivalsOwed(cfg: Settings, s: Sys, es: seq<Happening>, t: string): nat
    decreases |es|
  {
    if es == [] then 0
    else
      Delivered(s, es[0], t) +
      (if Files(cfg, s, es[0]) then Count(Recipients(s.point.session.caps, EventsAt(cfg, s, es[0])), t) else 0) +
      ArrivalsOwed(cfg, Next(cfg, s, es[0]), es[1..], t)
  }

  lemma NoOtherArrivals(cfg: Settings, s: Sys, e: Happening, t: string)
    requires cfg.mailbox != t && !Attempted(cfg, s, e)
    ensures Box(Next(cfg, s, e).server, t).uidnext == Box(s.server, t).uidnext + Delivered(s, e, t)
  {
    if e.Process? && Fits(s, e) {
      assert Evaluation(Head(s).content, RunAt(cfg, s, e.time)).Failure?;
    }
  }

  lemma HeadOrGone(cfg: Settings, s: Sys)
    requires Sound(cfg, s) && s.point.InBatch?
    ensures SourceHasOnly(s.server, Subject(cfg.mailbox, Head(s).uid), Head(s).content)
  {
    HeadIsOfSnapshot(cfg, s);
  }

  lemma AttemptArrives(cfg: Settings, s: Sys, e: Happening, t: string)
    requires Sound(cfg, s) && cfg.mailbox != t && Attempted(cfg, s, e)
    ensures var a, b := Box(s.server, t), Box(Next(cfg, s, e).server, t);
            a.uidnext <= b.uidnext <= a.uidnext + Count(Folders(EventsAt(cfg, s, e)), t)
  {
    var run := RunAt(cfg, s, e.time);
    AttemptExecutes(cfg, s, e);
    HeadOrGone(cfg, s);
    NormalisedFacts(Events(run), {});
    AttemptGains(World(s.server, s.sent, e.fates, []), cfg.mailbox, s.point.session.caps, cfg.smtp, Head(s),
                 Normalised(TranslateAll(Events(run))), t);
  }

  lemma SuccessArrives(cfg: Settings, s: Sys, e: Happening, t: string)
    requires Sound(cfg, s) && cfg.mailbox != t && Files(cfg, s, e)
    ensures Box(Next(cfg, s, e).server, t).uidnext ==
            Box(s.server, t).uidnext + Count(Recipients(s.point.session.caps, EventsAt(cfg, s, e)), t)
  {
    HeadIsInSource(cfg, s);
    AttemptExecutes(cfg, s, e);
    EvaluateThenExecute(World(s.server, s.sent, e.fates, []), cfg.mailbox, s.point.session.caps, cfg.smtp, Head(s),
                        RunAt(cfg, s, e.time));
  }

  /** Over every run, with whatever other clients do: the arrivals in a mailbox other than
      the source are at least the deliveries and what the successful attempts file there,
      and at most the deliveries and what all attempts ask to file there. */
  lemma {:induction false} ArrivalAccount(cfg: Settings, s: Sys, es: seq<Happening>, t: string)
    requires Sound(cfg, s) && cfg.mailbox != t
    ensures var a, b := Box(s.server, t).uidnext, Box(After(cfg, s, es).server, t).uidnext;
            a + ArrivalsOwed(cfg, s, es, t) <= b <= a + ArrivalsAsked(cfg, s, es, t)
    decreases |es|
  {
    if es != [] {
      NextKeepsSound(cfg, s, es[0]);
      ArrivalAccount(cfg, Next(cfg, s, es[0]), es[1..], t);
      if Attempted(cfg, s, es[0]) {
        AttemptArrives(cfg, s, es[0], t);
        if Files(cfg, s, es[0]) { SuccessArrives(cfg, s, es[0], t); }
      } else {
        NoOtherArrivals(cfg, s, es[0], t);
      }
    }
  }

  // ---------- what counts as handled ----------

  /** The `k`-th event is the execution of message `u`, and it answered OK. */
  ghost predicate ExecutedOk(cfg: Settings, s: Sys, es: seq<Happening>, k: nat, u: Uid)
    requires k < |es|
  {
    var f := After(cfg, s, es[..k]);
    Attempted(cfg, f, es[k]) && Head(f).uid == u && AnswersOk(cfg, f, es[k])
  }

  ghost predicate WasExecuted(cfg: Settings, s: Sys, es: seq<Happening>, u: Uid) {
    exists k :: 0 <= k < |es| && ExecutedOk(cfg, s, es, k, u)
  }

  lemma WasExecutedLater(cfg: Settings, s: Sys, es: seq<Happening>, e: Happening, u: Uid)
    requires WasExecuted(cfg, s, es, u)
    ensures WasExecuted(cfg, s, es + [e], u)
  {
    var k :| 0 <= k < |es| && ExecutedOk(cfg, s, es, k, u);
    assert (es + [e])[..k] == es[..k] && (es + [e])[k] == es[k];
    assert ExecutedOk(cfg, s, es + [e], k, u);
  }

  lemma ExecutedNow(cfg: Settings, s: Sys, es: seq<Happening>, e: Happening, f: Sys)
    requires f == After(cfg, s, es) && Attempted(cfg, f, e) && AnswersOk(cfg, f, e)
    ensures WasExecuted(cfg, s, es + [e], Head(f).uid)
  {
    var all := es + [e];
    assert all[..|es|] == es && all[|es|] == e;
    assert ExecutedOk(cfg, s, all, |es|, Head(f).uid);
  }

  lemma ProcessedHandles(cfg: Settings, s: Sys, run: RuntimeRun, fates: seq<Fate>)
    requires s.point.InBatch? && s.point.batch.done < |s.point.batch.queue|
    ensures var s' := OnProcessed(cfg, s, run, fates);
            || s'.hist.handled == s.hist.handled
            || (s'.point.Committing? && s'.hist.handled == s.hist.handled + {Head(s).uid}
                && Head(s).content.raw.Some? && Completed(run))
  {
  }

  lemma NextHandles(cfg: Settings, s: Sys, e: Happening, u: Uid)
    requires u in Next(cfg, s, e).hist.handled && u !in s.hist.handled
    ensures Attempted(cfg, s, e) && AnswersOk(cfg, s, e) && Head(s).uid == u
  {
    if e.Process? && Fits(s, e) {
      ProcessedHandles(cfg, s, RunAt(cfg, s, e.time), e.fates);
      NextProcesses(cfg, s, e.time, e.fates);
    }
  }

  /** What the theorems call handled is what some event of the run executed OK. */
  lemma {:induction false} HandledWasExecuted(cfg: Settings, s: Sys, es: seq<Happening>, n: nat, u: Uid)
    requires n <= |es| && u in After(cfg, s, es[..n]).hist.handled && u !in s.hist.handled
    ensures WasExecuted(cfg, s, es[..n], u)
    decreases n
  {
    assert es[..0] == [];
    if n > 0 {
      var before, e := es[..n - 1], es[n - 1];
      var f := After(cfg, s, before);
      assert es[..n] == before + [e] && [e][1..] == [];
      AfterConcat(cfg, s, before, [e]);
      assert After(cfg, f, [e]) == Next(cfg, f, e);
      if u in f.hist.handled {
        HandledWasExecuted(cfg, s, es, n - 1, u);
        WasExecutedLater(cfg, s, before, e, u);
      } else {
        NextHandles(cfg, f, e, u);
        ExecutedNow(cfg, s, before, e, f);
      }
    }
  }
}
