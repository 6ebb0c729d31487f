/** The mail an execution sends, and when an execution succeeds at all. */
module Outgoing {
  import opened Prelude
  import opened MailStore
  import opened Types
  import opened Commands
  import opened ImapClient
  import opened ActionExecutor
  import opened SieveEngine

  // ---------- what is sent ----------

  /** The sender of the message, or the null path when it has none. */
  function ReturnPath(sender: Option<string>): string {
    match sender case Some(address) => address case None => "<>"
  }

  /** The mail an event stands for: a redirect passes the message on as it is, in the name
      of its sender; a rejection goes to its sender. */
  function MailOf(ctx: MessageContext, e: Event): seq<OutgoingMail>
    requires ctx.content.raw.Some?
  {
    match e
    case SendMessage(Address(a)) => [Redirected(ReturnPath(ctx.content.sender), [a], ctx.content.raw.value)]
    case RejectEvent(reason) =>
      if ctx.content.sender.Some? then [Rejection(ctx.content.sender.value, reason)] else []
    case _ => []
  }

  function MailsOf(ctx: MessageContext, events: seq<Event>): seq<OutgoingMail>
    requires ctx.content.raw.Some?
  {
    if events == [] then [] else MailOf(ctx, events[0]) + MailsOf(ctx, events[1..])
  }

  /** The sends among the commands. */
  function Sends(cmds: seq<Command>): seq<OutgoingMail> {
    if cmds == [] then []
    else (if cmds[0].Send? then [cmds[0].mail] else []) + Sends(cmds[1..])
  }

  lemma {:induction false} SendsConcat(a: seq<Command>, b: seq<Command>)
    ensures Sends(a + b) == Sends(a) + Sends(b)
  {
    if a == [] {
      assert a + b == b;
    } else {
      assert (a + b)[0] == a[0] && (a + b)[1..] == a[1..] + b;
      SendsConcat(a[1..], b);
    }
  }

  /** A program sends its mail in order as far as it gets, and all of it when it
      answers OK. */
  lemma {:induction false} RunSends(w: World, subj: Subject, cmds: seq<Command>)
    ensures var (w', r) := Run(w, subj, cmds);
            && w.sent <= w'.sent <= w.sent + Sends(cmds)
            && (r.Pass? ==> w'.sent == w.sent + Sends(cmds))
    decreases |cmds|
  {
    if cmds != [] {
      var (w1, r) := Issue(w, subj, cmds[0]);
      IssueSends(w, subj, cmds[0]);
      var head := if cmds[0].Send? then [cmds[0].mail] else [];
      assert Sends(cmds) == head + Sends(cmds[1..]);
      assert w.sent + Sends(cmds) == w.sent + head + Sends(cmds[1..]);
      if r.Pass? || cmds[0].Create? { RunSends(w1, subj, cmds[1..]); }
    }
  }

  lemma IssueSends(w: World, subj: Subject, c: Command)
    ensures var (w', r) := Issue(w, subj, c);
            && w'.sent in {w.sent, w.sent + if c.Send? then [c.mail] else []}
            && (r.Pass? || c.Create? ==> w'.sent == w.sent + if c.Send? then [c.mail] else [])
  {
  }

  lemma {:induction false} FlagsSendNothing(actions: seq<SieveAction>)
    ensures Sends(FlagCommands(actions)) == []
  {
    if actions != [] {
      SendsConcat(FlagCommand(actions[0]), FlagCommands(actions[1..]));
      assert FlagCommand(actions[0]) != [] ==> FlagCommand(actions[0])[1..] == [];
      FlagsSendNothing(actions[1..]);
    }
  }

  lemma MoveSendsNothing(caps: Capabilities, t: string)
    ensures Sends(MoveCommands(caps, t)) == []
  {
    var mark := [Store(Add, {DELETED})];
    assert mark[1..] == [] && [Copy(t)][1..] == [] && [Move(t)][1..] == [] && [Expunge][1..] == [];
    SendsConcat([Copy(t)], mark);
    SendsConcat([Copy(t)] + mark, [Expunge]);
    assert [Copy(t)] + mark == [Copy(t), Store(Add, {DELETED})];
    assert [Copy(t)] + mark + [Expunge] == [Copy(t), Store(Add, {DELETED}), Expunge];
  }

  /** What one action sends when SMTP is configured. */
  function ActionMail(ctx: MessageContext, a: SieveAction): seq<OutgoingMail> {
    if a.Redirect? && ctx.content.raw.Some? then
      [Redirected(ReturnPath(ctx.content.sender), a.addresses, ctx.content.raw.value)]
    else if a.Reject? && ctx.content.sender.Some? then [Rejection(ctx.content.sender.value, a.reason)]
    else []
  }

  function ActionMails(ctx: MessageContext, actions: seq<SieveAction>): seq<OutgoingMail> {
    if actions == [] then [] else ActionMail(ctx, actions[0]) + ActionMails(ctx, actions[1..])
  }

  lemma DispositionSends(caps: Capabilities, smtp: bool, ctx: MessageContext, a: SieveAction)
    ensures Sends(DispositionCommand(caps, smtp, ctx, a)) == if smtp then ActionMail(ctx, a) else []
  {
    var cmds := DispositionCommand(caps, smtp, ctx, a);
    if a.FileInto? {
      MoveSendsNothing(caps, a.mailbox);
      var head := if a.create then [Create(a.mailbox)] else [];
      var tail := if a.copy then [Copy(a.mailbox)] else MoveCommands(caps, a.mailbox);
      SendsConcat(head, tail);
      assert [Create(a.mailbox)][1..] == [] && [Copy(a.mailbox)][1..] == [];
    } else if cmds != [] {
      assert cmds[1..] == [];
    }
  }

  lemma {:induction false} DispositionsSend(caps: Capabilities, smtp: bool, ctx: MessageContext,
                                            actions: seq<SieveAction>)
    ensures Sends(DispositionCommands(caps, smtp, ctx, actions)) == if smtp then ActionMails(ctx, actions) else []
    decreases |actions|
  {
    if actions != [] {
      SendsConcat(DispositionCommand(caps, smtp, ctx, actions[0]), DispositionCommands(caps, smtp, ctx, actions[1..]));
      DispositionSends(caps, smtp, ctx, actions[0]);
      DispositionsSend(caps, smtp, ctx, actions[1..]);
    }
  }

  lemma ProgramSends(caps: Capabilities, smtp: bool, ctx: MessageContext, actions: seq<SieveAction>)
    ensures Sends(Program(caps, smtp, ctx, actions)) == if smtp then ActionMails(ctx, actions) else []
  {
    var fs, ds := FlagCommands(actions), DispositionCommands(caps, smtp, ctx, actions);
    var mark := [Store(Add, {DELETED})];
    SendsConcat(fs + ds, DeletionCommands(caps, Discards(actions)));
    SendsConcat(fs, ds);
    SendsConcat(mark, [Expunge]);
    assert mark[1..] == [] && [Expunge][1..] == [] && mark + [Expunge] == [Store(Add, {DELETED}), Expunge];
    FlagsSendNothing(actions);
    DispositionsSend(caps, smtp, ctx, actions);
  }

  lemma {:induction false} ActionMailsConcat(ctx: MessageContext, a: seq<SieveAction>, b: seq<SieveAction>)
    ensures ActionMails(ctx, a + b) == ActionMails(ctx, a) + ActionMails(ctx, b)
  {
    if a == [] {
      assert a + b == b;
    } else {
      assert (a + b)[0] == a[0] && (a + b)[1..] == a[1..] + b;
      ActionMailsConcat(ctx, a[1..], b);
    }
  }

  lemma TranslateMails(ctx: MessageContext, e: Event)
    requires ctx.content.raw.Some?
    ensures ActionMails(ctx, Translate(e)) == MailOf(ctx, e)
  {
    var a := Translate(e);
    if |a| == 2 {
      ActionMailsConcat(ctx, [a[0]], [a[1]]);
      assert a == [a[0]] + [a[1]] && [a[0]][1..] == [] && [a[1]][1..] == [];
    } else if |a| == 1 {
      assert a[1..] == [];
    }
  }

  lemma {:induction false} TranslationMails(ctx: MessageContext, events: seq<Event>)
    requires ctx.content.raw.Some?
    ensures ActionMails(ctx, TranslateAll(events)) == MailsOf(ctx, events)
  {
    if events != [] {
      TranslateMails(ctx, events[0]);
      TranslationMails(ctx, events[1..]);
      ActionMailsConcat(ctx, Translate(events[0]), TranslateAll(events[1..]));
    }
  }

  lemma {:induction false} CopiesOnlyMails(ctx: MessageContext, actions: seq<SieveAction>)
    ensures ActionMails(ctx, CopiesOnly(actions)) == ActionMails(ctx, actions)
  {
    if actions != [] {
      CopiesOnlyMails(ctx, actions[1..]);
      var head := if actions[0].Keep? then [] else [AsCopy(actions[0])];
      ActionMailsConcat(ctx, head, CopiesOnly(actions[1..]));
      assert head != [] ==> head[1..] == [];
    }
  }

  /** What the executor sends is what the events stand for. */
  lemma NormalisedMails(ctx: MessageContext, events: seq<Event>)
    requires ctx.content.raw.Some?
    ensures ActionMails(ctx, Normalised(TranslateAll(events))) == MailsOf(ctx, events)
  {
    var plain := TranslateAll(events);
    ActionMailsConcat(ctx, plain, [Keep]);
    assert [Keep][1..] == [];
    CopiesOnlyMails(ctx, ImplicitKeep(plain));
    TranslationMails(ctx, events);
  }

  predicate HasAbort(cmds: seq<Command>) {
    exists c :: c in cmds && c.Abort?
  }

  lemma {:induction false} AbortFails(w: World, subj: Subject, cmds: seq<Command>)
    requires HasAbort(cmds)
    ensures Run(w, subj, cmds).1.Fail?
    decreases |cmds|
  {
    var c :| c in cmds && c.Abort?;
    var (w1, r) := Issue(w, subj, cmds[0]);
    if r.Pass? || cmds[0].Create? {
      assert c in cmds[1..];
      AbortFails(w1, subj, cmds[1..]);
    }
  }

  /** Without SMTP, a list with anything to send is aborted. */
  lemma {:induction false} UnsendableAborts(caps: Capabilities, ctx: MessageContext, actions: seq<SieveAction>)
    requires ActionMails(ctx, actions) != []
    ensures HasAbort(DispositionCommands(caps, false, ctx, actions))
    decreases |actions|
  {
    var head := DispositionCommand(caps, false, ctx, actions[0]);
    var rest := DispositionCommands(caps, false, ctx, actions[1..]);
    if ActionMail(ctx, actions[0]) != [] {
      assert head[0].Abort? && head[0] in head + rest;
    } else {
      UnsendableAborts(caps, ctx, actions[1..]);
      var c :| c in rest && c.Abort?;
      assert c in head + rest;
    }
  }

  /** Executing any list: its mails go out in order as far as the execution comes. */
  lemma ExecutionSends(w: World, mailbox: string, caps: Capabilities, smtp: bool, ctx: MessageContext,
                       actions: seq<SieveAction>)
    ensures var (w', r) := Executed(w, mailbox, caps, smtp, ctx, actions);
            && w.sent <= w'.sent <= w.sent + ActionMails(ctx, actions)
            && (!smtp ==> w'.sent == w.sent)
            && (r.Pass? ==> w'.sent == w.sent + ActionMails(ctx, actions))
  {
    var subj, program := Subject(mailbox, ctx.uid), Program(caps, smtp, ctx, actions);
    ProgramSends(caps, smtp, ctx, actions);
    RunSends(w, subj, program);
    if !smtp && ActionMails(ctx, actions) != [] {
      UnsendableAborts(caps, ctx, actions);
      var c :| c in DispositionCommands(caps, smtp, ctx, actions) && c.Abort?;
      assert c in program;
      AbortFails(w, subj, program);
    }
  }

  /** Evaluating and then executing, over every event list and failure: the mails sent
      are those of the redirect and reject events, each once and in order, as far as the
      execution came; all of them when it answers OK; none without SMTP. */
  lemma EvaluateThenSend(w: World, mailbox: string, caps: Capabilities, smtp: bool, ctx: MessageContext,
                         run: RuntimeRun)
    requires ctx.content.raw.Some? && Completed(run)
    ensures var mails := MailsOf(ctx, Events(run));
            var (w', r) := Executed(w, mailbox, caps, smtp, ctx, Evaluation(ctx.content, run).value);
            && w.sent <= w'.sent <= w.sent + mails
            && (!smtp ==> w'.sent == w.sent)
            && (r.Pass? ==> w'.sent == w.sent + mails)
  {
    NormalisedMails(ctx, Events(run));
    ExecutionSends(w, mailbox, caps, smtp, ctx, Normalised(TranslateAll(Events(run))));
  }

  // ---------- when an execution succeeds ----------

  /** What an action list needs: each target is there or is created on the way, redirects
      have SMTP and octets to send, rejections have SMTP and a sender to answer. */
  predicate Feasible(boxes: set<string>, smtp: bool, ctx: MessageContext, actions: seq<SieveAction>)
    decreases |actions|
  {
    if actions == [] then true
    else
      match actions[0]
      case FileInto(t, _, create) =>
        (t in boxes || create) && Feasible(boxes + {t}, smtp, ctx, actions[1..])
      case Redirect(_) => smtp && ctx.content.raw.Some? && Feasible(boxes, smtp, ctx, actions[1..])
      case Reject(_) => smtp && ctx.content.sender.Some? && Feasible(boxes, smtp, ctx, actions[1..])
      case _ => Feasible(boxes, smtp, ctx, actions[1..])
  }

  /** Every mailbox can take `n` more messages. */
  ghost predicate Roomy(s: Server, n: nat) {
    1 + n <= MAX_UID && forall b | b in s :: s[b].uidnext + n <= MAX_UID
  }

  /** A fault-free connection to a server that has the mailbox and room. */
  ghost predicate Calm(w: World, subj: Subject, n: nat) {
    w.fates == [] && subj.mailbox in w.server && Roomy(w.server, n)
  }

  lemma StoreSucceeds(w: World, subj: Subject, op: FlagOp, flags: set<string>, n: nat)
    requires Calm(w, subj, n)
    ensures var (w', r) := Issue(w, subj, Store(op, flags));
            r.Pass? && Calm(w', subj, n) && w'.server.Keys == w.server.Keys
  {
  }

  lemma ExpungeSucceeds(w: World, subj: Subject, n: nat)
    requires Calm(w, subj, n)
    ensures var (w', r) := Issue(w, subj, Expunge);
            r.Pass? && Calm(w', subj, n) && w'.server.Keys == w.server.Keys
  {
  }

  lemma CreateIsThere(w: World, subj: Subject, t: string, n: nat)
    requires Calm(w, subj, n)
    ensures var w' := Issue(w, subj, Create(t)).0;
            Calm(w', subj, n) && w'.server.Keys == w.server.Keys + {t}
  {
  }

  lemma FilingSucceedsIff(w: World, subj: Subject, c: Command, t: string, n: nat)
    requires Calm(w, subj, n + 1) && (c == Copy(t) || c == Move(t))
    ensures var (w', r) := Issue(w, subj, c);
            && (r.Pass? <==> t in w.server)
            && (r.Pass? ==> Calm(w', subj, n) && w'.server.Keys == w.server.Keys)
  {
  }

  lemma MoveSucceedsIff(w: World, subj: Subject, caps: Capabilities, t: string, n: nat)
    requires Calm(w, subj, n + 1)
    ensures var (w', r) := Run(w, subj, MoveCommands(caps, t));
            && (r.Pass? <==> t in w.server)
            && (r.Pass? ==> Calm(w', subj, n) && w'.server.Keys == w.server.Keys)
  {
    MoveUnfolds(w, subj, caps, t);
    if caps.supportsMove {
      FilingSucceedsIff(w, subj, Move(t), t, n);
    } else {
      FilingSucceedsIff(w, subj, Copy(t), t, n);
      if t in w.server {
        var w1 := Issue(w, subj, Copy(t)).0;
        StoreSucceeds(w1, subj, Add, {DELETED}, n);
        ExpungeSucceeds(Issue(w1, subj, Store(Add, {DELETED})).0, subj, n);
      }
    }
  }

  lemma FileIntoSucceedsIff(w: World, subj: Subject, caps: Capabilities, smtp: bool, ctx: MessageContext,
                            a: SieveAction, n: nat)
    requires Calm(w, subj, n + 1) && a.FileInto?
    ensures var (w', r) := Run(w, subj, DispositionCommand(caps, smtp, ctx, a));
            && (r.Pass? <==> a.mailbox in w.server || a.create)
            && (r.Pass? ==> Calm(w', subj, n) && w'.server.Keys == w.server.Keys + {a.mailbox})
  {
    var tail := if a.copy then [Copy(a.mailbox)] else MoveCommands(caps, a.mailbox);
    var w1 := if a.create then Issue(w, subj, Create(a.mailbox)).0 else w;
    CreateIsThere(w, subj, a.mailbox, n + 1);
    RunCons(w, subj, Create(a.mailbox), tail);
    assert [] + tail == tail;
    if a.copy {
      RunOne(w1, subj, Copy(a.mailbox));
      FilingSucceedsIff(w1, subj, Copy(a.mailbox), a.mailbox, n);
    } else {
      MoveSucceedsIff(w1, subj, caps, a.mailbox, n);
    }
  }

  lemma OtherSucceedsIff(w: World, subj: Subject, caps: Capabilities, smtp: bool, ctx: MessageContext, a: SieveAction,
                         n: nat)
    requires Calm(w, subj, n) && !a.FileInto?
    ensures var (w', r) := Run(w, subj, DispositionCommand(caps, smtp, ctx, a));
            && (r.Pass? <==>
                  && (a.Redirect? ==> smtp && ctx.content.raw.Some?)
                  && (a.Reject? ==> smtp && ctx.content.sender.Some?))
            && (r.Pass? ==> Calm(w', subj, n) && w'.server == w.server)
  {
    var cmds := DispositionCommand(caps, smtp, ctx, a);
    if cmds != [] {
      assert cmds == [cmds[0]];
      RunOne(w, subj, cmds[0]);
    }
  }

  lemma {:induction false} FlagPassSucceeds(w: World, subj: Subject, actions: seq<SieveAction>, n: nat)
    requires Calm(w, subj, n)
    ensures var (w', r) := Run(w, subj, FlagCommands(actions));
            r.Pass? && Calm(w', subj, n) && w'.server.Keys == w.server.Keys
    decreases |actions|
  {
    if actions != [] {
      var cmds := FlagCommand(actions[0]);
      StepFlags(w, subj, actions);
      if cmds == [] {
        FlagPassSucceeds(w, subj, actions[1..], n);
      } else {
        StoreSucceeds(w, subj, cmds[0].op, cmds[0].flags, n);
        FlagPassSucceeds(Issue(w, subj, cmds[0]).0, subj, actions[1..], n);
      }
    }
  }

  lemma {:induction false} DispositionsSucceedIff(w: World, subj: Subject, caps: Capabilities, smtp: bool,
                                                  ctx: MessageContext, actions: seq<SieveAction>)
    requires Calm(w, subj, |actions|)
    ensures var (w', r) := Run(w, subj, DispositionCommands(caps, smtp, ctx, actions));
            && (r.Pass? <==> Feasible(w.server.Keys, smtp, ctx, actions))
            && (r.Pass? ==> Calm(w', subj, 0))
    decreases |actions|
  {
    if actions != [] {
      var a, rest := actions[0], actions[1..];
      var cmds := DispositionCommand(caps, smtp, ctx, a);
      RunConcat(w, subj, cmds, DispositionCommands(caps, smtp, ctx, rest));
      var (w1, r) := Run(w, subj, cmds);
      if a.FileInto? {
        FileIntoSucceedsIff(w, subj, caps, smtp, ctx, a, |rest|);
      } else {
        OtherSucceedsIff(w, subj, caps, smtp, ctx, a, |actions|);
      }
      if r.Pass? { DispositionsSucceedIff(w1, subj, caps, smtp, ctx, rest); }
    }
  }

  /** On a fault-free connection to a server with room, an execution answers OK exactly
      when its action list has what it needs. */
  lemma ExecutionSucceedsIff(w: World, mailbox: string, caps: Capabilities, smtp: bool, ctx: MessageContext,
                             actions: seq<SieveAction>)
    requires Calm(w, Subject(mailbox, ctx.uid), |actions|)
    ensures Executed(w, mailbox, caps, smtp, ctx, actions).1.Pass? <==> Feasible(w.server.Keys, smtp, ctx, actions)
  {
    var subj := Subject(mailbox, ctx.uid);
    var fs, ds := FlagCommands(actions), DispositionCommands(caps, smtp, ctx, actions);
    RunConcat(w, subj, fs + ds, DeletionCommands(caps, Discards(actions)));
    RunConcat(w, subj, fs, ds);
    FlagPassSucceeds(w, subj, actions, |actions|);
    var w1 := Run(w, subj, fs).0;
    DispositionsSucceedIff(w1, subj, caps, smtp, ctx, actions);
    var (w2, r) := Run(w1, subj, ds);
    if r.Pass? {
      DeletionUnfolds(w2, subj, caps);
      StoreSucceeds(w2, subj, Add, {DELETED}, 0);
      ExpungeSucceeds(Issue(w2, subj, Store(Add, {DELETED})).0, subj, 0);
    }
  }

  // ---------- ... told from the events ----------

  /** What an event needs of the server, SMTP and the message: its folder is there, or it
      asks to create it; a redirect has SMTP; a rejection has SMTP and a sender to answer. */
  predicate EventFeasible(boxes: set<string>, smtp: bool, sender: Option<string>, e: Event) {
    && (e.FileIntoEvent? ==> e.folder in boxes || e.create)
    && (e.SendMessage? && e.recipient.Address? ==> smtp)
    && (e.RejectEvent? ==> smtp && sender.Some?)
  }

  function BoxesAfter(boxes: set<string>, e: Event): set<string> {
    if e.FileIntoEvent? then boxes + {e.folder} else boxes
  }

  /** Each event has what it needs, given the folders of the events before it. */
  predicate EventsFeasible(boxes: set<string>, smtp: bool, sender: Option<string>, events: seq<Event>)
    decreases |events|
  {
    events == [] ||
    (EventFeasible(boxes, smtp, sender, events[0]) &&
     EventsFeasible(BoxesAfter(boxes, events[0]), smtp, sender, events[1..]))
  }

  lemma FeasibleSecond(boxes: set<string>, smtp: bool, ctx: MessageContext, flags: set<string>, rest: seq<SieveAction>)
    ensures Feasible(boxes, smtp, ctx, SetFlags(flags) + rest) == Feasible(boxes, smtp, ctx, rest)
  {
    if flags == {} {
      assert SetFlags(flags) + rest == rest;
    } else {
      assert (SetFlags(flags) + rest)[1..] == rest;
    }
  }

  /** The actions of one event need what the event needs. */
  lemma FeasibleEvent(boxes: set<string>, smtp: bool, ctx: MessageContext, e: Event, rest: seq<SieveAction>)
    requires ctx.content.raw.Some?
    ensures Feasible(boxes, smtp, ctx, Translate(e) + rest) <==>
            EventFeasible(boxes, smtp, ctx.content.sender, e) && Feasible(BoxesAfter(boxes, e), smtp, ctx, rest)
  {
    var all := Translate(e) + rest;
    if e.KeepEvent? || e.FileIntoEvent? {
      var last := if e.KeepEvent? then Keep else FileInto(e.folder, false, e.create);
      assert all == SetFlags(e.flags) + ([last] + rest) && ([last] + rest)[1..] == rest;
      FeasibleSecond(boxes, smtp, ctx, e.flags, [last] + rest);
    } else if Translate(e) == [] {
      assert all == rest;
    } else {
      assert all[1..] == rest;
    }
  }

  lemma {:induction false} FeasibleTranslation(boxes: set<string>, smtp: bool, ctx: MessageContext, events: seq<Event>)
    requires ctx.content.raw.Some?
    ensures Feasible(boxes, smtp, ctx, TranslateAll(events)) == EventsFeasible(boxes, smtp, ctx.content.sender, events)
    decreases |events|
  {
    if events != [] {
      FeasibleEvent(boxes, smtp, ctx, events[0], TranslateAll(events[1..]));
      FeasibleTranslation(BoxesAfter(boxes, events[0]), smtp, ctx, events[1..]);
    }
  }

  lemma {:induction false} FeasibleKeep(boxes: set<string>, smtp: bool, ctx: MessageContext, actions: seq<SieveAction>)
    ensures Feasible(boxes, smtp, ctx, actions + [Keep]) == Feasible(boxes, smtp, ctx, actions)
    decreases |actions|
  {
    if actions == [] {
      assert ([Keep] + [])[1..] == [] && actions + [Keep] == [Keep];
      assert Feasible(boxes, smtp, ctx, [Keep]) == Feasible(boxes, smtp, ctx, [Keep][1..]);
    } else {
      assert (actions + [Keep])[0] == actions[0] && (actions + [Keep])[1..] == actions[1..] + [Keep];
      FeasibleKeep(if actions[0].FileInto? then boxes + {actions[0].mailbox} else boxes, smtp, ctx, actions[1..]);
    }
  }

  lemma {:induction false} FeasibleCopies(boxes: set<string>, smtp: bool, ctx: MessageContext,
                                          actions: seq<SieveAction>)
    ensures Feasible(boxes, smtp, ctx, CopiesOnly(actions)) == Feasible(boxes, smtp, ctx, actions)
    decreases |actions|
  {
    if actions != [] {
      var a, rest := actions[0], actions[1..];
      FeasibleCopies(if a.FileInto? then boxes + {a.mailbox} else boxes, smtp, ctx, rest);
      if a.Keep? {
        assert CopiesOnly(actions) == CopiesOnly(rest);
      } else {
        assert CopiesOnly(actions)[0] == AsCopy(a) && CopiesOnly(actions)[1..] == CopiesOnly(rest);
      }
    }
  }

  lemma {:induction false} TranslationLength(events: seq<Event>)
    ensures |TranslateAll(events)| <= 2 * |events|
  {
    if events != [] { TranslationLength(events[1..]); }
  }

  lemma {:induction false} CopiesLength(actions: seq<SieveAction>)
    ensures |CopiesOnly(actions)| <= |actions|
  {
    if actions != [] { CopiesLength(actions[1..]); }
  }

  lemma NormalisedFeasible(boxes: set<string>, smtp: bool, ctx: MessageContext, events: seq<Event>)
    requires ctx.content.raw.Some?
    ensures Feasible(boxes, smtp, ctx, Normalised(TranslateAll(events))) ==
            EventsFeasible(boxes, smtp, ctx.content.sender, events)
    ensures |Normalised(TranslateAll(events))| <= 2 * |events| + 1
  {
    var plain := TranslateAll(events);
    FeasibleTranslation(boxes, smtp, ctx, events);
    FeasibleKeep(boxes, smtp, ctx, plain);
    FeasibleCopies(boxes, smtp, ctx, ImplicitKeep(plain));
    TranslationLength(events);
    CopiesLength(ImplicitKeep(plain));
  }

  /** On a fault-free connection to a server with room, evaluating and then executing
      answers OK exactly when every folder is there, or is created by its event or an
      earlier one, every redirect has SMTP, and every rejection SMTP and a sender. */
  lemma EvaluateThenSucceedsIff(w: World, mailbox: string, caps: Capabilities, smtp: bool, ctx: MessageContext,
                                run: RuntimeRun)
    requires ctx.content.raw.Some? && Completed(run)
    requires Calm(w, Subject(mailbox, ctx.uid), 2 * |Events(run)| + 1)
    ensures Executed(w, mailbox, caps, smtp, ctx, Evaluation(ctx.content, run).value).1.Pass?
            <==> EventsFeasible(w.server.Keys, smtp, ctx.content.sender, Events(run))
  {
    NormalisedFeasible(w.server.Keys, smtp, ctx, Events(run));
    ExecutionSucceedsIff(w, mailbox, caps, smtp, ctx, Normalised(TranslateAll(Events(run))));
  }
}
