/** Translates resolved Sieve actions into IMAP and SMTP operations. */
module ActionExecutor {
  import opened Prelude
  import opened MailStore
  import opened Types
  import opened Commands
  import opened ImapClient

  // ---------- the program an action list stands for ----------

  function FlagCommand(a: SieveAction): seq<Command> {
    match a
    case AddFlag(flags) => [Store(Add, flags)]
    case RemoveFlag(flags) => [Store(Remove, flags)]
    case SetFlag(flags) => [Store(Set, flags)]
    case _ => []
  }

  function DispositionCommand(caps: Capabilities, smtp: bool, ctx: MessageContext, a: SieveAction): seq<Command> {
    match a
    case FileInto(mailbox, copy, create) =>
      (if create then [Create(mailbox)] else []) + (if copy then [Copy(mailbox)] else MoveCommands(caps, mailbox))
    case Redirect(addresses) =>
      if !smtp then [Abort(Smtp("redirect action requires SMTP configuration"))]
      else if ctx.content.raw.None? then [Abort(Smtp("redirect requires raw message body"))]
      else [Send(Redirected(EnvelopeFrom(ctx), addresses, ctx.content.raw.value))]
    case Reject(reason) =>
      if !smtp then [Abort(Smtp("reject action requires SMTP configuration"))]
      else if ctx.content.sender.None? then [Abort(Smtp("reject requires envelope-from"))]
      else [Send(Rejection(ctx.content.sender.value, reason))]
    case _ => []
  }

  function EnvelopeFrom(ctx: MessageContext): string {
    if ctx.content.sender.Some? then ctx.content.sender.value else "<>"
  }

  function FlagCommands(actions: seq<SieveAction>): seq<Command> {
    if actions == [] then [] else FlagCommand(actions[0]) + FlagCommands(actions[1..])
  }

  function DispositionCommands(caps: Capabilities, smtp: bool, ctx: MessageContext,
                               actions: seq<SieveAction>): seq<Command> {
    if actions == [] then []
    else DispositionCommand(caps, smtp, ctx, actions[0]) + DispositionCommands(caps, smtp, ctx, actions[1..])
  }

  function DeletionCommands(caps: Capabilities, discarded: bool): seq<Command> {
    if !discarded then []
    else if caps.uidplus then [Store(Add, {DELETED}), Expunge]
    else [Store(Add, {DELETED})]
  }

  function Program(caps: Capabilities, smtp: bool, ctx: MessageContext, actions: seq<SieveAction>): seq<Command> {
    FlagCommands(actions) + DispositionCommands(caps, smtp, ctx, actions) + DeletionCommands(caps, Discards(actions))
  }

  /** Everything `execute` does to the outside world, and its answer. */
  function Executed(w: World, mailbox: string, caps: Capabilities, smtp: bool, ctx: MessageContext,
                    actions: seq<SieveAction>): (World, Outcome<CoreError>)
  {
    Run(w, Subject(mailbox, ctx.uid), Program(caps, smtp, ctx, actions))
  }

  // ---------- the executor ----------

  class Executor {
    const client: Endpoints
    const smtp: bool
    const caps: Capabilities

    constructor (client: Endpoints, smtp: bool, caps: Capabilities)
      ensures this.client == client && this.smtp == smtp && this.caps == caps
    {
      this.client := client;
      this.smtp := smtp;
      this.caps := caps;
    }

    /** Flag actions first, then dispositions, then the deferred deletion. */
    method Execute(ctx: MessageContext, actions: seq<SieveAction>) returns (r: Outcome<CoreError>)
      modifies client`server, client`sent, client`fates, client`log
      ensures (client.View(), r) == Executed(old(client.View()), client.mailbox, caps, smtp, ctx, actions)
    {
      ghost var w0 := client.View();
      ghost var subj := client.About(ctx.uid);
      ghost var flags := FlagCommands(actions);
      ghost var disposition := DispositionCommands(caps, smtp, ctx, actions);
      ghost var deletion := DeletionCommands(caps, Discards(actions));
      RunConcat(w0, subj, flags + disposition, deletion);
      RunConcat(w0, subj, flags, disposition);

      r := FlagPass(ctx, actions);
      if r.Fail? { return; }
      var discarded;
      r, discarded := DispositionPass(ctx, actions);
      if r.Fail? { return; }
      if discarded {
        DeletionUnfolds(client.View(), subj, caps);
        r := client.UidStoreFlags(ctx.uid, Add, {DELETED});
        if r.Fail? { return; }
        if caps.uidplus {
          r := client.UidExpunge(ctx.uid);
        }
      }
    }

    /** The first loop of `execute`. */
    method FlagPass(ctx: MessageContext, actions: seq<SieveAction>) returns (r: Outcome<CoreError>)
      modifies client`server, client`sent, client`fates, client`log
      ensures (client.View(), r) == Run(old(client.View()), client.About(ctx.uid), FlagCommands(actions))
    {
      ghost var subj := client.About(ctx.uid);
      r := Pass;
      var i := 0;
      while i < |actions|
        invariant 0 <= i <= |actions|
        invariant r == Pass
        invariant Run(client.View(), subj, FlagCommands(actions[i..])) ==
                  Run(old(client.View()), subj, FlagCommands(actions))
      {
        StepFlags(client.View(), subj, actions[i..]);
        assert actions[i..][1..] == actions[i + 1..];
        match actions[i] {
          case AddFlag(flags) =>
            r := client.UidStoreFlags(ctx.uid, Add, flags);
            if r.Fail? { return; }
          case RemoveFlag(flags) =>
            r := client.UidStoreFlags(ctx.uid, Remove, flags);
            if r.Fail? { return; }
          case SetFlag(flags) =>
            r := client.UidStoreFlags(ctx.uid, Set, flags);
            if r.Fail? { return; }
          case _ =>
        }
        i := i + 1;
      }
    }

    /** The second loop of `execute`. */
    method DispositionPass(ctx: MessageContext, actions: seq<SieveAction>)
      returns (r: Outcome<CoreError>, discarded: bool)
      modifies client`server, client`sent, client`fates, client`log
      ensures (client.View(), r) ==
              Run(old(client.View()), client.About(ctx.uid), DispositionCommands(caps, smtp, ctx, actions))
      ensures r.Pass? ==> discarded == Discards(actions)
    {
      ghost var subj := client.About(ctx.uid);
      r, discarded := Pass, false;
      var i := 0;
      while i < |actions|
        invariant 0 <= i <= |actions|
        invariant r == Pass && discarded == Discards(actions[..i])
        invariant Run(client.View(), subj, DispositionCommands(caps, smtp, ctx, actions[i..])) ==
                  Run(old(client.View()), subj, DispositionCommands(caps, smtp, ctx, actions))
      {
        assert actions[i..][1..] == actions[i + 1..];
        RunConcat(client.View(), subj, DispositionCommand(caps, smtp, ctx, actions[i]),
                  DispositionCommands(caps, smtp, ctx, actions[i + 1..]));
        DiscardsExtends(actions, i);
        r := Dispose(ctx, actions[i]);
        if r.Fail? { return; }
        discarded := discarded || actions[i].Discard? || actions[i].Reject?;
        i := i + 1;
      }
      assert actions[..i] == actions;
    }

    /** One turn of the disposition loop, the `discarded` mark apart. */
    method Dispose(ctx: MessageContext, a: SieveAction) returns (r: Outcome<CoreError>)
      modifies client`server, client`sent, client`fates, client`log
      ensures (client.View(), r) ==
              Run(old(client.View()), client.About(ctx.uid), DispositionCommand(caps, smtp, ctx, a))
    {
      ghost var subj := client.About(ctx.uid);
      r := Pass;
      match a
      case FileInto(mailbox, copy, create) =>
        ghost var tail := if copy then [Copy(mailbox)] else MoveCommands(caps, mailbox);
        RunCons(client.View(), subj, Create(mailbox), tail);
        RunOne(client.View(), subj, Copy(mailbox));
        assert [] + tail == tail;
        if create {
          var ignored := client.CreateMailbox(ctx.uid, mailbox);
          RunOne(client.View(), subj, Copy(mailbox));
        }
        if copy {
          r := client.UidCopy(ctx.uid, mailbox);
        } else {
          r := MoveWithFallback(client, caps, ctx.uid, mailbox);
        }
      case Redirect(addresses) =>
        if !smtp {
          RunOne(client.View(), subj, Abort(Smtp("redirect action requires SMTP configuration")));
          return Fail(Smtp("redirect action requires SMTP configuration"));
        }
        if ctx.content.raw.None? {
          RunOne(client.View(), subj, Abort(Smtp("redirect requires raw message body")));
          return Fail(Smtp("redirect requires raw message body"));
        }
        var mail := Redirected(EnvelopeFrom(ctx), addresses, ctx.content.raw.value);
        RunOne(client.View(), subj, Send(mail));
        r := client.SendMail(ctx.uid, mail);
      case Reject(reason) =>
        if !smtp {
          RunOne(client.View(), subj, Abort(Smtp("reject action requires SMTP configuration")));
          return Fail(Smtp("reject action requires SMTP configuration"));
        }
        if ctx.content.sender.None? {
          RunOne(client.View(), subj, Abort(Smtp("reject requires envelope-from")));
          return Fail(Smtp("reject requires envelope-from"));
        }
        var mail := Rejection(ctx.content.sender.value, reason);
        RunOne(client.View(), subj, Send(mail));
        r := client.SendMail(ctx.uid, mail);
      case _ =>
    }
  }

  lemma StepFlags(w: World, subj: Subject, actions: seq<SieveAction>)
    requires actions != []
    ensures var cmds := FlagCommand(actions[0]);
            Run(w, subj, FlagCommands(actions)) ==
            if cmds == [] then Run(w, subj, FlagCommands(actions[1..]))
            else
              var (w1, r) := Issue(w, subj, cmds[0]);
              if r.Fail? then (w1, r) else Run(w1, subj, FlagCommands(actions[1..]))
  {
    var cmds := FlagCommand(actions[0]);
    var tail := FlagCommands(actions[1..]);
    if cmds == [] {
      assert cmds + tail == tail;
    } else {
      assert cmds == [cmds[0]];
      RunCons(w, subj, cmds[0], tail);
    }
  }

  lemma DiscardsExtends(actions: seq<SieveAction>, i: nat)
    requires i < |actions|
    ensures Discards(actions[..i + 1]) == (Discards(actions[..i]) || actions[i].Discard? || actions[i].Reject?)
  {
    assert actions[..i + 1] == actions[..i] + [actions[i]];
    if Discards(actions[..i]) {
      var j :| 0 <= j < i && (actions[..i][j].Discard? || actions[..i][j].Reject?);
      assert actions[..i + 1][j] == actions[..i][j];
    }
    if actions[i].Discard? || actions[i].Reject? {
      assert actions[..i + 1][i] == actions[i];
    }
    if Discards(actions[..i + 1]) {
      var j :| 0 <= j < i + 1 && (actions[..i + 1][j].Discard? || actions[..i + 1][j].Reject?);
      if j < i { assert actions[..i][j] == actions[..i + 1][j]; }
    }
  }

  lemma DeletionUnfolds(w: World, subj: Subject, caps: Capabilities)
    ensures Run(w, subj, DeletionCommands(caps, true)) ==
            var (w1, r1) := Issue(w, subj, Store(Add, {DELETED}));
            if r1.Fail? || !caps.uidplus then (w1, r1) else Issue(w1, subj, Expunge)
  {
    var w1 := Issue(w, subj, Store(Add, {DELETED})).0;
    RunOne(w, subj, Store(Add, {DELETED}));
    RunOne(w1, subj, Expunge);
    RunCons(w, subj, Store(Add, {DELETED}), [Expunge]);
    assert [Store(Add, {DELETED})] + [Expunge] == [Store(Add, {DELETED}), Expunge];
  }
}
