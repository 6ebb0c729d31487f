/** From the event stream of the Sieve runtime to a list of actions.

    The runtime itself is not modelled: a run is any finite list of events, ended
    either normally or by an error. */
module SieveEngine {
  import opened Prelude
  import opened MailStore
  import opened Types

  datatype Recipient = Address(address: string) | Unsupported

  datatype Event =
    | IncludeScript
    | KeepEvent(flags: set<string>)
    | DiscardEvent
    | FileIntoEvent(folder: string, flags: set<string>, create: bool)
    | SendMessage(recipient: Recipient)
    | RejectEvent(reason: string)
    | FunctionCall(id: string, arguments: seq<string>)
    | OtherEvent

  /** What `instance.run` returns, call after call. */
  type RuntimeRun = seq<Result<Event, string>>

  // ---------- specification ----------

  function SetFlags(flags: set<string>): seq<SieveAction> {
    if flags == {} then [] else [SetFlag(flags)]
  }

  function Translate(e: Event): seq<SieveAction> {
    match e
    case KeepEvent(flags) => SetFlags(flags) + [Keep]
    case DiscardEvent => [Discard]
    case FileIntoEvent(folder, flags, create) => SetFlags(flags) + [FileInto(folder, false, create)]
    case SendMessage(Address(a)) => [Redirect([a])]
    case SendMessage(Unsupported) => []
    case RejectEvent(reason) => [Reject(reason)]
    case FunctionCall(id, arguments) => [Execute(id, arguments)]
    case IncludeScript => []
    case OtherEvent => []
  }

  function TranslateAll(events: seq<Event>): seq<SieveAction> {
    if events == [] then [] else Translate(events[0]) + TranslateAll(events[1..])
  }

  predicate Completed(run: RuntimeRun) {
    forall i :: 0 <= i < |run| ==> run[i].Success?
  }

  function Events(run: RuntimeRun): seq<Event>
    requires Completed(run)
  {
    if run == [] then [] else [run[0].value] + Events(run[1..])
  }

  predicate Disposes(a: SieveAction) {
    a.Keep? || a.Discard? || a.FileInto? || a.Redirect? || a.Reject?
  }

  predicate Touched(actions: seq<SieveAction>) {
    exists i :: 0 <= i < |actions| && Disposes(actions[i])
  }

  predicate HasKeep(actions: seq<SieveAction>) {
    exists i :: 0 <= i < |actions| && actions[i].Keep?
  }

  predicate HasFileInto(actions: seq<SieveAction>) {
    exists i :: 0 <= i < |actions| && actions[i].FileInto?
  }

  function AsCopy(a: SieveAction): SieveAction {
    if a.FileInto? then a.(copy := true) else a
  }

  /** Every FileInto becomes a copy, and the Keeps are dropped. */
  function CopiesOnly(actions: seq<SieveAction>): seq<SieveAction> {
    if actions == [] then []
    else (if actions[0].Keep? then [] else [AsCopy(actions[0])]) + CopiesOnly(actions[1..])
  }

  function ImplicitKeep(actions: seq<SieveAction>): seq<SieveAction> {
    if Touched(actions) then actions else actions + [Keep]
  }

  function Normalised(actions: seq<SieveAction>): seq<SieveAction> {
    var kept := ImplicitKeep(actions);
    if HasFileInto(kept) && HasKeep(kept) then CopiesOnly(kept) else kept
  }

  /** `evaluate` on a message with these contents and a runtime that runs so. */
  function Evaluation(content: Content, run: RuntimeRun): Result<seq<SieveAction>, string> {
    if content.raw.None? then Failure("MessageContext.raw is required")
    else if Completed(run) then Success(Normalised(TranslateAll(Events(run))))
    else FirstError(run)
  }

  function FirstError(run: RuntimeRun): (r: Result<seq<SieveAction>, string>)
    requires !Completed(run)
    ensures r.Failure?
  {
    if run[0].Failure? then Failure(run[0].error) else FirstError(run[1..])
  }

  // ---------- the engine ----------

  method Evaluate(ctx: MessageContext, run: RuntimeRun) returns (r: Result<seq<SieveAction>, string>)
    ensures r == Evaluation(ctx.content, run)
  {
    if ctx.content.raw.None? {
      return Failure("MessageContext.raw is required");
    }
    var actions: seq<SieveAction> := [];
    var next := 0;
    while next < |run|
      invariant 0 <= next <= |run|
      invariant Completed(run[..next])
      invariant actions == TranslateAll(Events(run[..next]))
    {
      EventsExtend(run, next);
      match run[next] {
        case Failure(e) =>
          FirstErrorAt(run, next);
          return Failure(e);
        case Success(event) =>
          actions := Push(actions, event);
      }
      next := next + 1;
    }
    assert run[..next] == run;

    if !Touched(actions) {
      actions := actions + [Keep];
    }
    if HasFileInto(actions) && HasKeep(actions) {
      actions := KeepCopies(actions);
    }
    r := Success(actions);
  }

  /** The arm of the event loop for one event. */
  method Push(actions: seq<SieveAction>, event: Event) returns (pushed: seq<SieveAction>)
    ensures pushed == actions + Translate(event)
  {
    pushed := actions;
    match event {
      case IncludeScript =>
      case KeepEvent(flags) =>
        if flags != {} {
          pushed := pushed + [SetFlag(flags)];
        }
        pushed := pushed + [Keep];
      case DiscardEvent =>
        pushed := pushed + [Discard];
      case FileIntoEvent(folder, flags, create) =>
        if flags != {} {
          pushed := pushed + [SetFlag(flags)];
        }
        pushed := pushed + [FileInto(folder, false, create)];
      case SendMessage(recipient) =>
        match recipient {
          case Address(a) => pushed := pushed + [Redirect([a])];
          case Unsupported =>
        }
      case RejectEvent(reason) =>
        pushed := pushed + [Reject(reason)];
      case FunctionCall(id, arguments) =>
        pushed := pushed + [Execute(id, arguments)];
      case OtherEvent =>
    }
  }

  /** The `iter_mut` pass that sets `copy`, then the `retain` pass that drops Keep. */
  method KeepCopies(original: seq<SieveAction>) returns (actions: seq<SieveAction>)
    ensures actions == CopiesOnly(original)
  {
    actions := original;
    var i := 0;
    while i < |actions|
      invariant 0 <= i <= |actions| == |original|
      invariant forall j :: 0 <= j < i ==> actions[j] == AsCopy(original[j])
      invariant forall j :: i <= j < |actions| ==> actions[j] == original[j]
    {
      if actions[i].FileInto? {
        actions := actions[i := actions[i].(copy := true)];
      }
      i := i + 1;
    }
    var retained: seq<SieveAction> := [];
    i := 0;
    assert original[..0] == [];
    while i < |actions|
      invariant 0 <= i <= |actions|
      invariant retained == CopiesOnly(original[..i])
    {
      assert original[..i + 1] == original[..i] + [original[i]];
      CopiesOnlyConcat(original[..i], [original[i]]);
      if !actions[i].Keep? {
        retained := retained + [actions[i]];
      }
      i := i + 1;
    }
    assert original[..i] == original;
    actions := retained;
  }

  lemma {:induction false} TranslateAllConcat(a: seq<Event>, b: seq<Event>)
    ensures TranslateAll(a + b) == TranslateAll(a) + TranslateAll(b)
  {
    if a == [] {
      assert a + b == b;
    } else {
      assert (a + b)[0] == a[0] && (a + b)[1..] == a[1..] + b;
      TranslateAllConcat(a[1..], b);
    }
  }

  lemma {:induction false} CopiesOnlyConcat(a: seq<SieveAction>, b: seq<SieveAction>)
    ensures CopiesOnly(a + b) == CopiesOnly(a) + CopiesOnly(b)
  {
    if a == [] {
      assert a + b == b;
    } else {
      assert (a + b)[0] == a[0] && (a + b)[1..] == a[1..] + b;
      CopiesOnlyConcat(a[1..], b);
    }
  }

  lemma {:induction false} EventsConcat(a: RuntimeRun, e: Event)
    requires Completed(a)
    ensures Completed(a + [Success(e)]) && Events(a + [Success(e)]) == Events(a) + [e]
  {
    var run := a + [Success(e)];
    if a == [] {
      assert run[1..] == [];
    } else {
      assert run[0] == a[0] && run[1..] == a[1..] + [Success(e)];
      EventsConcat(a[1..], e);
    }
  }

  lemma EventsExtend(run: RuntimeRun, n: nat)
    requires n < |run| && Completed(run[..n])
    ensures run[n].Success? ==>
              && Completed(run[..n + 1])
              && TranslateAll(Events(run[..n + 1])) == TranslateAll(Events(run[..n])) + Translate(run[n].value)
  {
    if run[n].Success? {
      assert run[..n + 1] == run[..n] + [Success(run[n].value)];
      EventsConcat(run[..n], run[n].value);
      TranslateAllConcat(Events(run[..n]), [run[n].value]);
      assert TranslateAll([run[n].value]) == Translate(run[n].value) + TranslateAll([run[n].value][1..]);
    }
  }

  lemma {:induction false} FirstErrorAt(run: RuntimeRun, n: nat)
    requires n < |run| && Completed(run[..n]) && run[n].Failure?
    ensures !Completed(run) && FirstError(run) == Failure(run[n].error)
  {
    if n > 0 {
      assert run[0] == run[..n][0];
      assert run[1..][..n - 1] == run[..n][1..];
      FirstErrorAt(run[1..], n - 1);
    }
  }
}
