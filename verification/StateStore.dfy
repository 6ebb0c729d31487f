/** The daemon's persistent state: a copy in memory and a file that is replaced whole. */
module StateStore {
  import opened Prelude
  import opened Types

  datatype State = State(selectedMailbox: Option<string>, uidvalidity: Option<nat>,
                         lastSeenUid: Option<nat>, highestmodseq: Option<nat>)

  const DEFAULT_STATE := State(None, None, None, None)

  /** A temporary file: what is written so far, and whether it reached the disk. */
  datatype Temp = Temp(contents: Option<State>, synced: bool)

  datatype Disk = Disk(file: Option<State>, temp: Option<Temp>)

  /** What `open` reads; a missing file is the default state. */
  function Opened(disk: Disk): State {
    match disk.file case None => DEFAULT_STATE case Some(s) => s
  }

  // The sub-steps of persist: serialise, create the temporary file, write, sync, rename.
  const PERSIST_STEPS: nat := 5

  /** The disk after the first `k` sub-steps of persisting `s`. */
  function AfterSteps(disk: Disk, s: State, k: nat): Disk {
    if k <= 1 then disk
    else if k == 2 then disk.(temp := Some(Temp(None, false)))
    else if k == 3 then disk.(temp := Some(Temp(Some(s), false)))
    else if k == 4 then disk.(temp := Some(Temp(Some(s), true)))
    else Disk(Some(s), None)
  }

  /** The disk after persisting `s` as far as `steps` sub-steps: a failure on the way
      drops the temporary file, and the old file stays. */
  function Persisted(disk: Disk, s: State, steps: nat): Disk {
    if PERSIST_STEPS <= steps then AfterSteps(disk, s, PERSIST_STEPS)
    else if steps < 2 then disk
    else Disk(disk.file, None)
  }

  class Store {
    var state: State
    var disk: Disk

    constructor Open(disk: Disk)
      ensures this.disk == disk && state == Opened(disk)
    {
      this.disk := disk;
      match disk.file {
        case Some(s) => state := s;
        case None => state := DEFAULT_STATE;
      }
    }

    /** Mutates the state in memory, then persists it; `steps` sub-steps of that succeed. */
    method Update(f: State -> State, steps: nat) returns (r: Outcome<CoreError>)
      modifies this
      ensures state == f(old(state))
      ensures r.Pass? <==> PERSIST_STEPS <= steps
      ensures r.Fail? ==> r.error.StateFailure?
      ensures disk == Persisted(old(disk), state, steps)
      ensures Both(state, disk) == Act(Both(old(state), old(disk)), Updates(f(old(state)), steps))
    {
      Mutate(f);
      r := Persist(steps);
    }

    method Mutate(f: State -> State)
      modifies this`state
      ensures state == f(old(state))
    {
      state := f(state);
    }

    method Persist(steps: nat) returns (r: Outcome<CoreError>)
      modifies this`disk
      ensures r.Pass? <==> PERSIST_STEPS <= steps
      ensures r.Fail? ==> r.error.StateFailure?
      ensures disk == Persisted(old(disk), state, steps)
    {
      if steps < 1 { return Fail(StateFailure("json error")); }
      if steps < 2 { return Fail(StateFailure("io error")); }
      disk := disk.(temp := Some(Temp(None, false)));
      if steps < 3 { disk := disk.(temp := None); return Fail(StateFailure("io error")); }
      disk := disk.(temp := Some(Temp(Some(state), false)));
      if steps < 4 { disk := disk.(temp := None); return Fail(StateFailure("io error")); }
      disk := disk.(temp := Some(Temp(Some(state), true)));
      if steps < 5 { disk := disk.(temp := None); return Fail(StateFailure("io error")); }
      disk := Disk(disk.temp.value.contents, None);
      r := Pass;
    }
  }

  // ---------- crashes ----------

  /** One call of `update`, or a crash in the middle of one followed by `open`. */
  datatype Action =
    | Updates(next: State, steps: nat)
    | CrashesDuring(next: State, steps: nat)

  datatype Both = Both(memory: State, disk: Disk)

  function Act(b: Both, a: Action): Both {
    match a
    case Updates(next, steps) =>
      Both(next, Persisted(b.disk, next, steps))
    case CrashesDuring(next, steps) =>
      var disk := AfterSteps(b.disk, next, steps);
      Both(Opened(disk), disk)
  }

  function ActAll(b: Both, actions: seq<Action>): Both {
    if actions == [] then b else Act(ActAll(b, actions[..|actions| - 1]), actions[|actions| - 1])
  }

  /** The state an action puts in memory before it persists it. */
  function Memory(b: Both, actions: seq<Action>, i: nat): State
    requires i <= |actions|
  {
    if i == 0 then b.memory else actions[i - 1].next
  }

  predicate Renames(a: Action) {
    PERSIST_STEPS <= a.steps
  }

  /** The last action that got as far as the rename; 0 when none did. */
  function LastRename(actions: seq<Action>): (i: nat)
    ensures i <= |actions|
    ensures i > 0 ==> Renames(actions[i - 1])
    ensures forall j :: i <= j < |actions| ==> !Renames(actions[j])
  {
    if actions == [] then 0
    else if Renames(actions[|actions| - 1]) then |actions|
    else
      var init := actions[..|actions| - 1];
      assert forall j :: 0 <= j < |init| ==> init[j] == actions[j];
      LastRename(init)
  }

  /** However updates fail and wherever crashes fall, reopening yields exactly the state
      that was in memory at the last rename, or the state first loaded. */
  lemma {:induction false} ReopenYieldsLastRenamed(b: Both, actions: seq<Action>)
    requires b.memory == Opened(b.disk)
    ensures Opened(ActAll(b, actions).disk) == Memory(b, actions, LastRename(actions))
  {
    if actions != [] {
      ReopenYieldsLastRenamed(b, actions[..|actions| - 1]);
    }
  }

  /** `s` records at least the progress that `t` does. */
  predicate NotBehind(s: State, t: State) {
    t.lastSeenUid.Some? ==> s.lastSeenUid.Some? && t.lastSeenUid.value <= s.lastSeenUid.value
  }

  /** Updates that never lower the counter keep memory level with the file or ahead of
      it; after a failed update memory holds the new state and the file the old one. */
  lemma {:induction false} MemoryNeverBehind(b: Both, actions: seq<Action>)
    requires b.memory == Opened(b.disk)
    requires forall i :: 0 <= i < |actions| ==> NotBehind(actions[i].next, ActAll(b, actions[..i]).memory)
    ensures var e := ActAll(b, actions);
            && NotBehind(e.memory, Opened(e.disk))
            && (actions != [] && actions[|actions| - 1].Updates? ==> e.memory == actions[|actions| - 1].next)
  {
    if actions != [] {
      var init := actions[..|actions| - 1];
      forall i | 0 <= i < |init| ensures NotBehind(init[i].next, ActAll(b, init[..i]).memory) {
        assert init[..i] == actions[..i] && init[i] == actions[i];
      }
      MemoryNeverBehind(b, init);
    }
  }
}
