/**
 * Timer cancellation in device/timers.go, over every interleaving of expiries, of callbacks
 * that may set their own timer again, and of any number of calls of DelSync. What the code
 * does under `modifyingLock` is one step; `runningLock` is a field here.
 */
module Timers {
  import opened Options

  /** Where a callback is: started, in the lock, past the pending check, on its way out. */
  datatype Phase = Waiting | Locked | Body | Leaving

  /** Where a DelSync is: after its first Del, in the lock, after its second Del, returned. */
  datatype Sync = Deleted | Locking | DeletedAgain | Returned

  datatype Holder = Callback(id: nat) | Syncer(id: nat)

  /** `armed`: the runtime timer will fire. Each DelSync has a number of its own. */
  datatype State = State(isPending: bool, armed: bool, callbacks: map<nat, Phase>, lock: Option<Holder>,
        syncs: map<nat, Sync>)

  datatype Step =
    | Fire(id: nat) | Lock(id: nat) | Check(id: nat) | ModInside(id: nat) | Finish(id: nat) | Unlock(id: nat)
    | ModOutside | DelOutside
    | BeginDelSync(id: nat) | LockDelSync(id: nat) | DelAgain(id: nat) | UnlockDelSync(id: nat)

  predicate In(s: State, id: nat, phase: Phase) {
    id in s.callbacks && s.callbacks[id] == phase
  }

  predicate At(s: State, id: nat, sync: Sync) {
    id in s.syncs && s.syncs[id] == sync
  }

  predicate Enabled(s: State, step: Step) {
    match step
    case Fire(id) => s.armed && id !in s.callbacks
    case Lock(id) => In(s, id, Waiting) && s.lock.None?
    case Check(id) => In(s, id, Locked)
    case ModInside(id) => In(s, id, Body)
    case Finish(id) => In(s, id, Body)
    case Unlock(id) => In(s, id, Leaving)
    case ModOutside => true
    case DelOutside => true
    case BeginDelSync(id) => id !in s.syncs
    case LockDelSync(id) => At(s, id, Deleted) && s.lock.None?
    case DelAgain(id) => At(s, id, Locking)
    case UnlockDelSync(id) => At(s, id, DeletedAgain)
  }

  function Mod(s: State): State { s.(isPending := true, armed := true) }

  function Del(s: State): State { s.(isPending := false, armed := false) }

  function Move(s: State, id: nat, phase: Phase): State { s.(callbacks := s.callbacks[id := phase]) }

  function Go(s: State, id: nat, sync: Sync): State { s.(syncs := s.syncs[id := sync]) }

  function Do(s: State, step: Step): State {
    match step
    case Fire(id) => Move(s.(armed := false), id, Waiting)
    case Lock(id) => Move(s.(lock := Some(Callback(id))), id, Locked)
    case Check(id) => if s.isPending then Move(s.(isPending := false), id, Body) else Move(s, id, Leaving)
    case ModInside(_) => Mod(s)
    case Finish(id) => Move(s, id, Leaving)
    case Unlock(id) => s.(callbacks := s.callbacks - {id}, lock := None)
    case ModOutside => Mod(s)
    case DelOutside => Del(s)
    case BeginDelSync(id) => Go(Del(s), id, Deleted)
    case LockDelSync(id) => Go(s.(lock := Some(Syncer(id))), id, Locking)
    case DelAgain(id) => Go(Del(s), id, DeletedAgain)
    case UnlockDelSync(id) => Go(s.(lock := None), id, Returned)
  }

  const INITIAL: State := State(false, false, map[], None, map[])

  ghost predicate IsRun(states: seq<State>, steps: seq<Step>) {
    && |states| == |steps| + 1 && states[0] == INITIAL
    && forall k :: 0 <= k < |steps| ==> Enabled(states[k], steps[k]) && states[k + 1] == Do(states[k], steps[k])
  }

  /** From step b to step k only the timer's own callback sets the timer. */
  ghost predicate NoModOutside(steps: seq<Step>, b: nat, k: nat) {
    forall i :: b <= i < k && i < |steps| ==> steps[i] != ModOutside
  }

  // ---------- what every step keeps ----------

  /** A callback past its lock is the holder. */
  predicate HolderOk(s: State, id: nat) {
    id in s.callbacks && s.callbacks[id] != Waiting ==> s.lock == Some(Callback(id))
  }

  /** And so is a DelSync between its lock and its unlock. */
  predicate SyncerOk(s: State, id: nat) {
    At(s, id, Locking) || At(s, id, DeletedAgain) ==> s.lock == Some(Syncer(id))
  }

  ghost predicate Inv(s: State) {
    (forall id :: HolderOk(s, id)) && forall id :: SyncerOk(s, id)
  }

  /** Not pending, not armed, and no expiry body is running. */
  ghost predicate Quiet(s: State) {
    !s.isPending && !s.armed && forall id :: !In(s, id, Body)
  }

  /** DelSync `c` has done its second Del. */
  predicate Past(s: State, c: nat) {
    At(s, c, DeletedAgain) || At(s, c, Returned)
  }

  lemma StepKeeps(s: State, step: Step)
    requires Inv(s) && Enabled(s, step)
    ensures Inv(Do(s, step))
  {
    var t := Do(s, step);
    if step.Lock? || step.Check? || step.Unlock? || step.Finish? || step.ModInside? { assert HolderOk(s, step.id); }
    if step.LockDelSync? || step.DelAgain? || step.UnlockDelSync? { assert SyncerOk(s, step.id); }
    forall id ensures HolderOk(t, id) { assert HolderOk(s, id); }
    forall id ensures SyncerOk(t, id) { assert SyncerOk(s, id); }
  }

  /** Once `c` is past its second Del, or with that Del itself, nothing but an outside Mod disturbs. */
  lemma StepStaysQuiet(s: State, step: Step, c: nat)
    requires Inv(s) && Enabled(s, step) && step != ModOutside && (Past(s, c) ==> Quiet(s))
    ensures Past(Do(s, step), c) ==> Quiet(Do(s, step))
  {
    var t := Do(s, step);
    if Past(t, c) {
      assert SyncerOk(s, c);
      forall id ensures !In(t, id, Body) { assert HolderOk(s, id) && (Past(s, c) ==> !In(s, id, Body)); }
    }
  }

  lemma {:induction false} RunKeeps(states: seq<State>, steps: seq<Step>, k: nat)
    requires IsRun(states, steps) && k < |states|
    ensures Inv(states[k])
  {
    if k > 0 {
      RunKeeps(states, steps, k - 1);
      StepKeeps(states[k - 1], steps[k - 1]);
      assert states[k - 1 + 1] == Do(states[k - 1], steps[k - 1]);
    } else {
      forall id ensures HolderOk(states[0], id) && SyncerOk(states[0], id) {}
    }
  }

  lemma {:induction false} RunStaysQuiet(states: seq<State>, steps: seq<Step>, c: nat, b: nat, k: nat)
    requires IsRun(states, steps) && b <= k < |states| && NoModOutside(steps, b, k)
    requires Past(states[b], c) ==> Quiet(states[b])
    ensures Past(states[k], c) ==> Quiet(states[k])
  {
    if b < k {
      RunStaysQuiet(states, steps, c, b, k - 1);
      RunKeeps(states, steps, k - 1);
      StepStaysQuiet(states[k - 1], steps[k - 1], c);
      assert states[k - 1 + 1] == Do(states[k - 1], steps[k - 1]);
    }
  }

  lemma StaysReturned(s: State, step: Step, c: nat)
    requires Enabled(s, step) && At(s, c, Returned)
    ensures At(Do(s, step), c, Returned)
  {
  }

  lemma {:induction false} ReturnedStays(states: seq<State>, steps: seq<Step>, c: nat, j: nat, k: nat)
    requires IsRun(states, steps) && j <= k < |states| && At(states[j], c, Returned)
    ensures At(states[k], c, Returned)
  {
    if j < k {
      ReturnedStays(states, steps, c, j, k - 1);
      assert Enabled(states[k - 1], steps[k - 1]) && states[k - 1 + 1] == Do(states[k - 1], steps[k - 1]);
      StaysReturned(states[k - 1], steps[k - 1], c);
    }
  }

  /**
   * For every one of the DelSync calls of a run, however they overlap and whatever was set
   * before and between them: when it has returned, then and until the next outside Mod, if
   * there was none since it began, the timer is neither pending nor armed, no expiry body
   * runs, and none starts.
   */
  lemma DelSyncIsFinal(states: seq<State>, steps: seq<Step>, c: nat, b: nat, j: nat, k: nat)
    requires IsRun(states, steps) && b < j <= k < |states| && steps[b] == BeginDelSync(c)
    requires At(states[j], c, Returned) && NoModOutside(steps, b, k)
    ensures Quiet(states[k])
    ensures k < |steps| && steps[k].Check? ==> !In(states[k + 1], steps[k].id, Body)
  {
    ReturnedStays(states, steps, c, j, k);
    assert Enabled(states[b], steps[b]);
    RunStaysQuiet(states, steps, c, b, k);
    if k < |steps| { assert Enabled(states[k], steps[k]) && states[k + 1] == Do(states[k], steps[k]); }
  }

  // ---------- an expiry body for each time the timer was set ----------

  predicate Sets(step: Step) { step == ModOutside || step.ModInside? }

  predicate Cancels(step: Step) { step == DelOutside || step.BeginDelSync? || step.DelAgain? }

  /** An expiry body begins. */
  predicate Begins(s: State, step: Step) { step.Check? && s.isPending }

  /** Neither set, cancelled nor begun from step j to step k. */
  ghost predicate Untouched(states: seq<State>, steps: seq<Step>, j: nat, k: nat) {
    forall i :: j <= i < k && i < |steps| && i < |states|
                ==> !Sets(steps[i]) && !Cancels(steps[i]) && !Begins(states[i], steps[i])
  }

  lemma {:induction false} PendingStays(states: seq<State>, steps: seq<Step>, j: nat, k: nat)
    requires IsRun(states, steps) && j <= k < |states| && Untouched(states, steps, j, k)
    ensures states[k].isPending == states[j].isPending
  {
    if j < k {
      PendingStays(states, steps, j, k - 1);
      assert states[k - 1 + 1] == Do(states[k - 1], steps[k - 1]);
    }
  }

  /** The last thing that happened to the timer decides whether the next callback runs its body. */
  lemma BodyRunsIff(states: seq<State>, steps: seq<Step>, j: nat, k: nat)
    requires IsRun(states, steps) && j < k < |steps| && steps[k].Check? && Untouched(states, steps, j + 1, k)
    requires Sets(steps[j]) || Cancels(steps[j]) || Begins(states[j], steps[j])
    ensures In(states[k + 1], steps[k].id, Body) <==> Sets(steps[j])
  {
    assert states[j + 1] == Do(states[j], steps[j]) && states[k + 1] == Do(states[k], steps[k]);
    PendingStays(states, steps, j + 1, k);
  }

  // ---------- the second Del and the condition are needed ----------

  lemma Extend(states: seq<State>, steps: seq<Step>, step: Step) returns (states': seq<State>, steps': seq<Step>)
    requires IsRun(states, steps) && Enabled(states[|states| - 1], step)
    ensures IsRun(states', steps') && states'[|states'| - 1] == Do(states[|states| - 1], step)
    ensures steps' == steps + [step]
  {
    states', steps' := states + [Do(states[|states| - 1], step)], steps + [step];
  }

  /** An expiry body is running when DelSync begins. */
  lemma BodyRunning() returns (states: seq<State>, steps: seq<Step>)
    ensures IsRun(states, steps) && steps == [ModOutside, Fire(0), Lock(0), Check(0), BeginDelSync(0)]
    ensures states[|states| - 1] == State(false, false, map[0 := Body], Some(Callback(0)), map[0 := Deleted])
  {
    states, steps := [INITIAL], [];
    states, steps := Extend(states, steps, ModOutside);
    states, steps := Extend(states, steps, Fire(0));
    states, steps := Extend(states, steps, Lock(0));
    states, steps := Extend(states, steps, Check(0));
    states, steps := Extend(states, steps, BeginDelSync(0));
  }

  /** It may set the timer again: without the second Del the timer would stay set. */
  lemma SecondDelIsNeeded() returns (states: seq<State>, steps: seq<Step>)
    ensures IsRun(states, steps) && |steps| == 9 && steps[4] == BeginDelSync(0) && NoModOutside(steps, 4, 9)
    ensures At(states[9], 0, Locking) && states[9].isPending && states[9].armed
  {
    states, steps := BodyRunning();
    states, steps := Extend(states, steps, ModInside(0));
    states, steps := Extend(states, steps, Finish(0));
    states, steps := Extend(states, steps, Unlock(0));
    states, steps := Extend(states, steps, LockDelSync(0));
  }

  /** One outside Mod while DelSync runs, and the timer is set when it has returned. */
  lemma ConditionIsNeeded() returns (states: seq<State>, steps: seq<Step>)
    ensures IsRun(states, steps)
    ensures steps == [BeginDelSync(0), LockDelSync(0), DelAgain(0), ModOutside, UnlockDelSync(0)]
    ensures At(states[5], 0, Returned) && states[5].isPending && states[5].armed && !Quiet(states[5])
  {
    states, steps := [INITIAL], [];
    states, steps := Extend(states, steps, BeginDelSync(0));
    states, steps := Extend(states, steps, LockDelSync(0));
    states, steps := Extend(states, steps, DelAgain(0));
    states, steps := Extend(states, steps, ModOutside);
    states, steps := Extend(states, steps, UnlockDelSync(0));
  }
}
