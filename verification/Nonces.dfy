/**
 * Nonce assignment in device/send.go and its interplay with ExpireCurrentKeypairs of
 * device/peer.go: any number of senders bump one atomic 64-bit counter and, past the limit,
 * set it back in a second step. RejectAfterMessages leaves a slack of 2^13 for those caught
 * between the two.
 */
module Nonces {
  import opened Bytes

  const SLACK: nat := 0x2000
  const REJECT_AFTER_MESSAGES: nat := 0xFFFF_FFFF_FFFF_DFFF

  /** `pending` are the senders between Add and Store; `used` are the nonces packets got. */
  datatype State = State(sendNonce: nat, pending: set<nat>, used: seq<nat>)

  datatype Step = Add(sender: nat) | Store(sender: nat) | Expire

  predicate Enabled(s: State, step: Step) {
    match step
    case Add(i) => i !in s.pending
    case Store(i) => i in s.pending
    case Expire => true
  }

  function Do(s: State, step: Step): State {
    match step
    case Add(i) =>
      var nonce := s.sendNonce;
      var next := (s.sendNonce + 1) % TWO64;
      if nonce >= REJECT_AFTER_MESSAGES then State(next, s.pending + {i}, s.used)
          else State(next, s.pending, s.used + [nonce])
    case Store(i) => State(REJECT_AFTER_MESSAGES, s.pending - {i}, s.used)
    case Expire => s.(sendNonce := REJECT_AFTER_MESSAGES)
  }

  /** The states that a fresh keypair passes through. */
  ghost predicate IsRun(states: seq<State>, steps: seq<Step>) {
    && |states| == |steps| + 1 && states[0] == State(0, {}, [])
    && forall k :: 0 <= k < |steps| ==> Enabled(states[k], steps[k]) && states[k + 1] == Do(states[k], steps[k])
  }

  ghost predicate Within(states: seq<State>, bound: nat) {
    forall k :: 0 <= k < |states| ==> |states[k].pending| <= bound
  }

  predicate Increasing(used: seq<nat>) {
    forall a, b :: 0 <= a < b < |used| ==> used[a] < used[b]
  }

  predicate Distinct(used: seq<nat>) {
    forall a, b :: 0 <= a < b < |used| ==> used[a] != used[b]
  }

  /** The counter exceeds the limit by no more than the senders still to set it back. */
  ghost predicate Safe(s: State) {
    && s.sendNonce <= REJECT_AFTER_MESSAGES + |s.pending| && Increasing(s.used)
    && forall n :: n in s.used ==> n < s.sendNonce && n < REJECT_AFTER_MESSAGES
  }

  lemma StepKeepsSafe(s: State, step: Step)
    requires Safe(s) && Enabled(s, step) && |Do(s, step).pending| <= SLACK
    ensures Safe(Do(s, step))
    ensures step.Add? ==> Do(s, step).sendNonce == s.sendNonce + 1
  {
    if step.Add? {
      assert |s.pending + {step.sender}| == |s.pending| + 1;
      forall a | 0 <= a < |s.used| ensures s.used[a] < s.sendNonce { assert s.used[a] in s.used; }
    }
    if step.Store? { assert |s.pending - {step.sender}| == |s.pending| - 1; }
  }

  lemma {:induction false} RunIsSafe(states: seq<State>, steps: seq<Step>, k: nat)
    requires IsRun(states, steps) && Within(states, SLACK) && k < |states|
    ensures Safe(states[k])
  {
    if k > 0 {
      RunIsSafe(states, steps, k - 1);
      StepKeepsSafe(states[k - 1], steps[k - 1]);
    }
  }

  /**
   * In every run with at most 2^13 senders between Add and Store: the counter never wraps,
   * and the nonces used are below the limit and strictly increasing, hence never repeated.
   */
  lemma NoncesAreFresh(states: seq<State>, steps: seq<Step>, k: nat)
    requires IsRun(states, steps) && Within(states, SLACK) && k < |states|
    ensures Increasing(states[k].used) && forall n :: n in states[k].used ==> n < REJECT_AFTER_MESSAGES
    ensures k < |steps| && steps[k].Add? ==> states[k + 1].sendNonce == states[k].sendNonce + 1
  {
    RunIsSafe(states, steps, k);
    if k < |steps| {
      assert states[k + 1] == Do(states[k], steps[k]);
      StepKeepsSafe(states[k], steps[k]);
    }
  }

  // ---------- the slack is exact ----------

  function Senders(n: nat): (r: set<nat>)
    ensures |r| == n && forall i :: i in r <==> 0 <= i < n
  {
    if n == 0 then {} else Senders(n - 1) + {n - 1}
  }

  lemma Extend(states: seq<State>, steps: seq<Step>, step: Step, bound: nat)
    returns (states': seq<State>, steps': seq<Step>)
    requires IsRun(states, steps) && Within(states, bound) && Enabled(states[|states| - 1], step)
    requires |Do(states[|states| - 1], step).pending| <= bound
    ensures IsRun(states', steps') && Within(states', bound)
    ensures states'[|states'| - 1] == Do(states[|states| - 1], step)
  {
    states', steps' := states + [Do(states[|states| - 1], step)], steps + [step];
  }

  lemma FloodStep(n: nat)
    requires 0 < n <= SLACK + 1
    ensures Flooded(n) == Do(Flooded(n - 1), Add(n - 1)) && Enabled(Flooded(n - 1), Add(n - 1))
  {
    BelowWrap(REJECT_AFTER_MESSAGES + n - 1);
    assert Flooded(n - 1) == State(REJECT_AFTER_MESSAGES + n - 1, Senders(n - 1), [0]);
    AddStuck(State(REJECT_AFTER_MESSAGES + n - 1, Senders(n - 1), [0]), n - 1);
  }

  lemma BelowWrap(x: nat)
    requires x < TWO64
    ensures x % TWO64 == x
  {
  }

  lemma AddStuck(s: State, i: nat)
    requires s.sendNonce >= REJECT_AFTER_MESSAGES
    ensures Do(s, Add(i)) == State((s.sendNonce + 1) % TWO64, s.pending + {i}, s.used)
  {
  }

  /** One nonce used, the key expired, and n senders stuck before their Store. */
  function Flooded(n: nat): State {
    State((REJECT_AFTER_MESSAGES + n) % TWO64, Senders(n), [0])
  }

  lemma {:induction false} Flood(n: nat, bound: nat) returns (states: seq<State>, steps: seq<Step>)
    requires n <= SLACK + 1 && n <= bound
    ensures IsRun(states, steps) && Within(states, bound) && states[|states| - 1] == Flooded(n)
  {
    if n == 0 {
      states, steps := [State(0, {}, [])], [];
      states, steps := Extend(states, steps, Add(0), bound);
      states, steps := Extend(states, steps, Expire, bound);
    } else {
      states, steps := Flood(n - 1, bound);
      FloodStep(n);
      states, steps := Extend(states, steps, Add(n - 1), bound);
    }
  }

  ghost predicate NeverReuses(bound: nat) {
    forall states: seq<State>, steps: seq<Step> :: IsRun(states, steps) && Within(states, bound)
                                                   ==> Distinct(states[|states| - 1].used)
  }

  /** With one sender too many the counter wraps, and the next nonce is 0 once more. */
  lemma FloodReuses(bound: nat)
    requires bound > SLACK
    ensures !NeverReuses(bound)
  {
    var states, steps := Flood(SLACK + 1, bound);
    var last := Flooded(SLACK + 1);
    var states', steps' := Extend(states, steps, Add(SLACK + 1), bound);
    var used := states'[|states'| - 1].used;
    assert used == [0] + [0];
    assert used[0] == used[1];
  }

  /** No nonce is used twice, whatever the interleaving, exactly when the slack covers the senders. */
  lemma SlackIsExact(bound: nat)
    ensures NeverReuses(bound) <==> bound <= SLACK
  {
    if bound > SLACK {
      FloodReuses(bound);
    } else {
      forall states: seq<State>, steps: seq<Step> | IsRun(states, steps) && Within(states, bound)
          ensures Distinct(states[|states| - 1].used) {
        RunIsSafe(states, steps, |states| - 1);
      }
    }
  }

  // ---------- no nonce is left out ----------

  /** While only Adds happen, and fewer than the limit: every nonce from 0 on is used, in order. */
  lemma {:induction false} EveryNonceIsUsed(states: seq<State>, steps: seq<Step>, k: nat)
    requires IsRun(states, steps) && k < |states| && k <= REJECT_AFTER_MESSAGES
    requires forall i :: 0 <= i < k ==> steps[i].Add?
    ensures states[k] == State(k, {}, states[k].used) && |states[k].used| == k
    ensures forall i :: 0 <= i < k ==> states[k].used[i] == i
  {
    if k > 0 {
      EveryNonceIsUsed(states, steps, k - 1);
      assert states[k - 1 + 1] == Do(states[k - 1], steps[k - 1]);
      BelowWrap(k);
    }
  }

  /** In a run within the slack, no nonce is used once the keypair has been expired or a sender has hit the limit. */
  lemma {:induction false} SpentStaysSpent(states: seq<State>, steps: seq<Step>, j: nat, k: nat)
    requires IsRun(states, steps) && Within(states, SLACK) && j < k < |states|
    requires steps[j].Expire? || (steps[j].Add? && states[j].sendNonce >= REJECT_AFTER_MESSAGES)
    ensures states[k].sendNonce >= REJECT_AFTER_MESSAGES && states[k].used == states[j].used
  {
    RunIsSafe(states, steps, k - 1);
    assert Enabled(states[k - 1], steps[k - 1]) && states[k - 1 + 1] == Do(states[k - 1], steps[k - 1]);
    StepKeepsSafe(states[k - 1], steps[k - 1]);
    if j < k - 1 { SpentStaysSpent(states, steps, j, k - 1); }
  }
}
