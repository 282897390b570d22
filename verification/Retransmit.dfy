/**
 * How often a handshake is retried: expiredRetransmitHandshake and timersHandshakeComplete of
 * device/timers.go with SendHandshakeInitiation and SendHandshakeResponse of device/send.go,
 * over every run. Times are milliseconds.
 */
module Retransmit {
  import opened Options

  const MAX_TIMER_HANDSHAKES: nat := 18
  const REKEY_TIMEOUT: int := 5_000
  const REKEY_TIMEOUT_JITTER_MAX: int := 334

  /** `deadline` is when the retransmission timer expires; `sent` are the times of the initiations so far. */
  datatype State = State(clock: int, attempts: nat, lastSent: int, deadline: Option<int>, sent: seq<int>)

  /**
   * Something wants a new key (a packet without one, a key too old or a silent peer); the timer
   * expires; a response is sent; a handshake is complete. `made`: the message could be made;
   * `active`: the peer's timers are.
   */
  datatype Step =
    | Request(now: int, jitter: int, made: bool, active: bool)
    | Expire(now: int, jitter: int, made: bool, active: bool)
    | Respond(now: int)
    | Complete(now: int, active: bool)

  predicate Enabled(s: State, step: Step) {
    && s.clock <= step.now
    && (step.Request? || step.Expire? ==> 0 <= step.jitter < REKEY_TIMEOUT_JITTER_MAX)
    && (step.Expire? ==> s.deadline.Some? && s.deadline.value <= step.now)
  }

  /** The second half of SendHandshakeInitiation: nothing within 5 seconds of the last handshake message. */
  function Initiate(s: State, step: Step): State
    requires step.Request? || step.Expire?
  {
    if step.now - s.lastSent < REKEY_TIMEOUT then s
    else if !step.made then s.(lastSent := step.now)
    else s.(lastSent := step.now, sent := s.sent + [step.now],
            deadline := if step.active then Some(step.now + REKEY_TIMEOUT + step.jitter) else s.deadline)
  }

  predicate GivesUp(s: State, step: Step) { step.Expire? && s.attempts > MAX_TIMER_HANDSHAKES }

  predicate Retries(s: State, step: Step) { step.Expire? && !GivesUp(s, step) }

  function Do(s0: State, step: Step): State {
    var s := s0.(clock := step.now);
    match step
    case Request(_, _, _, _) => Initiate(s.(attempts := 0), step)
    case Expire(_, _, _, _) =>
      if GivesUp(s, step) then s.(deadline := None)
      else Initiate(s.(attempts := s.attempts + 1, deadline := None), step)
    case Respond(now) => s.(lastSent := now)
    case Complete(_, active) => s.(attempts := 0, deadline := if active then None else s.deadline)
  }

  /** After Start the first initiation may go out at once. */
  function Started(now: int): State { State(now, 0, now - REKEY_TIMEOUT - 1_000, None, []) }

  ghost predicate IsRun(states: seq<State>, steps: seq<Step>) {
    && |states| == |steps| + 1 && states[0] == Started(states[0].clock)
    && forall k :: 0 <= k < |steps| ==> Enabled(states[k], steps[k]) && states[k + 1] == Do(states[k], steps[k])
  }

  predicate Resets(step: Step) { step.Request? || step.Complete? }

  // ---------- between two requests ----------

  /** The retries among steps j to k. */
  function Count(states: seq<State>, steps: seq<Step>, j: nat, k: nat): nat
    requires k <= |steps| < |states|
  {
    if k <= j then 0 else Count(states, steps, j, k - 1) + if Retries(states[k - 1], steps[k - 1]) then 1 else 0
  }

  ghost predicate NoReset(steps: seq<Step>, j: nat, k: nat) {
    forall i :: j <= i < k && i < |steps| ==> !Resets(steps[i])
  }

  lemma {:induction false} AttemptsAreCounted(states: seq<State>, steps: seq<Step>, j: nat, k: nat)
    requires IsRun(states, steps) && j <= k <= |steps| && NoReset(steps, j, k)
    ensures states[k].attempts == states[j].attempts + Count(states, steps, j, k)
  {
    if j < k {
      AttemptsAreCounted(states, steps, j, k - 1);
      assert states[k - 1 + 1] == Do(states[k - 1], steps[k - 1]);
    }
  }

  lemma {:induction false} AttemptsAreBounded(states: seq<State>, steps: seq<Step>, k: nat)
    requires IsRun(states, steps) && k <= |steps|
    ensures states[k].attempts <= MAX_TIMER_HANDSHAKES + 1
  {
    if k > 0 {
      AttemptsAreBounded(states, steps, k - 1);
      assert states[k - 1 + 1] == Do(states[k - 1], steps[k - 1]);
    }
  }

  /** Of any run, between two requests or completions: at most 19 retries. */
  lemma RetriesBetweenRequests(states: seq<State>, steps: seq<Step>, j: nat, k: nat)
    requires IsRun(states, steps) && j <= k <= |steps| && NoReset(steps, j, k)
    ensures Count(states, steps, j, k) <= 19
  {
    AttemptsAreCounted(states, steps, j, k);
    AttemptsAreBounded(states, steps, k);
  }

  /** The timer gives up exactly at the twentieth expiry since the last of them. */
  lemma GivesUpIff(states: seq<State>, steps: seq<Step>, j: nat, k: nat)
    requires IsRun(states, steps) && j <= k < |steps| && NoReset(steps, j, k) && steps[k].Expire?
    requires j == 0 || Resets(steps[j - 1])
    ensures GivesUp(states[k], steps[k]) <==> Count(states, steps, j, k) == 19
  {
    AttemptsAreCounted(states, steps, j, k);
    AttemptsAreBounded(states, steps, k);
    if j > 0 { assert states[j - 1 + 1] == Do(states[j - 1], steps[j - 1]); }
  }

  // ---------- with requests there is no bound ----------

  predicate NothingHeard(steps: seq<Step>) {
    forall i :: 0 <= i < |steps| ==> !steps[i].Complete? && !steps[i].Respond?
  }

  ghost predicate NeverGivesUp(states: seq<State>, steps: seq<Step>) {
    |states| == |steps| + 1 && forall i :: 0 <= i < |steps| ==> !GivesUp(states[i], steps[i])
  }

  /** What is left in `s` for the next round: one retry at most counted, and the timer runs. */
  predicate Waiting(s: State) {
    s.attempts <= 1 && s.deadline == Some(s.clock + REKEY_TIMEOUT) && s.lastSent == s.clock
  }

  lemma Extend(states: seq<State>, steps: seq<Step>, step: Step) returns (states': seq<State>, steps': seq<Step>)
    requires IsRun(states, steps) && NothingHeard(steps) && NeverGivesUp(states, steps)
    requires Enabled(states[|steps|], step) && (step.Request? || step.Expire?) && !GivesUp(states[|steps|], step)
    ensures IsRun(states', steps') && NothingHeard(steps') && NeverGivesUp(states', steps') && |steps'| == |steps| + 1
    ensures states'[|steps'|] == Do(states[|steps|], step)
    ensures Count(states', steps', 0, |steps'|) == Count(states, steps, 0, |steps|) + if step.Expire? then 1 else 0
  {
    states', steps' := states + [Do(states[|steps|], step)], steps + [step];
    SameCount(states, steps, states', steps', |steps|);
  }

  lemma {:induction false} SameCount(states: seq<State>, steps: seq<Step>, states': seq<State>, steps': seq<Step>,
        k: nat)
    requires k <= |steps| < |states| <= |states'| && |steps| <= |steps'| < |states'|
    requires forall i :: 0 <= i < |states| ==> states'[i] == states[i]
    requires forall i :: 0 <= i < |steps| ==> steps'[i] == steps[i]
    ensures Count(states', steps', 0, k) == Count(states, steps, 0, k)
  {
    if k > 0 { SameCount(states, steps, states', steps', k - 1); }
  }

  /** A packet without a key now and then, and the peer is asked for ever: n retries, for every n. */
  lemma {:induction false} RetriesWithoutBound(n: nat) returns (states: seq<State>, steps: seq<Step>)
    ensures IsRun(states, steps) && NothingHeard(steps) && NeverGivesUp(states, steps)
    ensures Count(states, steps, 0, |steps|) == n && Waiting(states[|steps|])
  {
    if n == 0 {
      states, steps := [Started(0)], [];
      states, steps := Extend(states, steps, Request(0, 0, true, true));
    } else {
      states, steps := RetriesWithoutBound(n - 1);
      var s := states[|steps|];
      states, steps := Extend(states, steps, Request(s.clock + 1, 0, true, true));
      states, steps := Extend(states, steps, Expire(s.clock + REKEY_TIMEOUT, 0, true, true));
    }
  }

  // ---------- initiations are apart ----------

  predicate Apart(sent: seq<int>) {
    forall a, b :: 0 <= a < b < |sent| ==> sent[b] - sent[a] >= 5_000
  }

  /** However often it is asked for: two initiations are at least 5 seconds apart. */
  lemma {:induction false} InitiationsAreApart(states: seq<State>, steps: seq<Step>, k: nat)
    requires IsRun(states, steps) && k <= |steps|
    ensures Apart(states[k].sent) && states[k].lastSent <= states[k].clock
    ensures forall a :: 0 <= a < |states[k].sent| ==> states[k].sent[a] <= states[k].lastSent
  {
    if k > 0 {
      InitiationsAreApart(states, steps, k - 1);
      assert states[k - 1 + 1] == Do(states[k - 1], steps[k - 1]);
    }
  }

  // ---------- what starts and stops the timer ----------

  /** Steps that end the retries: a completed handshake, and giving up. */
  predicate Ends(s: State, step: Step) {
    (step.Complete? && step.active) || GivesUp(s, step)
  }

  /** No retry happens between such a step and the next request. */
  lemma {:induction false} EndsCancel(states: seq<State>, steps: seq<Step>, j: nat, k: nat)
    requires IsRun(states, steps) && j < k <= |steps| && Ends(states[j], steps[j])
    requires forall i :: j < i < k ==> !steps[i].Request?
    ensures states[k].deadline == None && (k < |steps| ==> !steps[k].Expire?)
  {
    assert states[k - 1 + 1] == Do(states[k - 1], steps[k - 1]);
    if j < k - 1 { EndsCancel(states, steps, j, k - 1); }
    if k < |steps| { assert Enabled(states[k], steps[k]); }
  }

  /**
   * A request or a retry that comes 5 seconds or more after the last handshake message counts
   * as one, goes out if it could be made, and then starts the timer of an active peer. Any
   * other does nothing, but a retry has used up its timer.
   */
  lemma TriesGoOut(states: seq<State>, steps: seq<Step>, k: nat)
    requires IsRun(states, steps) && k < |steps| && (steps[k].Request? || Retries(states[k], steps[k]))
    ensures var s, t, step := states[k], states[k + 1], steps[k];
            && t.attempts == (if step.Request? then 0 else s.attempts + 1)
            && if step.now - s.lastSent >= 5_000 then
                 && t.lastSent == step.now && t.sent == s.sent + (if step.made then [step.now] else [])
                 && (if step.made && step.active then
                       t.deadline.Some? && 5_000 <= t.deadline.value - step.now < 5_334
                     else t.deadline == if step.Request? then s.deadline else None)
               else
                 && t.lastSent == s.lastSent && t.sent == s.sent
                 && t.deadline == if step.Request? then s.deadline else None
  {
    assert Enabled(states[k], steps[k]) && states[k + 1] == Do(states[k], steps[k]);
  }

  /** After a response, as after an initiation, no initiation goes out for 5 seconds. */
  lemma {:induction false} ResponseHoldsBack(states: seq<State>, steps: seq<Step>, j: nat, k: nat)
    requires IsRun(states, steps) && j < k < |states| && steps[j].Respond? && states[k].clock < steps[j].now + 5_000
    ensures steps[j].now <= states[k].lastSent <= states[k].clock && states[k].sent == states[j].sent
  {
    var s, step := states[k - 1], steps[k - 1];
    assert Enabled(s, step) && states[k - 1 + 1] == Do(s, step);
    if j < k - 1 {
      ResponseHoldsBack(states, steps, j, k - 1);
    }
  }
}
