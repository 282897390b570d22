/**
 * Which keypair is in which slot (BeginSymmetricSession and ReceivedWithKeypair of
 * device/noise-protocol.go), over every run of Rotation.dfy: an initiator sends under its new
 * keypair at once, a responder only after a packet has come in under it.
 */
module KeypairSlots {
  import opened Noise
  import opened Options
  import opened Rotation

  /** The keypair that a session begun now would have. */
  function NewKeypair(s: Sys, pk: Bytes, keys: Keys): Keypair
    requires pk in s.peers
  {
    Keypair(s.serial, s.peers[pk].handshake.localIndex, s.peers[pk].handshake.remoteIndex, keys)
  }

  predicate InSlot(p: Peer, k: Keypair) {
    p.previous == Some(k) || p.current == Some(k) || p.next == Some(k)
  }

  /** What leaves the slots leaves the table, and no other entry does. */
  ghost predicate Dropped(s: Sys, t: Sys, pk: Bytes)
    requires pk in s.peers && pk in t.peers
  {
    && (forall k :: InSlot(s.peers[pk], k) && !InSlot(t.peers[pk], k) ==> k.localIndex !in t.table)
    && forall i :: i in s.table && i !in t.table
                   ==> exists k: Keypair :: k.localIndex == i && InSlot(s.peers[pk], k) && !InSlot(t.peers[pk], k)
  }

  // ---------- one step ----------

  /** Where the new keypair goes, and the ones that were there, by role. */
  lemma BeginFillsSlots(s: Sys, pk: Bytes, keys: Keys)
    requires Inv(s) && Allowed(s, BeginSession(pk, keys))
    ensures var t := Do(s, BeginSession(pk, keys));
            && t.peers.Keys == s.peers.Keys && t.serial == s.serial + 1
            && var p, q, k := s.peers[pk], t.peers[pk], NewKeypair(s, pk, keys);
               && (if keys.isInitiator then
                     && q.current == Some(k) && q.next == None
                     && q.previous == if p.next.Some? then p.next else p.current
                   else
                     q.next == Some(k) && q.current == p.current && q.previous == None)
               && k.localIndex in t.table && t.table[k.localIndex] == Entry(pk, Some(k))
               && q.handshake == p.handshake.(state := Zeroed, chain := Chain([], []), localEphemeral := [],
                                              localIndex := 0)
  {
    assert PeerOk(s, pk);
  }

  lemma BeginDrops(s: Sys, pk: Bytes, keys: Keys)
    requires Inv(s) && Allowed(s, BeginSession(pk, keys))
    ensures Dropped(s, Do(s, BeginSession(pk, keys)), pk)
  {
    var t := Do(s, BeginSession(pk, keys));
    assert PeerOk(s, pk);
    BeginFillsSlots(s, pk, keys);
    forall i | i in s.table && i !in t.table
      ensures exists k: Keypair :: k.localIndex == i && InSlot(s.peers[pk], k) && !InSlot(t.peers[pk], k)
    {
      var p := s.peers[pk];
      if p.previous.Some? && p.previous.value.localIndex == i {
        assert !InSlot(t.peers[pk], p.previous.value);
      } else if p.current.Some? && p.current.value.localIndex == i {
        assert !InSlot(t.peers[pk], p.current.value);
      } else {
        assert p.next.Some? && !InSlot(t.peers[pk], p.next.value);
      }
    }
  }

  /** The first packet under the waiting keypair makes it the current one; no other packet does. */
  lemma ConfirmMovesUp(s: Sys, pk: Bytes, received: Keypair)
    requires Inv(s) && pk in s.peers
    ensures var t, p := Do(s, Confirm(pk, received)), s.peers[pk];
            if p.next == Some(received) then
              && t.peers.Keys == s.peers.Keys && Dropped(s, t, pk)
              && var q := t.peers[pk];
                 q.current == Some(received) && q.previous == p.current && q.next == None && q.handshake == p.handshake
            else t == s
  {
    var t, p := Do(s, Confirm(pk, received)), s.peers[pk];
    assert PeerOk(s, pk);
    if p.next == Some(received) && p.previous.Some? { assert !InSlot(t.peers[pk], p.previous.value); }
  }

  // ---------- whole runs ----------

  /** Serial numbers tell keypairs apart: every one in use has been given out. */
  ghost predicate SerialsBelow(s: Sys) {
    forall pk, k :: pk in s.peers && InSlot(s.peers[pk], k) ==> k.serial < s.serial
  }

  /** Whatever is in a slot after a step was in one before, or is new. */
  lemma SlotsComeFrom(s: Sys, step: Step, pk: Bytes, k: Keypair)
    requires Allowed(s, step) && pk in Do(s, step).peers && InSlot(Do(s, step).peers[pk], k)
    ensures || (pk in s.peers && InSlot(s.peers[pk], k))
            || (step.BeginSession? && step.pk == pk && k == NewKeypair(s, pk, step.keys))
  {
  }

  lemma StepSerials(s: Sys, step: Step)
    requires Allowed(s, step) && SerialsBelow(s)
    ensures SerialsBelow(Do(s, step))
    ensures Do(s, step).serial == if step.BeginSession? then s.serial + 1 else s.serial
  {
    forall pk, k | pk in Do(s, step).peers && InSlot(Do(s, step).peers[pk], k) ensures k.serial < Do(s, step).serial {
      SlotsComeFrom(s, step, pk, k);
    }
  }

  lemma {:induction false} RunSerials(states: seq<Sys>, steps: seq<Step>, b: nat, k: nat)
    requires IsRun(states, steps) && b <= k < |states|
    ensures SerialsBelow(states[k]) && states[b].serial <= states[k].serial
    ensures b < k && steps[b].BeginSession? ==> states[b].serial < states[k].serial
  {
    if k > 0 {
      RunSerials(states, steps, if b < k then b else k - 1, k - 1);
      assert Allowed(states[k - 1], steps[k - 1]) && states[k - 1 + 1] == Do(states[k - 1], steps[k - 1]);
      StepSerials(states[k - 1], steps[k - 1]);
    }
  }

  /** The session of keypair `k` was begun before step n. */
  ghost predicate Began(states: seq<Sys>, steps: seq<Step>, n: nat, pk: Bytes, k: Keypair)
    requires n <= |steps| < |states|
  {
    exists b :: 0 <= b < n && BeganAt(states, steps, b, pk, k)
  }

  predicate BeganAt(states: seq<Sys>, steps: seq<Step>, b: nat, pk: Bytes, k: Keypair)
    requires b < |steps| < |states|
  {
    steps[b] == BeginSession(pk, k.keys) && pk in states[b].peers && k == NewKeypair(states[b], pk, k.keys)
  }

  /** A packet under keypair `k`, which was waiting, came in at step j. */
  predicate ConfirmedAt(states: seq<Sys>, steps: seq<Step>, j: nat, pk: Bytes, k: Keypair)
    requires j < |steps| < |states|
  {
    steps[j] == Confirm(pk, k) && pk in states[j].peers && states[j].peers[pk].next == Some(k)
  }

  ghost predicate Confirmed(states: seq<Sys>, steps: seq<Step>, n: nat, pk: Bytes, k: Keypair)
    requires n <= |steps| < |states|
  {
    exists j :: 0 <= j < n && ConfirmedAt(states, steps, j, pk, k)
  }

  /** What one step can put into `next`. */
  lemma NextSource(s: Sys, step: Step, pk: Bytes)
    requires Inv(s) && Allowed(s, step) && pk in Do(s, step).peers && Do(s, step).peers[pk].next.Some?
    ensures var q := Do(s, step).peers[pk];
            || (pk in s.peers && s.peers[pk].next == q.next)
            || (step.BeginSession? && step.pk == pk && !step.keys.isInitiator
                && q.next == Some(NewKeypair(s, pk, step.keys)))
  {
  }

  /** What one step can put into `current`. */
  lemma CurrentSource(s: Sys, step: Step, pk: Bytes)
    requires Inv(s) && Allowed(s, step) && pk in Do(s, step).peers && Do(s, step).peers[pk].current.Some?
    ensures var q := Do(s, step).peers[pk];
            || (pk in s.peers && s.peers[pk].current == q.current)
            || (step.BeginSession? && step.pk == pk && step.keys.isInitiator
                && q.current == Some(NewKeypair(s, pk, step.keys)))
            || (step.Confirm? && step.pk == pk && s.peers[pk].next == q.current == Some(step.received))
  {
  }

  /** Over every run: a waiting keypair is a responder's, and a current one an initiator's or confirmed. */
  lemma {:induction false} SlotsHaveOrigin(states: seq<Sys>, steps: seq<Step>, n: nat, pk: Bytes)
    requires IsRun(states, steps) && n < |states| && pk in states[n].peers
    ensures var p := states[n].peers[pk];
            && (p.next.Some? ==> !p.next.value.keys.isInitiator && Began(states, steps, n, pk, p.next.value))
            && (p.current.Some? ==>
                  && Began(states, steps, n, pk, p.current.value)
                  && (p.current.value.keys.isInitiator || Confirmed(states, steps, n, pk, p.current.value)))
  {
    if n > 0 {
      var s, step := states[n - 1], steps[n - 1];
      assert Allowed(s, step) && states[n - 1 + 1] == Do(s, step);
      EveryRunKeeps(states, steps, n - 1);
      if states[n].peers[pk].next.Some? { NextSource(s, step, pk); }
      if states[n].peers[pk].current.Some? { CurrentSource(s, step, pk); }
      if pk in s.peers { SlotsHaveOrigin(states, steps, n - 1, pk); }
      if step.BeginSession? && step.pk == pk {
        assert BeganAt(states, steps, n - 1, pk, NewKeypair(s, pk, step.keys));
      }
      if step.Confirm? && step.pk == pk && s.peers[pk].next == Some(step.received) {
        assert ConfirmedAt(states, steps, n - 1, pk, step.received);
      }
    }
  }

  /**
   * Over every run: the keypair of a session begun as responder is current only after a packet
   * under it has come in while it was waiting.
   */
  lemma ResponderWaits(states: seq<Sys>, steps: seq<Step>, b: nat, n: nat, pk: Bytes, k: Keypair)
    requires IsRun(states, steps) && b < |steps| && n < |states| && pk in states[n].peers
    requires steps[b].BeginSession? && !steps[b].keys.isInitiator && k.serial == states[b].serial
    requires states[n].peers[pk].current == Some(k)
    ensures steps[b].pk == pk && exists j :: b < j < n && ConfirmedAt(states, steps, j, pk, k)
  {
    SlotsHaveOrigin(states, steps, n, pk);
    var a :| 0 <= a < n && BeganAt(states, steps, a, pk, k);
    if a < b { RunSerials(states, steps, a, b); }
    if b < a { RunSerials(states, steps, b, a); }
    var j :| 0 <= j < n && ConfirmedAt(states, steps, j, pk, k);
    if j <= b {
      RunSerials(states, steps, j, b);
      RunSerials(states, steps, 0, j);
      assert InSlot(states[j].peers[pk], k);
    }
  }

  /** Nothing takes the place of the current keypair of `pk` in this step. */
  predicate LeavesCurrent(s: Sys, step: Step, pk: Bytes) {
    step.pk == pk ==> !step.Flush? && !step.DropPeer? && !step.AddPeer?
                      && (step.BeginSession? ==> !step.keys.isInitiator)
                      && (step.Confirm? && pk in s.peers ==> s.peers[pk].next != Some(step.received))
  }

  lemma StepLeavesCurrent(s: Sys, step: Step, pk: Bytes)
    requires Allowed(s, step) && pk in s.peers && LeavesCurrent(s, step, pk)
    ensures pk in Do(s, step).peers && Do(s, step).peers[pk].current == s.peers[pk].current
  {
  }

  lemma CurrentStays(states: seq<Sys>, steps: seq<Step>, n: nat, pk: Bytes)
    requires IsRun(states, steps) && n < |steps| && pk in states[n].peers && LeavesCurrent(states[n], steps[n], pk)
    ensures pk in states[n + 1].peers && states[n + 1].peers[pk].current == states[n].peers[pk].current
  {
    assert Allowed(states[n], steps[n]) && states[n + 1] == Do(states[n], steps[n]);
    StepLeavesCurrent(states[n], steps[n], pk);
  }

  lemma {:induction false} CurrentIsKept(states: seq<Sys>, steps: seq<Step>, b: nat, n: nat, pk: Bytes)
    requires IsRun(states, steps) && b <= n < |states| && pk in states[b].peers
    requires forall j :: b <= j < n ==> LeavesCurrent(states[j], steps[j], pk)
    ensures pk in states[n].peers && states[n].peers[pk].current == states[b].peers[pk].current
  {
    if b < n {
      CurrentIsKept(states, steps, b, n - 1, pk);
      CurrentStays(states, steps, n - 1, pk);
    }
  }

  lemma InitiatorStarts(states: seq<Sys>, steps: seq<Step>, b: nat, pk: Bytes, keys: Keys)
    requires IsRun(states, steps) && b < |steps| && steps[b] == BeginSession(pk, keys) && keys.isInitiator
    ensures pk in states[b].peers && pk in states[b + 1].peers
    ensures states[b + 1].peers[pk].current == Some(NewKeypair(states[b], pk, keys))
  {
    EveryRunKeeps(states, steps, b);
    BeginFillsSlots(states[b], pk, keys);
  }

  /** Over every run: an initiator's keypair is current from the step that begins its session. */
  lemma InitiatorSendsAtOnce(states: seq<Sys>, steps: seq<Step>, b: nat, n: nat, pk: Bytes,
        keys: Keys)
    requires IsRun(states, steps) && b < n < |states| && steps[b] == BeginSession(pk, keys) && keys.isInitiator
    requires forall j :: b < j < n ==> LeavesCurrent(states[j], steps[j], pk)
    ensures pk in states[b].peers && pk in states[n].peers
    ensures states[n].peers[pk].current == Some(NewKeypair(states[b], pk, keys))
  {
    InitiatorStarts(states, steps, b, pk, keys);
    CurrentIsKept(states, steps, b + 1, n, pk);
  }

  // ---------- what is forgotten ----------

  /** Nothing of the handshake is left but what the peer is known by. */
  predicate Forgotten(h: Handshake, was: Handshake) {
    && h.state == Zeroed && h.chain == Chain([], []) && h.localEphemeral == [] && h.localIndex == 0
    && h.remoteStatic == was.remoteStatic && h.precomputed == was.precomputed && h.presharedKey == was.presharedKey
    && h.lastTimestamp == was.lastTimestamp && h.lastConsumption == was.lastConsumption
  }

  predicate Refuses(c: Crypto, priv: Bytes, h: Handshake, m: Response, e: Bytes, i: nat) {
    ConsumeResponse(c, priv, h, m).None? && CreateResponse(c, h, e, i).1.None? && SessionKeys(c, h).None?
  }

  /**
   * A handshake that has become a session, was flushed or has lapsed is forgotten: from then on
   * it takes no response, makes none, and gives no session again. A flush empties the slots, a
   * lapse leaves them.
   */
  lemma SecretsAreForgotten(s: Sys, step: Step, c: Crypto, priv: Bytes, m: Response, e: Bytes, i: nat)
    requires Allowed(s, step) && (step.BeginSession? || step.Flush? || step.Lapse?)
    ensures var p, q := s.peers[step.pk], Do(s, step).peers[step.pk];
            && Forgotten(q.handshake, p.handshake) && Refuses(c, priv, q.handshake, m, e, i)
            && (step.Flush? ==> q.previous == q.current == q.next == None)
            && (step.Lapse? ==> q == p.(handshake := q.handshake))
  {
  }
}
