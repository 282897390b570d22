/**
 * The staged queue of a peer (device/send.go): StagePackets drops the oldest container when
 * the queue is full; SendStagedPackets numbers the packets of each container in place and
 * stages again those the keypair has no nonce left for. A packet is an identity, and a
 * container the sequence of its packets.
 */
module StagedQueue {
  import opened Nonces
  import opened Sequences

  const QUEUE_STAGED_SIZE: nat := 128

  datatype Packet = Packet(id: nat, nonce: nat)

  // ---------- where a packet is ----------

  /** How often packet `x` occurs. */
  function Copies(x: nat, c: seq<nat>): nat {
    if c == [] then 0 else (if c[0] == x then 1 else 0) + Copies(x, c[1..])
  }

  lemma {:induction false} CopiesConcat(x: nat, a: seq<nat>, b: seq<nat>)
    ensures Copies(x, a + b) == Copies(x, a) + Copies(x, b)
  {
    if a == [] {
      assert a + b == b;
    } else {
      assert (a + b)[1..] == a[1..] + b;
      CopiesConcat(x, a[1..], b);
    }
  }

  function StagedCopies(x: nat, cs: seq<seq<nat>>): nat {
    if cs == [] then 0 else Copies(x, cs[0]) + StagedCopies(x, cs[1..])
  }

  lemma {:induction false} StagedAppend(x: nat, cs: seq<seq<nat>>, c: seq<nat>)
    ensures StagedCopies(x, cs + [c]) == StagedCopies(x, cs) + Copies(x, c)
  {
    if cs == [] {
      assert [] + [c] == [c];
    } else {
      assert (cs + [c])[1..] == cs[1..] + [c];
      StagedAppend(x, cs[1..], c);
    }
  }

  /** The packets without their nonces. */
  function Ids(s: seq<Packet>): (r: seq<nat>)
    ensures |r| == |s| && forall j :: 0 <= j < |s| ==> r[j] == s[j].id
  {
    seq(|s|, j requires 0 <= j < |s| => s[j].id)
  }

  lemma SentConcat(x: nat, s: seq<Packet>, t: seq<Packet>)
    ensures Copies(x, Ids(s + t)) == Copies(x, Ids(s)) + Copies(x, Ids(t))
  {
    assert Ids(s + t) == Ids(s) + Ids(t);
    CopiesConcat(x, Ids(s), Ids(t));
  }

  // ---------- numbering ----------

  /** The packets of `c`, numbered from `nonce` on. */
  function Number(c: seq<nat>, nonce: nat): (r: seq<Packet>)
    ensures |r| == |c| && forall j :: 0 <= j < |c| ==> r[j] == Packet(c[j], nonce + j)
  {
    seq(|c|, j requires 0 <= j < |c| => Packet(c[j], nonce + j))
  }

  lemma NumberIds(c: seq<nat>, nonce: nat)
    ensures Ids(Number(c, nonce)) == c
  {
  }

  /** How many of `n` packets still get a nonce. */
  function Fitting(nonce: nat, n: nat): nat {
    if nonce >= REJECT_AFTER_MESSAGES then 0
    else if nonce + n <= REJECT_AFTER_MESSAGES then n
    else REJECT_AFTER_MESSAGES - nonce
  }

  predicate Rising(s: seq<Packet>, below: nat) {
    && (forall a, b :: 0 <= a < b < |s| ==> s[a].nonce < s[b].nonce)
    && (forall a :: 0 <= a < |s| ==> s[a].nonce < below && s[a].nonce < REJECT_AFTER_MESSAGES)
  }

  /**
   * Sent packets, what stays staged, and the counter. Containers go in order while nonces
   * last; the first that is cut, or meets a spent keypair, goes to the end of the queue with
   * what is left of it.
   */
  function Drain(staged: seq<seq<nat>>, nonce: nat): (r: (seq<Packet>, seq<seq<nat>>, nat))
  {
    if staged == [] then ([], [], nonce)
    else
      var c, k := staged[0], Fitting(nonce, |staged[0]|);
      if k < |c| then (Number(c[..k], nonce), staged[1..] + [c[k..]], REJECT_AFTER_MESSAGES)
      else if c == [] && nonce >= REJECT_AFTER_MESSAGES then ([], staged[1..], nonce)
      else
        var r := Drain(staged[1..], nonce + k);
        (Number(c, nonce) + r.0, r.1, r.2)
  }

  /** The same behind the check that the keypair is not spent. */
  function DrainChecked(staged: seq<seq<nat>>, nonce: nat): (seq<Packet>, seq<seq<nat>>, nat) {
    if nonce >= REJECT_AFTER_MESSAGES then ([], staged, nonce) else Drain(staged, nonce)
  }

  /** What one container leaves to drain. */
  lemma DrainStep(staged: seq<seq<nat>>, nonce: nat)
    requires staged != [] && nonce <= REJECT_AFTER_MESSAGES
    ensures var c, k := staged[0], Fitting(nonce, |staged[0]|);
            var r, r' := Drain(staged, nonce), (if k < |c|
                || k == 0 then DrainChecked(Rest(staged, k), Next(nonce, |c|))
                else Drain(Rest(staged, k), Next(nonce, |c|)));
            r.0 == Number(c[..k], nonce) + r'.0 && r.1 == r'.1 && r.2 == r'.2
  {
    if Fitting(nonce, |staged[0]|) < |staged[0]| {
      DrainStops(staged, nonce);
    } else {
      DrainGoesOn(staged, nonce);
    }
  }

  lemma DrainStops(staged: seq<seq<nat>>, nonce: nat)
    requires staged != [] && Fitting(nonce, |staged[0]|) < |staged[0]|
    ensures var k := Fitting(nonce, |staged[0]|);
            Drain(staged, nonce) == (Number(staged[0][..k], nonce) + [], Rest(staged, k), REJECT_AFTER_MESSAGES)
  {
    var n := Number(staged[0][..Fitting(nonce, |staged[0]|)], nonce);
    assert n + [] == n;
  }

  lemma DrainGoesOn(staged: seq<seq<nat>>, nonce: nat)
    requires staged != [] && nonce <= REJECT_AFTER_MESSAGES && Fitting(nonce, |staged[0]|) == |staged[0]|
    ensures var c := staged[0];
            var r, r' := Drain(staged, nonce), (if c == [] then DrainChecked(staged[1..], nonce)
                else Drain(staged[1..], nonce + |c|));
            r.0 == Number(c[..|c|], nonce) + r'.0 && r.1 == r'.1 && r.2 == r'.2
  {
    var c := staged[0];
    assert c[..|c|] == c;
    if c == [] { assert Number(c, nonce) == []; }
  }

  function Rest(staged: seq<seq<nat>>, k: nat): seq<seq<nat>>
    requires staged != [] && k <= |staged[0]|
  {
    if k < |staged[0]| then staged[1..] + [staged[0][k..]] else staged[1..]
  }

  function Next(nonce: nat, n: nat): nat {
    if Fitting(nonce, n) < n then REJECT_AFTER_MESSAGES else nonce + n
  }

  lemma RestKeeps(x: nat, staged: seq<seq<nat>>, k: nat)
    requires staged != [] && k <= |staged[0]|
    ensures Copies(x, staged[0][..k]) + StagedCopies(x, Rest(staged, k)) == StagedCopies(x, staged)
  {
    var c := staged[0];
    if k < |c| {
      StagedAppend(x, staged[1..], c[k..]);
      CopiesConcat(x, c[..k], c[k..]);
      assert c == c[..k] + c[k..];
    } else {
      assert c[..k] == c;
    }
  }

  lemma RisingAppend(s: seq<Packet>, c: seq<nat>, nonce: nat)
    requires Rising(s, nonce) && nonce + |c| <= REJECT_AFTER_MESSAGES
    ensures Rising(s + Number(c, nonce), nonce + |c|)
  {
  }

  lemma RisingLater(s: seq<Packet>, n: nat, n': nat)
    requires Rising(s, n) && n <= n'
    ensures Rising(s, n')
  {
  }

  /** No packet is lost or doubled. */
  lemma {:induction false} DrainConserves(x: nat, staged: seq<seq<nat>>, nonce: nat)
    requires nonce <= REJECT_AFTER_MESSAGES
    ensures var r := Drain(staged, nonce);
            Copies(x, Ids(r.0)) + StagedCopies(x, r.1) == StagedCopies(x, staged)
    decreases |staged|
  {
    if staged != [] {
      var c, k := staged[0], Fitting(nonce, |staged[0]|);
      RestKeeps(x, staged, k);
      NumberIds(c[..k], nonce);
      if k == |c| && (c != [] || nonce < REJECT_AFTER_MESSAGES) {
        DrainConserves(x, staged[1..], nonce + k);
        SentConcat(x, Number(c, nonce), Drain(staged[1..], nonce + k).0);
        NumberIds(c, nonce);
      }
    }
  }

  /** All staged packets, oldest container first. */
  function Flat(staged: seq<seq<nat>>): seq<nat> {
    if staged == [] then [] else staged[0] + Flat(staged[1..])
  }

  /** `left` holds `rest` in order, but its last container may belong in front. */
  predicate Restaged(left: seq<seq<nat>>, rest: seq<nat>) {
    rest == Flat(left) || (left != [] && rest == left[|left| - 1] + Flat(left[..|left| - 1]))
  }

  predicate InOrder(sent: seq<Packet>, left: seq<seq<nat>>, flat: seq<nat>) {
    |sent| <= |flat| && Ids(sent) == flat[..|sent|] && Restaged(left, flat[|sent|..])
  }

  /**
   * The packets leave in the order they were staged in, and those that stay keep it, except
   * that the container that was cut goes behind the others.
   */
  lemma {:induction false} DrainInOrder(staged: seq<seq<nat>>, nonce: nat)
    ensures InOrder(Drain(staged, nonce).0, Drain(staged, nonce).1, Flat(staged))
    decreases |staged|
  {
    if staged == [] {
      NoneInOrder(staged);
    } else if Fitting(nonce, |staged[0]|) < |staged[0]| {
      CutInOrder(staged[0], Fitting(nonce, |staged[0]|), nonce, staged[1..]);
    } else if staged[0] == [] && nonce >= REJECT_AFTER_MESSAGES {
      SpentInOrder(staged, nonce);
    } else {
      var c, r := staged[0], Drain(staged[1..], nonce + |staged[0]|);
      DrainInOrder(staged[1..], nonce + |c|);
      assert Drain(staged, nonce) == (Number(c, nonce) + r.0, r.1, r.2) && Flat(staged) == c + Flat(staged[1..]);
      WholeInOrder(c, nonce, r.0, r.1, Flat(staged[1..]));
    }
  }

  lemma SpentInOrder(staged: seq<seq<nat>>, nonce: nat)
    requires staged != [] && staged[0] == [] && nonce >= REJECT_AFTER_MESSAGES
    ensures InOrder(Drain(staged, nonce).0, Drain(staged, nonce).1, Flat(staged))
  {
    assert [] + Flat(staged[1..]) == Flat(staged[1..]);
    NoneInOrder(staged[1..]);
  }

  lemma NoneInOrder(staged: seq<seq<nat>>)
    ensures InOrder([], staged, Flat(staged))
  {
    assert Flat(staged)[0..] == Flat(staged);
  }

  lemma CutInOrder(c: seq<nat>, k: nat, nonce: nat, rest: seq<seq<nat>>)
    requires k < |c|
    ensures InOrder(Number(c[..k], nonce), rest + [c[k..]], c + Flat(rest))
  {
    var left := rest + [c[k..]];
    assert left[..|left| - 1] == rest;
    assert (c + Flat(rest))[..k] == c[..k] && (c + Flat(rest))[k..] == c[k..] + Flat(rest);
  }

  lemma WholeInOrder(c: seq<nat>, nonce: nat, sent: seq<Packet>, left: seq<seq<nat>>, flat: seq<nat>)
    requires InOrder(sent, left, flat)
    ensures InOrder(Number(c, nonce) + sent, left, c + flat)
  {
    var s := Number(c, nonce) + sent;
    assert (c + flat)[..|s|] == c + flat[..|sent|] && (c + flat)[|s|..] == flat[|sent|..];
    assert Ids(s) == c + Ids(sent);
  }

  /** Nothing stays staged while nonces are left. */
  lemma {:induction false} DrainIsThorough(staged: seq<seq<nat>>, nonce: nat)
    ensures Drain(staged, nonce).1 != [] ==> Drain(staged, nonce).2 >= REJECT_AFTER_MESSAGES
    decreases |staged|
  {
    if staged != [] && Fitting(nonce, |staged[0]|) == |staged[0]| { DrainIsThorough(staged[1..], nonce + |staged[0]|); }
  }

  /** What is sent already, and what is to come, is what `s0` and `was` said. */
  ghost predicate Ahead(checked: bool, sent: seq<Packet>, staged: seq<seq<nat>>, nonce: nat, s0: seq<Packet>,
        was: (seq<Packet>, seq<seq<nat>>, nat)) {
    var r := if checked then DrainChecked(staged, nonce) else Drain(staged, nonce);
    sent + r.0 == s0 + was.0 && r.1 == was.1 && r.2 == was.2
  }

  lemma AheadStep(sent: seq<Packet>, staged: seq<seq<nat>>, nonce: nat, s0: seq<Packet>,
        was: (seq<Packet>, seq<seq<nat>>, nat))
    requires staged != [] && nonce <= REJECT_AFTER_MESSAGES && Ahead(false, sent, staged, nonce, s0, was)
    ensures var c, k := staged[0], Fitting(nonce, |staged[0]|);
            Ahead(k < |c| || k == 0, sent + Number(c[..k], nonce), Rest(staged, k), Next(nonce, |c|), s0, was)
  {
    DrainStep(staged, nonce);
    var c, k := staged[0], Fitting(nonce, |staged[0]|);
    var rest, next := Rest(staged, k), Next(nonce, |c|);
    Regroup(sent, Number(c[..k], nonce), (if k < |c| || k == 0 then DrainChecked(rest, next) else Drain(rest, next)).0);
  }

  /** The nonces count up from the keypair's, one a packet, and stay below the limit. */
  lemma {:induction false} DrainCounts(staged: seq<seq<nat>>, nonce: nat)
    requires nonce <= REJECT_AFTER_MESSAGES
    ensures var r := Drain(staged, nonce);
            && (forall j :: 0 <= j < |r.0| ==> r.0[j].nonce == nonce + j && nonce + j < REJECT_AFTER_MESSAGES)
            && r.2 == nonce + |r.0| <= REJECT_AFTER_MESSAGES
  {
    if staged != [] && Fitting(nonce, |staged[0]|) == |staged[0]| {
      DrainCounts(staged[1..], nonce + |staged[0]|);
    }
  }

  // ---------- the peer ----------

  class Peer {
    var staged: seq<seq<nat>>
    var sendNonce: nat
    var sent: seq<Packet>
    var freed: seq<nat>
    var handshakes: nat

    ghost predicate Valid()
      reads this
    {
      |staged| <= QUEUE_STAGED_SIZE && sendNonce <= REJECT_AFTER_MESSAGES && Rising(sent, sendNonce)
    }

    /** Wherever packet `x` is: staged, sent, or back in the pool. */
    ghost function Places(x: nat): nat
      reads this
    {
      StagedCopies(x, staged) + Copies(x, Ids(sent)) + Copies(x, freed)
    }

    constructor ()
      ensures Valid() && staged == [] && sendNonce == 0 && sent == [] && freed == []
    {
      staged, sendNonce, sent, freed, handshakes := [], 0, [], [], 0;
    }

    method Free(c: seq<nat>, ghost x: nat)
      modifies `freed
      ensures freed == old(freed) + c && Copies(x, freed) == Copies(x, old(freed)) + Copies(x, c)
    {
      CopiesConcat(x, freed, c);
      freed := freed + c;
    }

    method DropOldest(ghost x: nat)
      requires Valid() && staged != []
      modifies `staged, `freed
      ensures Valid() && Places(x) == old(Places(x))
      ensures staged == old(staged)[1..] && freed == old(freed) + old(staged)[0]
    {
      Free(staged[0], x);
      staged := staged[1..];
    }

    /** The queue keeps at most 128 containers; the oldest makes room. `x` is any packet. */
    method StagePackets(c: seq<nat>, ghost x: nat)
      requires Valid()
      modifies `staged, `freed
      ensures Valid() && Places(x) == old(Places(x)) + Copies(x, c)
      ensures staged == (if |old(staged)| < QUEUE_STAGED_SIZE then old(staged) else old(staged)[1..]) + [c]
      ensures freed == if |old(staged)| < QUEUE_STAGED_SIZE then old(freed) else old(freed) + old(staged)[0]
    {
      ghost var full := |staged| == QUEUE_STAGED_SIZE;
      ghost var dropped := false;
      while true
        invariant Valid() && Places(x) == old(Places(x)) && (dropped ==> full)
        invariant staged == (if dropped then old(staged)[1..] else old(staged))
        invariant freed == (if dropped then old(freed) + old(staged)[0] else old(freed))
        decreases |staged|
      {
        if |staged| < QUEUE_STAGED_SIZE {
          StagedAppend(x, staged, c);
          staged := staged + [c];
          return;
        }
        DropOldest(x);
        dropped := true;
      }
    }

    method FlushStagedPackets(ghost x: nat)
      requires Valid()
      modifies `staged, `freed
      ensures Valid() && staged == [] && Places(x) == old(Places(x))
    {
      while staged != []
        invariant Valid() && Places(x) == old(Places(x))
        decreases |staged|
      {
        DropOldest(x);
      }
    }

    /**
     * Number the packets of one container in place: those that get a nonce move to the
     * front, the others are collected. Past the limit the counter is set back each time.
     */
    method Partition(c: seq<nat>) returns (kept: seq<Packet>, outOfOrder: seq<nat>)
      requires Valid()
      modifies `sendNonce
      ensures var k := Fitting(old(sendNonce), |c|);
              kept == Number(c[..k], old(sendNonce)) && outOfOrder == c[k..] && sendNonce == Next(old(sendNonce), |c|)
    {
      var elems: seq<Packet> := Number(c, 0);
      var i := 0;
      outOfOrder := [];
      ghost var n0, k := sendNonce, Fitting(sendNonce, |c|);
      for at := 0 to |c|
        invariant i == (if at <= k then at else k) && |elems| == |c|
            && sendNonce == (if at <= k then n0 + at else REJECT_AFTER_MESSAGES)
        invariant outOfOrder == c[i..at]
        invariant forall j :: 0 <= j < i ==> elems[j] == Packet(c[j], n0 + j)
        invariant forall j :: at <= j < |c| ==> elems[j].id == c[j]
      {
        var elem := elems[at].(nonce := sendNonce);
        sendNonce := sendNonce + 1;
        if elem.nonce >= REJECT_AFTER_MESSAGES {
          sendNonce := REJECT_AFTER_MESSAGES;
          outOfOrder := outOfOrder + [elem.id];
        } else {
          elems := elems[i := elem];
          i := i + 1;
        }
      }
      kept := elems[..i];
    }

    /** Pop a container, number it, and stage again what got no nonce. */
    method TakeContainer() returns (kept: seq<Packet>, cut: bool)
      requires Valid() && staged != []
      modifies `staged, `sendNonce, `freed
      ensures Valid() && freed == old(freed) && Rising(sent, old(sendNonce)) && sendNonce >= old(sendNonce)
      ensures var c := old(staged)[0];
              var k := Fitting(old(sendNonce), |c|);
              && cut == (k < |c|) && kept == Number(c[..k], old(sendNonce))
              && staged == Rest(old(staged), k) && sendNonce == Next(old(sendNonce), |c|)
    {
      ghost var n0 := sendNonce;
      var c := staged[0];
      staged := staged[1..];
      var outOfOrder;
      kept, outOfOrder := Partition(c);
      RisingLater(sent, n0, sendNonce);
      cut := outOfOrder != [];
      if cut {
        StagePackets(outOfOrder, 0);
      }
    }

    /** To the outbound queue, or back to the pool. */
    method Deliver(kept: seq<Packet>, running: bool, ghost c: seq<nat>, ghost n0: nat, ghost x: nat)
      requires Valid() && kept == Number(c, n0) && Rising(sent, n0) && n0 + |c| <= sendNonce
      modifies `sent, `freed
      ensures Valid() && Places(x) == old(Places(x)) + Copies(x, c)
      ensures sent == if running then old(sent) + kept else old(sent)
    {
      NumberIds(c, n0);
      if running {
        SentConcat(x, sent, kept);
        RisingAppend(sent, c, n0);
        RisingLater(sent + kept, n0 + |c|, sendNonce);
        sent := sent + kept;
      } else {
        Free(Ids(kept), x);
      }
    }

    /** One container; true where the code starts over from the checks. */
    method SendOne(running: bool, ghost s0: seq<Packet>, ghost was: (seq<Packet>, seq<seq<nat>>, nat), ghost x: nat)
      returns (top: bool)
      requires Valid() && staged != []
      modifies `staged, `sendNonce, `sent, `freed
      ensures Valid() && Places(x) == old(Places(x)) && sendNonce >= old(sendNonce)
      ensures |staged| < |old(staged)| || (top && |staged| == |old(staged)| && sendNonce >= REJECT_AFTER_MESSAGES)
      ensures !running ==> sent == old(sent)
      ensures running && Ahead(false, old(sent), old(staged), old(sendNonce), s0, was)
          ==> Ahead(top, sent, staged, sendNonce, s0, was)
    {
      ghost var c, n0 := staged[0], sendNonce;
      ghost var k := Fitting(n0, |c|);
      if Ahead(false, sent, staged, n0, s0, was) { AheadStep(sent, staged, n0, s0, was); }
      RestKeeps(x, staged, k);
      var kept, cut := TakeContainer();
      if kept == [] {
        assert sent + Number(c[..k], n0) == sent;
        return true;
      }
      Deliver(kept, running, c[..k], n0, x);
      return cut;
    }

    /**
     * Take containers until the queue is empty or the keypair is spent. `up` and `usable`
     * (a keypair is there and not too old) are looked up each time round, `running` for
     * each container; packets of a peer that does not run go back to the pool. `x` is any
     * packet: it stays in one place or moves to another.
     */
    method SendStagedPackets(up: nat -> bool, usable: nat -> bool, running: nat -> bool, ghost x: nat)
      requires Valid()
      modifies this
      ensures Valid() && Places(x) == old(Places(x)) && |staged| <= |old(staged)| && sendNonce >= old(sendNonce)
      ensures (forall t :: up(t) && usable(t) && running(t)) ==>
                var r := DrainChecked(old(staged), old(sendNonce));
                sent == old(sent) + r.0 && staged == r.1 && sendNonce == r.2
      ensures (forall t :: up(t) ==> !usable(t)) ==>
                && sent == old(sent) && staged == old(staged) && sendNonce == old(sendNonce) && freed == old(freed)
                && handshakes == old(handshakes) + if staged != [] && up(1) then 1 else 0
      ensures (forall t :: !running(t)) ==> sent == old(sent)
    {
      ghost var steady := forall t :: up(t) && usable(t) && running(t);
      ghost var keyless, still := (forall t :: up(t) ==> !usable(t)), (forall t :: !running(t));
      ghost var s0, was := sent, DrainChecked(staged, sendNonce);
      var t := 0;
      var top := true;
      while top
        invariant Valid() && Places(x) == old(Places(x)) && |staged| <= |old(staged)| && sendNonce >= old(sendNonce)
        invariant steady ==> Ahead(top, sent, staged, sendNonce, s0, was)
        invariant !top ==> staged == []
        invariant keyless ==> t == 0 && top && sent == old(sent) && staged == old(staged) && freed == old(freed)
                              && sendNonce == old(sendNonce) && handshakes == old(handshakes)
        invariant still ==> sent == old(sent)
        decreases if sendNonce < REJECT_AFTER_MESSAGES then 1 else 0, |staged|, top
      {
        t := t + 1;
        if staged == [] || !up(t) {
          return;
        }
        if !usable(t) || sendNonce >= REJECT_AFTER_MESSAGES {
          handshakes := handshakes + 1;
          return;
        }
        top := false;
        ghost var n := |staged|;
        while staged != [] && !top
          invariant Valid() && Places(x) == old(Places(x)) && |staged| <= n && sendNonce >= old(sendNonce)
          invariant steady ==> Ahead(top, sent, staged, sendNonce, s0, was)
          invariant top ==> sendNonce >= REJECT_AFTER_MESSAGES || |staged| < n
          invariant !keyless && (still ==> sent == old(sent))
          decreases !top, |staged|
        {
          t := t + 1;
          top := SendOne(running(t), s0, was, x);
        }
      }
    }
  }
}
