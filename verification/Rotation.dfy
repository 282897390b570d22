/**
 * Keypair rotation and the index table (device/indextable.go, keypair.go, peer.go and the
 * second half of noise-protocol.go) as a step system: what every step keeps.
 */
module Rotation {
  import opened Noise
  import opened Options

  /** A keypair, with a serial number for its identity. */
  datatype Keypair = Keypair(serial: nat, localIndex: nat, remoteIndex: nat, keys: Keys)

  /** IndexTableEntry: without a keypair it stands for the peer's handshake. */
  datatype Entry = Entry(peer: Bytes, keypair: Option<Keypair>)

  datatype Peer = Peer(handshake: Handshake, previous: Option<Keypair>, current: Option<Keypair>, next: Option<Keypair>)

  datatype Sys = Sys(table: map<nat, Entry>, peers: map<Bytes, Peer>, serial: nat)

  const MAX_PEERS: nat := 0x1_0000

  // ---------- the invariant ----------

  /** The entry belongs to something that its peer holds under that index. */
  predicate Live(p: Peer, i: nat, keypair: Option<Keypair>) {
    match keypair
    case None => p.handshake.localIndex == i
    case Some(k) => k.localIndex == i && (p.previous == keypair || p.current == keypair || p.next == keypair)
  }

  predicate EntryOk(s: Sys, i: nat) {
    i in s.table ==> i != 0 && s.table[i].peer in s.peers && Live(s.peers[s.table[i].peer], i, s.table[i].keypair)
  }

  predicate Listed(s: Sys, pk: Bytes, k: Option<Keypair>) {
    k.Some? ==> k.value.localIndex in s.table && s.table[k.value.localIndex] == Entry(pk, k)
  }

  /** Two slots never hold the same keypair. */
  predicate Apart(a: Option<Keypair>, b: Option<Keypair>) {
    a == b ==> a.None?
  }

  predicate PeerOk(s: Sys, pk: Bytes) {
    pk in s.peers ==>
      var p := s.peers[pk];
      && (p.handshake.localIndex != 0 ==> p.handshake.localIndex in s.table
                                          && s.table[p.handshake.localIndex] == Entry(pk, None))
      && (Indexed(p.handshake.state) ==> p.handshake.localIndex != 0)
      && Listed(s, pk, p.previous) && Listed(s, pk, p.current) && Listed(s, pk, p.next)
      && Apart(p.previous, p.current) && Apart(p.previous, p.next) && Apart(p.current, p.next)
  }

  /** The table is exactly the live indexes of all peers, each entry pointing to its owner. */
  ghost predicate Inv(s: Sys) {
    && (forall i :: EntryOk(s, i))
    && (forall pk :: PeerOk(s, pk))
    && |s.peers| <= MAX_PEERS
  }

  // ---------- the steps ----------

  function SetPeer(s: Sys, pk: Bytes, p: Peer): Sys {
    s.(peers := s.peers[pk := p])
  }

  function Delete(s: Sys, i: nat): Sys {
    s.(table := s.table - {i})
  }

  function DeleteKeypair(s: Sys, k: Option<Keypair>): Sys {
    if k.Some? then Delete(s, k.value.localIndex) else s
  }

  /** The handshake gives up its index and takes a new one. */
  function AssignIndex(s: Sys, pk: Bytes, h: Handshake, index: nat): Sys
    requires pk in s.peers
  {
    var s1 := Delete(s, s.peers[pk].handshake.localIndex);
    SetPeer(s1.(table := s1.table[index := Entry(pk, None)]), pk, s.peers[pk].(handshake := h.(localIndex := index)))
  }

  /** Only handshake fields other than the index change. */
  function SetHandshake(s: Sys, pk: Bytes, h: Handshake): Sys
    requires pk in s.peers
  {
    SetPeer(s, pk, s.peers[pk].(handshake := h))
  }

  /** BeginSymmetricSession: the index passes from the handshake to the new keypair. */
  function Begin(s: Sys, pk: Bytes, keys: Keys): Sys
    requires pk in s.peers
  {
    var p := s.peers[pk];
    var h := p.handshake;
    var k := Keypair(s.serial, h.localIndex, h.remoteIndex, keys);
    var s1 := s.(serial := s.serial + 1,
                 table := if h.localIndex in s.table then s.table[h.localIndex := Entry(s.table[h.localIndex].peer,
                     Some(k))] else s.table);
    var h' := h.(chain := Chain([], []), localEphemeral := [], state := Zeroed, localIndex := 0);
    Rotate(s1, pk, p.(handshake := h'), k)
  }

  /** Put the new keypair in its slot and give up the indexes of the ones that drop out. */
  function Rotate(s: Sys, pk: Bytes, p: Peer, k: Keypair): Sys {
    if k.keys.isInitiator then
      if p.next.Some? then
        SetPeer(DeleteKeypair(DeleteKeypair(s, p.current), p.previous), pk, Peer(p.handshake, p.next, Some(k), None))
      else
        SetPeer(DeleteKeypair(s, p.previous), pk, Peer(p.handshake, p.current, Some(k), None))
    else
      SetPeer(DeleteKeypair(DeleteKeypair(s, p.next), p.previous), pk, Peer(p.handshake, None, p.current, Some(k)))
  }

  /** ReceivedWithKeypair: the first packet under `next` confirms it. */
  function Received(s: Sys, pk: Bytes): Sys
    requires pk in s.peers
  {
    var p := s.peers[pk];
    SetPeer(DeleteKeypair(s, p.previous), pk, p.(previous := p.current, current := p.next, next := None))
  }

  function ZeroAndFlush(s: Sys, pk: Bytes): Sys
    requires pk in s.peers
  {
    var p := s.peers[pk];
    var s1 := DeleteKeypair(DeleteKeypair(DeleteKeypair(s, p.previous), p.current), p.next);
    SetPeer(Delete(s1, p.handshake.localIndex), pk, Peer(Clear(p.handshake), None, None, None))
  }

  function Expire(s: Sys, pk: Bytes): Sys
    requires pk in s.peers
  {
    SetHandshake(Delete(s, s.peers[pk].handshake.localIndex), pk, Clear(s.peers[pk].handshake))
  }

  function Zeros(n: nat): Bytes { seq(n, _ => 0) }

  /** Without a preshared key, and with no timestamp seen: 32 and 12 zero bytes. */
  function NewHandshake(pk: Bytes, precomputed: Bytes): Handshake {
    Handshake(Zeroed, Chain([], []), Zeros(32), [], 0, 0, pk, [], precomputed, Zeros(12), 0)
  }

  // ---------- every step keeps the invariant ----------

  lemma AssignIndexKeeps(s: Sys, pk: Bytes, h: Handshake, index: nat)
    requires Inv(s) && pk in s.peers && index != 0 && index !in s.table - {s.peers[pk].handshake.localIndex}
    ensures Inv(AssignIndex(s, pk, h, index))
  {
    var t := AssignIndex(s, pk, h, index);
    assert t.peers.Keys == s.peers.Keys;
    forall i ensures EntryOk(t, i) { assert EntryOk(s, i); }
    forall q ensures PeerOk(t, q) { assert PeerOk(s, q) && PeerOk(s, pk) && EntryOk(s, 0); }
  }

  lemma SetHandshakeKeeps(s: Sys, pk: Bytes, h: Handshake)
    requires Inv(s) && pk in s.peers && h.localIndex == s.peers[pk].handshake.localIndex
    requires Indexed(h.state) ==> h.localIndex != 0 || h.state == s.peers[pk].handshake.state
    ensures Inv(SetHandshake(s, pk, h))
  {
    var t := SetHandshake(s, pk, h);
    assert t.peers.Keys == s.peers.Keys;
    forall i ensures EntryOk(t, i) { assert EntryOk(s, i); }
    forall q ensures PeerOk(t, q) { assert PeerOk(s, q); }
  }

  lemma BeginEntry(s: Sys, pk: Bytes, keys: Keys, i: nat)
    requires pk in s.peers && s.peers[pk].handshake.localIndex != 0 && PeerOk(s, pk) && EntryOk(s, i)
    ensures EntryOk(Begin(s, pk, keys), i)
  {
  }

  lemma BeginOwner(s: Sys, pk: Bytes, keys: Keys)
    requires pk in s.peers && s.peers[pk].handshake.localIndex != 0 && PeerOk(s, pk)
    ensures PeerOk(Begin(s, pk, keys), pk)
  {
    var p := s.peers[pk];
    assert forall k :: k in {p.previous, p.current, p.next} && k.Some? ==> k.value.localIndex != p.handshake.localIndex;
  }

  lemma BeginOther(s: Sys, pk: Bytes, keys: Keys, q: Bytes)
    requires pk in s.peers && s.peers[pk].handshake.localIndex != 0 && PeerOk(s, pk) && PeerOk(s, q) && q != pk
    ensures PeerOk(Begin(s, pk, keys), q)
  {
    var t := Begin(s, pk, keys);
    forall i | i in s.table && s.table[i].peer == q ensures SameEntry(s, t, i) {}
    Untouched(s, t, q);
  }

  predicate SameEntry(s: Sys, t: Sys, i: nat) {
    i in s.table && i in t.table && s.table[i] == t.table[i]
  }

  lemma Untouched(s: Sys, t: Sys, q: Bytes)
    requires PeerOk(s, q) && (q in t.peers <==> q in s.peers) && (q in s.peers ==> s.peers[q] == t.peers[q])
    requires forall i :: i in s.table && s.table[i].peer == q ==> SameEntry(s, t, i)
    ensures PeerOk(t, q)
  {
  }

  lemma BeginKeeps(s: Sys, pk: Bytes, keys: Keys)
    requires Inv(s) && pk in s.peers && s.peers[pk].handshake.localIndex != 0
    ensures Inv(Begin(s, pk, keys))
  {
    assert Begin(s, pk, keys).peers.Keys == s.peers.Keys;
    assert PeerOk(s, pk);
    forall i ensures EntryOk(Begin(s, pk, keys), i) {
      assert EntryOk(s, i);
      BeginEntry(s, pk, keys, i);
    }
    forall q ensures PeerOk(Begin(s, pk, keys), q) {
      assert PeerOk(s, q);
      if q == pk { BeginOwner(s, pk, keys); } else { BeginOther(s, pk, keys, q); }
    }
  }

  lemma ReceivedKeeps(s: Sys, pk: Bytes)
    requires Inv(s) && pk in s.peers
    ensures Inv(Received(s, pk))
  {
    var t := Received(s, pk);
    assert t.peers.Keys == s.peers.Keys;
    forall i ensures EntryOk(t, i) { assert EntryOk(s, i) && PeerOk(s, pk); }
    forall q ensures PeerOk(t, q) { assert PeerOk(s, q) && PeerOk(s, pk); }
  }

  lemma ZeroAndFlushEntry(s: Sys, pk: Bytes, i: nat)
    requires pk in s.peers && EntryOk(s, i) && EntryOk(s, 0) && PeerOk(s, pk)
    ensures EntryOk(ZeroAndFlush(s, pk), i)
    ensures i in ZeroAndFlush(s, pk).table <==> i in s.table && s.table[i].peer != pk
  {
  }

  lemma ZeroAndFlushKeeps(s: Sys, pk: Bytes)
    requires Inv(s) && pk in s.peers
    ensures Inv(ZeroAndFlush(s, pk))
    ensures forall i :: i in ZeroAndFlush(s, pk).table <==> i in s.table && s.table[i].peer != pk
  {
    var t := ZeroAndFlush(s, pk);
    assert t.peers.Keys == s.peers.Keys;
    assert PeerOk(s, pk) && EntryOk(s, 0);
    forall i ensures EntryOk(t, i) && (i in t.table <==> i in s.table && s.table[i].peer != pk) {
      assert EntryOk(s, i);
      ZeroAndFlushEntry(s, pk, i);
    }
    forall q ensures PeerOk(t, q) { assert PeerOk(s, q); }
  }

  lemma ExpireKeeps(s: Sys, pk: Bytes)
    requires Inv(s) && pk in s.peers
    ensures Inv(Expire(s, pk))
  {
    var t := Expire(s, pk);
    assert t.peers.Keys == s.peers.Keys;
    forall i ensures EntryOk(t, i) { assert EntryOk(s, i) && PeerOk(s, pk); }
    forall q ensures PeerOk(t, q) { assert PeerOk(s, q) && PeerOk(s, pk) && EntryOk(s, 0); }
  }

  lemma NewPeerKeeps(s: Sys, pk: Bytes, precomputed: Bytes)
    requires Inv(s) && pk !in s.peers && |s.peers| < MAX_PEERS
    ensures Inv(SetPeer(s, pk, Peer(NewHandshake(pk, precomputed), None, None, None)))
  {
    var t := SetPeer(s, pk, Peer(NewHandshake(pk, precomputed), None, None, None));
    assert t.peers.Keys == s.peers.Keys + {pk};
    forall i ensures EntryOk(t, i) { assert EntryOk(s, i); }
    forall q ensures PeerOk(t, q) { assert PeerOk(s, q); }
  }

  // ---------- the table is the disjoint union of what the peers hold ----------

  function IndexOf(k: Option<Keypair>): set<nat> {
    if k.Some? then {k.value.localIndex} else {}
  }

  function HandshakeIndex(p: Peer): set<nat> {
    if p.handshake.localIndex == 0 then {} else {p.handshake.localIndex}
  }

  /** The indexes a peer holds: of its handshake and of its three keypair slots. */
  function LiveIndexes(p: Peer): set<nat> {
    HandshakeIndex(p) + IndexOf(p.previous) + IndexOf(p.current) + IndexOf(p.next)
  }

  lemma HeldByPeer(s: Sys, pk: Bytes, i: nat)
    requires Inv(s) && pk in s.peers
    ensures i in LiveIndexes(s.peers[pk]) <==> i in s.table && s.table[i].peer == pk
  {
    assert EntryOk(s, i) && PeerOk(s, pk);
  }

  lemma HeldOnce(s: Sys, pk: Bytes)
    requires Inv(s) && pk in s.peers
    ensures var p := s.peers[pk];
            HandshakeIndex(p) !! IndexOf(p.previous) !! IndexOf(p.current) !! IndexOf(p.next)
  {
    assert PeerOk(s, pk);
  }

  /** Every index belongs to one peer, and to one of the four things that peer holds. */
  lemma TableIsDisjointUnion(s: Sys)
    requires Inv(s)
    ensures forall i :: i in s.table <==> exists pk :: pk in s.peers && i in LiveIndexes(s.peers[pk])
    ensures forall pk, q :: pk in s.peers && q in s.peers && pk != q
                            ==> LiveIndexes(s.peers[pk]) !! LiveIndexes(s.peers[q])
  {
    forall i ensures i in s.table <==> exists pk :: pk in s.peers && i in LiveIndexes(s.peers[pk]) {
      if i in s.table {
        assert EntryOk(s, i);
        HeldByPeer(s, s.table[i].peer, i);
      }
      forall pk | pk in s.peers ensures i in LiveIndexes(s.peers[pk]) ==> i in s.table { HeldByPeer(s, pk, i); }
    }
    forall pk, q | pk in s.peers && q in s.peers && pk != q
        ensures LiveIndexes(s.peers[pk]) !! LiveIndexes(s.peers[q]) {
      forall i | i in LiveIndexes(s.peers[pk]) ensures i !in LiveIndexes(s.peers[q]) {
        HeldByPeer(s, pk, i);
        HeldByPeer(s, q, i);
      }
    }
  }

  /** A running peer is flushed before it goes; one that does not run just goes. */
  function Remove(s: Sys, pk: Bytes, running: bool): Sys {
    if pk !in s.peers then s
    else if running then Drop(ZeroAndFlush(s, pk), pk)
    else Drop(s, pk)
  }

  function Drop(s: Sys, pk: Bytes): Sys { s.(peers := s.peers - {pk}) }

  lemma DropKeeps(z: Sys, pk: Bytes)
    requires Inv(z) && forall i :: i in z.table ==> z.table[i].peer != pk
    ensures Inv(Drop(z, pk))
  {
    var t := Drop(z, pk);
    assert t.peers.Keys == z.peers.Keys - {pk};
    forall i ensures EntryOk(t, i) { assert EntryOk(z, i); }
    forall q ensures PeerOk(t, q) { assert PeerOk(z, q); }
  }

  lemma FlushedPeerGoes(s: Sys, pk: Bytes)
    requires Inv(s) && pk in s.peers
    ensures Inv(Remove(s, pk, true)) && Remove(s, pk, true).peers == s.peers - {pk}
    ensures forall i :: i in Remove(s, pk, true).table <==> i in s.table && s.table[i].peer != pk
  {
    ZeroAndFlushKeeps(s, pk);
    DropKeeps(ZeroAndFlush(s, pk), pk);
  }

  lemma IdlePeerGoesIff(s: Sys, pk: Bytes)
    requires Inv(s) && pk in s.peers
    ensures Inv(Remove(s, pk, false)) <==> LiveIndexes(s.peers[pk]) == {}
  {
    if i :| i in LiveIndexes(s.peers[pk]) {
      HeldByPeer(s, pk, i);
      assert !EntryOk(Remove(s, pk, false), i);
    } else {
      forall i | i in s.table ensures s.table[i].peer != pk { HeldByPeer(s, pk, i); }
      DropKeeps(s, pk);
    }
  }

  /** Removal leaves a good table exactly when the peer runs, or holds no index. */
  lemma RemoveKeepsIff(s: Sys, pk: Bytes, running: bool)
    requires Inv(s)
    ensures Inv(Remove(s, pk, running)) <==> pk !in s.peers || running || LiveIndexes(s.peers[pk]) == {}
    ensures pk in s.peers && running ==> forall i :: i in Remove(s, pk, running).table
                                                     <==> i in s.table && s.table[i].peer != pk
  {
    if pk in s.peers {
      if running { FlushedPeerGoes(s, pk); } else { IdlePeerGoesIff(s, pk); }
    }
  }

  // ---------- whole runs ----------

  datatype Step =
    | AddPeer(pk: Bytes, precomputed: Bytes)
    | TakeIndex(pk: Bytes, h: Handshake, index: nat)
    | Update(pk: Bytes, h: Handshake)
    | BeginSession(pk: Bytes, keys: Keys)
    | Confirm(pk: Bytes, received: Keypair)
    | Flush(pk: Bytes)
    | Lapse(pk: Bytes)
    | DropPeer(pk: Bytes, running: bool)

  /** What the code checks, or has drawn, before it takes the step. */
  predicate Allowed(s: Sys, step: Step) {
    if step.AddPeer? then step.pk !in s.peers && |s.peers| < MAX_PEERS
    else if step.DropPeer? then step.pk !in s.peers || step.running || LiveIndexes(s.peers[step.pk]) == {}
    else
      && step.pk in s.peers
      && var h := s.peers[step.pk].handshake;
         match step
         case TakeIndex(_, _, index) => index != 0 && index !in s.table - {h.localIndex}
         case Update(_, h') => h'.localIndex == h.localIndex
             && (Indexed(h'.state) ==> h.localIndex != 0 || h'.state == h.state)
         case BeginSession(_, _) => h.state in {ResponseCreated, ResponseConsumed}
         case _ => true
  }

  predicate Indexed(state: State) {
    state in {InitiationCreated, ResponseCreated, ResponseConsumed}
  }

  function Do(s: Sys, step: Step): Sys
    requires Allowed(s, step)
  {
    match step
    case AddPeer(pk, precomputed) => SetPeer(s, pk, Peer(NewHandshake(pk, precomputed), None, None, None))
    case TakeIndex(pk, h, index) => AssignIndex(s, pk, h, index)
    case Update(pk, h) => SetHandshake(s, pk, h)
    case BeginSession(pk, keys) => Begin(s, pk, keys)
    case Confirm(pk, received) => if s.peers[pk].next == Some(received) then Received(s, pk) else s
    case Flush(pk) => ZeroAndFlush(s, pk)
    case Lapse(pk) => Expire(s, pk)
    case DropPeer(pk, running) => Remove(s, pk, running)
  }

  lemma StepKeeps(s: Sys, step: Step)
    requires Inv(s) && Allowed(s, step)
    ensures Inv(Do(s, step))
  {
    match step
    case AddPeer(pk, precomputed) => NewPeerKeeps(s, pk, precomputed);
    case TakeIndex(pk, h, index) => AssignIndexKeeps(s, pk, h, index);
    case Update(pk, h) => SetHandshakeKeeps(s, pk, h);
    case BeginSession(pk, keys) =>
      assert PeerOk(s, pk);
      BeginKeeps(s, pk, keys);
    case Confirm(pk, _) => ReceivedKeeps(s, pk);
    case Flush(pk) => ZeroAndFlushKeeps(s, pk);
    case Lapse(pk) => ExpireKeeps(s, pk);
    case DropPeer(pk, running) => RemoveKeepsIff(s, pk, running);
  }

  /** The states a run of allowed steps passes through. */
  ghost predicate IsRun(states: seq<Sys>, steps: seq<Step>) {
    && |states| == |steps| + 1
    && states[0] == Sys(map[], map[], 0)
    && forall k :: 0 <= k < |steps| ==> Allowed(states[k], steps[k]) && states[k + 1] == Do(states[k], steps[k])
  }

  /** In every reachable state the table is the disjoint union of what the peers hold. */
  lemma {:induction false} EveryRunKeeps(states: seq<Sys>, steps: seq<Step>, k: nat)
    requires IsRun(states, steps) && k < |states|
    ensures Inv(states[k])
  {
    if k > 0 {
      EveryRunKeeps(states, steps, k - 1);
      StepKeeps(states[k - 1], steps[k - 1]);
    } else {
      forall i ensures EntryOk(states[0], i) {}
      forall pk ensures PeerOk(states[0], pk) {}
    }
  }

  // ---------- the zero index ----------

  /** A drawn index is usable exactly when it is not the value that means "none". */
  lemma IndexUsableIffNonzero(s: Sys, pk: Bytes, h: Handshake, index: nat)
    requires Inv(s) && pk in s.peers && index !in s.table - {s.peers[pk].handshake.localIndex}
    ensures Inv(AssignIndex(s, pk, h, index)) <==> index != 0
  {
    if index != 0 {
      AssignIndexKeeps(s, pk, h, index);
    } else {
      assert !EntryOk(AssignIndex(s, pk, h, index), 0);
    }
  }

  lemma ZeroEntryIsBad(s: Sys)
    requires 0 in s.table
    ensures !Inv(s)
  {
    assert !EntryOk(s, 0);
  }

  /**
   * From any good state: once a peer's handshake has drawn index 0, the next index draw, flush
   * or expiry of any other peer whose handshake index is 0, "none", removes its entry.
   */
  lemma ZeroIndexIsLost(s: Sys, pk: Bytes, h: Handshake, step: Step)
    requires Inv(s) && pk in s.peers && (step.TakeIndex? || step.Flush? || step.Lapse?)
    requires var t := AssignIndex(s, pk, h, 0);
             Allowed(t, step) && step.pk != pk && t.peers[step.pk].handshake.localIndex == 0
    ensures var t := AssignIndex(s, pk, h, 0);
            && 0 in t.table && t.table[0] == Entry(pk, None) && 0 !in Do(t, step).table
            && Do(t, step).peers[pk].handshake == h.(localIndex := 0)
  {
    assert EntryOk(s, 0);
  }

  // ---------- at most four entries a peer, and a free index ----------

  function Owned(p: Peer): (r: set<nat>)
    ensures |r| <= 4
  {
    var hs: set<nat> := {p.handshake.localIndex};
    Count(hs, IndexOf(p.previous), IndexOf(p.current), IndexOf(p.next));
    hs + IndexOf(p.previous) + IndexOf(p.current) + IndexOf(p.next)
  }

  lemma Count(a: set<nat>, b: set<nat>, c: set<nat>, d: set<nat>)
    ensures |a + b + c + d| <= |a| + |b| + |c| + |d|
  {
    assert |a + b| <= |a| + |b|;
    assert |a + b + c| <= |a + b| + |c|;
    assert |a + b + c + d| <= |a + b + c| + |d|;
  }

  function EntriesOf(s: Sys, pks: set<Bytes>): set<nat> {
    set i | i in s.table && s.table[i].peer in pks
  }

  lemma FourOfOne(s: Sys, pk: Bytes)
    requires Inv(s) && pk in s.peers
    ensures |EntriesOf(s, {pk})| <= 4
  {
    var own := EntriesOf(s, {pk});
    forall i | i in own ensures i in Owned(s.peers[pk]) { assert EntryOk(s, i); }
    Subset(own, Owned(s.peers[pk]));
  }

  lemma {:induction false} FourPerPeer(s: Sys, pks: set<Bytes>)
    requires Inv(s) && pks <= s.peers.Keys
    ensures |EntriesOf(s, pks)| <= 4 * |pks|
  {
    if pks == {} {
      assert EntriesOf(s, pks) == {};
    } else {
      var pk :| pk in pks;
      FourPerPeer(s, pks - {pk});
      FourOfOne(s, pk);
      assert EntriesOf(s, pks) == EntriesOf(s, pks - {pk}) + EntriesOf(s, {pk});
    }
  }

  lemma {:induction false} Subset(a: set<nat>, b: set<nat>)
    requires a <= b
    ensures |a| <= |b|
  {
    assert b == a + (b - a);
  }

  /** The table holds at most four entries a peer: at most 2^18 in all. */
  lemma TableIsSmall(s: Sys)
    requires Inv(s)
    ensures |s.table| <= 4 * |s.peers| <= 0x4_0000
  {
    FourPerPeer(s, s.peers.Keys);
    forall i | i in s.table ensures s.table[i].peer in s.peers { assert EntryOk(s, i); }
    assert EntriesOf(s, s.peers.Keys) == s.table.Keys;
  }

  function Range(n: nat): (r: set<nat>)
    ensures |r| == n && forall i :: i in r <==> 0 < i <= n
  {
    if n == 0 then {} else Range(n - 1) + {n}
  }

  /** So a nonzero 32-bit index is always free, and drawing one can end. */
  lemma FreeIndexExists(s: Sys) returns (i: nat)
    requires Inv(s)
    ensures 0 < i < 0x1_0000_0000 && i !in s.table
  {
    TableIsSmall(s);
    if Range(0x4_0001) <= s.table.Keys {
      Subset(Range(0x4_0001), s.table.Keys);
    }
    i :| i in Range(0x4_0001) && i !in s.table;
  }
}
