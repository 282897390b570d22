/**
 * The device of device/noise-protocol.go, indextable.go, keypair.go and peer.go with its
 * fields and its in-place key derivation. Each exported method is one atomic step, and is
 * proved to be the step that Noise.dfy and Rotation.dfy reason about.
 */
module Device {
  import opened KeyDerivation
  import opened Noise
  import opened Options
  import opened Rotation

  class IndexTable {
    var table: map<nat, Entry>

    constructor ()
      ensures table == map[]
    {
      table := map[];
    }

    method Delete(index: nat)
      modifies this
      ensures table == old(table) - {index}
    {
      table := table - {index};
    }

    method SwapIndexForKeypair(index: nat, keypair: Keypair)
      modifies this
      ensures table == if index in old(table) then old(table)[index := Entry(old(table)[index].peer, Some(keypair))]
          else old(table)
    {
      if index !in table {
        return;
      }
      var entry := table[index];
      table := table[index := Entry(entry.peer, Some(keypair))];
    }

    /** Draw until an unused index comes up. `draws` is the random source. */
    method NewIndexForHandshake(peer: Bytes, draws: nat -> nat, ghost last: nat) returns (index: nat, ghost at: nat)
      requires draws(last) !in table
      modifies this
      ensures index == draws(at) && index !in old(table) && table == old(table)[index := Entry(peer, None)]
      ensures forall i: nat :: i < at ==> draws(i) in old(table)
    {
      var i := 0;
      while draws(i) in table
        invariant i <= last && forall j: nat :: j < i ==> draws(j) in table
        decreases last - i
      {
        i := i + 1;
      }
      index, at := draws(i), i;
      table := table[index := Entry(peer, None)];
    }

    method Lookup(index: nat) returns (entry: Option<Entry>)
      ensures entry == if index in table then Some(table[index]) else None
    {
      entry := if index in table then Some(table[index]) else None;
    }
  }

  lemma HandshakeIndexed(s: Sys, i: nat)
    requires Inv(s) && i in s.table && s.table[i].keypair.None?
    ensures s.table[i].peer in s.peers && s.peers[s.table[i].peer].handshake.localIndex == i != 0
  {
    assert EntryOk(s, i);
  }

  lemma SessionIndexed(s: Sys, pk: Bytes)
    requires Inv(s) && pk in s.peers && s.peers[pk].handshake.state in {ResponseCreated, ResponseConsumed}
    ensures s.peers[pk].handshake.localIndex != 0
  {
    assert PeerOk(s, pk);
  }

  class Device {
    const c: Crypto
    const privateKey: Bytes
    const indexTable: IndexTable
    var peers: map<Bytes, Peer>
    var serial: nat

    ghost function Now(): Sys
      reads this, indexTable
    {
      Sys(indexTable.table, peers, serial)
    }

    ghost function Handshakes(running: set<Bytes>): map<Bytes, Handshake>
      reads this
    {
      map pk | pk in peers && pk in running :: peers[pk].handshake
    }

    /** The response names a handshake in progress, and that handshake accepts it. */
    ghost predicate ResponseTaken(s: Sys, m: Response) {
      && m.receiver in s.table && s.table[m.receiver].keypair.None? && s.table[m.receiver].peer in s.peers
      && ConsumeResponse(c, privateKey, s.peers[s.table[m.receiver].peer].handshake, m).Some?
    }

    ghost predicate Valid()
      reads this, indexTable
    {
      Inv(Now())
    }

    constructor (c: Crypto, privateKey: Bytes)
      ensures Valid() && peers == map[] && fresh(indexTable) && this.c == c && this.privateKey == privateKey
    {
      this.c, this.privateKey := c, privateKey;
      indexTable := new IndexTable();
      peers, serial := map[], 0;
    }

    /** Fails on a known key, and at the limit of 2^16 peers. */
    method NewPeer(pk: Bytes) returns (ok: bool)
      requires Valid()
      modifies this
      ensures Valid() && ok == (|old(peers)| < MAX_PEERS && pk !in old(peers))
      ensures peers == if ok then old(peers)[pk := Peer(NewHandshake(pk, c.dh(privateKey, pk)), None, None, None)]
          else old(peers)
      ensures serial == old(serial)
    {
      if |peers| >= MAX_PEERS || pk in peers {
        return false;
      }
      NewPeerKeeps(Now(), pk, c.dh(privateKey, pk));
      peers := peers[pk := Peer(NewHandshake(pk, c.dh(privateKey, pk)), None, None, None)];
      return true;
    }

    // ---------- the handshake messages ----------

    method CreateMessageInitiation(pk: Bytes, e: Bytes, now: Bytes, draws: nat -> nat, ghost last: nat)
      returns (msg: Option<Initiation>, index: nat)
      requires Valid() && pk in peers && Free(draws(last), pk)
      modifies this, indexTable
      ensures Valid() <==> msg.None? || index != 0
      ensures var r := CreateInitiation(c, old(peers)[pk].handshake, c.pub(privateKey), e, now, index);
              && msg == r.1
              && Now() == (if msg.Some? then AssignIndex(old(Now()), pk, r.0, index)
                  else SetHandshake(old(Now()), pk, r.0))
    {
      var h := peers[pk].handshake;
      var hash := c.initialHash;
      var chainKey := new Block(c.initialKey);
      var key := new Block([]);
      index := 0;
      h := h.(localEphemeral := e);
      hash := c.hash(hash, h.remoteStatic);
      var ephemeral := c.pub(e);
      KDF1(c, chainKey, chainKey, ephemeral);
      hash := c.hash(hash, ephemeral);
      var ss := c.dh(e, h.remoteStatic);
      if IsZero(ss) {
        msg := None;
        StoreHandshake(pk, h.(chain := Chain(hash, chainKey.v)));
        return;
      }
      KDF2(c, chainKey, key, chainKey, ss);
      var static_ := c.seal(key.v, c.pub(privateKey), hash);
      hash := c.hash(hash, static_);
      if IsZero(h.precomputed) {
        msg := None;
        StoreHandshake(pk, h.(chain := Chain(hash, chainKey.v)));
        return;
      }
      KDF2(c, chainKey, key, chainKey, h.precomputed);
      var timestamp := c.seal(key.v, now, hash);
      hash := c.hash(hash, timestamp);
      index := TakeIndex(pk, h.(chain := Chain(hash, chainKey.v), state := InitiationCreated), draws, last);
      msg := Some(Initiation(INITIATION_TYPE, index, ephemeral, static_, timestamp));
    }

    /** An index the handshake of `pk` can take: not in use, or its own. */
    ghost predicate Free(index: nat, pk: Bytes)
      requires pk in peers
      reads this, indexTable
    {
      index !in indexTable.table - {peers[pk].handshake.localIndex}
    }

    method StoreHandshake(pk: Bytes, h: Handshake)
      requires pk in peers && h.localIndex == peers[pk].handshake.localIndex
      requires Indexed(h.state) ==> h.localIndex != 0 || h.state == peers[pk].handshake.state || !Valid()
      modifies this
      ensures old(Valid()) ==> Valid()
      ensures Now() == SetHandshake(old(Now()), pk, h)
    {
      if Valid() { SetHandshakeKeeps(Now(), pk, h); }
      peers := peers[pk := peers[pk].(handshake := h)];
    }

    /** Give the old index back, draw a new one, store the handshake: right exactly when 0 is not drawn. */
    method TakeIndex(pk: Bytes, h: Handshake, draws: nat -> nat, ghost last: nat) returns (index: nat)
      requires Valid() && pk in peers && Free(draws(last), pk)
      modifies this, indexTable
      ensures (Valid() <==> index != 0) && index !in (old(indexTable.table) - {old(peers)[pk].handshake.localIndex})
      ensures Now() == AssignIndex(old(Now()), pk, h, index)
    {
      ghost var s := Now();
      ghost var at;
      indexTable.Delete(peers[pk].handshake.localIndex);
      index, at := indexTable.NewIndexForHandshake(pk, draws, last);
      IndexUsableIffNonzero(s, pk, h, index);
      peers := peers[pk := peers[pk].(handshake := h.(localIndex := index))];
    }

    method ConsumeMessageInitiation(m: Initiation, running: set<Bytes>, clock: int) returns (r: Option<Bytes>)
      requires Valid()
      modifies this
      ensures Valid()
      ensures var got := ConsumeInitiation(c, privateKey, old(Handshakes(running)), m, clock);
              if got.None? then r.None? && Now() == old(Now())
              else r == Some(got.value.0) && got.value.0 in old(peers)
                   && Now() == SetHandshake(old(Now()), got.value.0, got.value.1)
    {
      if m.typ != INITIATION_TYPE {
        return None;
      }
      var hash := c.hash(c.initialHash, c.pub(privateKey));
      hash := c.hash(hash, m.ephemeral);
      var initial := new Block(c.initialKey);
      var chainKey := new Block([]);
      var key := new Block([]);
      KDF1(c, chainKey, initial, m.ephemeral);
      var ss := c.dh(privateKey, m.ephemeral);
      if IsZero(ss) {
        return None;
      }
      KDF2(c, chainKey, key, chainKey, ss);
      var found := c.open(key.v, m.static_, hash);
      if found.None? {
        return None;
      }
      hash := c.hash(hash, m.static_);
      assert OpenStatic(c, privateKey, m) == Some((found.value, Chain(hash, chainKey.v)));
      r := FinishInitiation(m, running, clock, found.value, hash, chainKey);
    }

    /** The second half: the peer is known by its static key. */
    method FinishInitiation(m: Initiation, running: set<Bytes>, clock: int, pk: Bytes, hash0: Bytes, chainKey: Block)
      returns (r: Option<Bytes>)
      requires Valid() && m.typ == INITIATION_TYPE && OpenStatic(c, privateKey, m)
          == Some((pk, Chain(hash0, chainKey.v)))
      modifies this, chainKey
      ensures Valid()
      ensures var got := ConsumeInitiation(c, privateKey, old(Handshakes(running)), m, clock);
              if got.None? then r.None? && Now() == old(Now())
              else r == Some(got.value.0) && got.value.0 in old(peers)
                   && Now() == SetHandshake(old(Now()), got.value.0, got.value.1)
    {
      if pk !in peers || pk !in running {
        return None;
      }
      var h := peers[pk].handshake;
      if IsZero(h.precomputed) {
        return None;
      }
      var key := new Block([]);
      KDF2(c, chainKey, key, chainKey, h.precomputed);
      var timestamp := c.open(key.v, m.timestamp, hash0);
      if timestamp.None? {
        return None;
      }
      var hash := c.hash(hash0, m.timestamp);
      var replay := !After(timestamp.value, h.lastTimestamp);
      var flood := clock - h.lastConsumption <= INITIATION_RATE;
      if replay || flood {
        return None;
      }
      h := h.(chain := Chain(hash, chainKey.v), remoteIndex := m.sender, remoteEphemeral := m.ephemeral);
      if After(timestamp.value, h.lastTimestamp) {
        h := h.(lastTimestamp := timestamp.value);
      }
      if clock > h.lastConsumption {
        h := h.(lastConsumption := clock);
      }
      StoreHandshake(pk, h.(state := InitiationConsumed));
      return Some(pk);
    }

    method CreateMessageResponse(pk: Bytes, e: Bytes, draws: nat -> nat, ghost last: nat)
      returns (msg: Option<Response>, index: nat)
      requires Valid() && pk in peers && Free(draws(last), pk)
      modifies this, indexTable
      ensures Valid() <==> old(peers)[pk].handshake.state != InitiationConsumed || index != 0
      ensures var h := old(peers)[pk].handshake;
              var r := CreateResponse(c, h, e, index);
              && msg == r.1
              && Now() == (if h.state == InitiationConsumed then AssignIndex(old(Now()), pk, r.0, index)
                  else old(Now()))
    {
      var h := peers[pk].handshake;
      msg, index := None, 0;
      if h.state != InitiationConsumed {
        return;
      }
      index := TakeIndex(pk, h, draws, last);
      RespondIndexed(h, e, index);
      h, msg := Respond(h.(localIndex := index), e);
      StoreHandshake(pk, h);
      if index == 0 { ZeroEntryIsBad(Now()); }
    }

    lemma RespondIndexed(h: Handshake, e: Bytes, index: nat)
      ensures CreateResponse(c, h.(localIndex := index), e, index) == CreateResponse(c, h, e, index)
          || h.state != InitiationConsumed
    {
    }

    /** The cryptographic part, on the handshake that already has its index. */
    method Respond(h0: Handshake, e: Bytes) returns (h: Handshake, msg: Option<Response>)
      requires h0.state == InitiationConsumed
      ensures (h, msg) == CreateResponse(c, h0, e, h0.localIndex) && h.localIndex == h0.localIndex
    {
      h, msg := h0.(localEphemeral := e), None;
      var ephemeral := c.pub(e);
      var hash := c.hash(h.chain.hash, ephemeral);
      var chainKey := new Block(h.chain.key);
      KDF1(c, chainKey, chainKey, ephemeral);
      var ss := c.dh(e, h.remoteEphemeral);
      if IsZero(ss) {
        h := h.(chain := Chain(hash, chainKey.v));
        return;
      }
      KDF1(c, chainKey, chainKey, ss);
      ss := c.dh(e, h.remoteStatic);
      if IsZero(ss) {
        h := h.(chain := Chain(hash, chainKey.v));
        return;
      }
      KDF1(c, chainKey, chainKey, ss);
      var tau := new Block([]);
      var key := new Block([]);
      KDF3(c, chainKey, tau, key, chainKey, h.presharedKey);
      hash := c.hash(hash, tau.v);
      var empty := c.seal(key.v, [], hash);
      hash := c.hash(hash, empty);
      h := h.(chain := Chain(hash, chainKey.v), state := ResponseCreated);
      msg := Some(Response(RESPONSE_TYPE, h.localIndex, h.remoteIndex, ephemeral, empty));
    }

    /** The response finds its handshake by the index in it. */
    method ConsumeMessageResponse(m: Response) returns (r: Option<Bytes>)
      requires Valid()
      modifies this
      ensures Valid()
      ensures m.receiver in old(indexTable.table) ==> old(indexTable.table)[m.receiver].peer in old(peers)
      ensures r == if ResponseTaken(old(Now()), m) then Some(old(indexTable.table)[m.receiver].peer) else None
      ensures Now() == if r.None? then old(Now())
                       else SetHandshake(old(Now()), r.value, ConsumeResponse(c, privateKey,
                            old(peers)[r.value].handshake, m).value)
    {
      ghost var s := Now();
      assert EntryOk(s, m.receiver);
      if m.typ != RESPONSE_TYPE {
        return None;
      }
      var lookup := indexTable.Lookup(m.receiver);
      if lookup.None? || lookup.value.keypair.Some? {
        return None;
      }
      var pk := lookup.value.peer;
      var h := peers[pk].handshake;
      if h.state != InitiationCreated {
        return None;
      }
      var hash := c.hash(h.chain.hash, m.ephemeral);
      var chainKey := new Block(h.chain.key);
      KDF1(c, chainKey, chainKey, m.ephemeral);
      var ss := c.dh(h.localEphemeral, m.ephemeral);
      if IsZero(ss) {
        return None;
      }
      KDF1(c, chainKey, chainKey, ss);
      ss := c.dh(privateKey, m.ephemeral);
      if IsZero(ss) {
        return None;
      }
      KDF1(c, chainKey, chainKey, ss);
      var tau := new Block([]);
      var key := new Block([]);
      KDF3(c, chainKey, tau, key, chainKey, h.presharedKey);
      hash := c.hash(hash, tau.v);
      if c.open(key.v, m.empty, hash).None? {
        return None;
      }
      hash := c.hash(hash, m.empty);
      HandshakeIndexed(s, m.receiver);
      StoreHandshake(pk, h.(chain := Chain(hash, chainKey.v), remoteIndex := m.sender, state := ResponseConsumed));
      return Some(pk);
    }

    // ---------- sessions ----------

    /** Only a finished handshake becomes a session. */
    method BeginSymmetricSession(pk: Bytes) returns (ok: bool)
      requires Valid() && pk in peers
      modifies this, indexTable
      ensures Valid()
      ensures var keys := SessionKeys(c, old(peers)[pk].handshake);
              ok == keys.Some? && Now() == if ok then Begin(old(Now()), pk, keys.value) else old(Now())
    {
      ghost var s := Now();
      var p := peers[pk];
      var keys := DeriveKeys(p.handshake);
      if keys.None? {
        return false;
      }
      SessionIndexed(s, pk);
      BeginKeeps(s, pk, keys.value);
      var h := p.handshake.(chain := Chain([], []), localEphemeral := [], state := Zeroed);
      var k := Keypair(serial, h.localIndex, h.remoteIndex, keys.value);
      serial := serial + 1;
      indexTable.SwapIndexForKeypair(h.localIndex, k);
      h := h.(localIndex := 0);
      RotateKeypairs(pk, p.(handshake := h), k);
      return true;
    }

    method DeriveKeys(h: Handshake) returns (keys: Option<Keys>)
      ensures keys == SessionKeys(c, h)
    {
      var chainKey := new Block(h.chain.key);
      var send := new Block([]);
      var receive := new Block([]);
      var isInitiator := h.state == ResponseConsumed;
      if isInitiator {
        KDF2(c, send, receive, chainKey, []);
      } else if h.state == ResponseCreated {
        KDF2(c, receive, send, chainKey, []);
      } else {
        return None;
      }
      return Some(Keys(send.v, receive.v, isInitiator));
    }

    method RotateKeypairs(pk: Bytes, p: Peer, k: Keypair)
      modifies this, indexTable
      ensures Now() == Rotate(old(Now()), pk, p, k)
    {
      if k.keys.isInitiator {
        if p.next.Some? {
          DeleteKeypair(p.current);
          DeleteKeypair(p.previous);
          peers := peers[pk := p.(next := None, previous := p.next, current := Some(k))];
        } else {
          DeleteKeypair(p.previous);
          peers := peers[pk := p.(previous := p.current, current := Some(k))];
        }
      } else {
        DeleteKeypair(p.next);
        DeleteKeypair(p.previous);
        peers := peers[pk := p.(next := Some(k), previous := None)];
      }
    }

    method DeleteKeypair(k: Option<Keypair>)
      modifies indexTable
      ensures Now() == Rotation.DeleteKeypair(old(Now()), k)
    {
      if k.Some? {
        indexTable.Delete(k.value.localIndex);
      }
    }

    /** True exactly when the keypair was the waiting one, which it then replaces. */
    method ReceivedWithKeypair(pk: Bytes, received: Keypair) returns (rotated: bool)
      requires Valid() && pk in peers
      modifies this, indexTable
      ensures Valid() && rotated == (old(peers)[pk].next == Some(received))
      ensures Now() == if rotated then Received(old(Now()), pk) else old(Now())
    {
      ghost var s := Now();
      var p := peers[pk];
      if p.next != Some(received) {
        return false;
      }
      ReceivedKeeps(s, pk);
      DeleteKeypair(p.previous);
      peers := peers[pk := p.(previous := p.current, current := p.next, next := None)];
      return true;
    }

    method ZeroAndFlushAll(pk: Bytes)
      requires Valid() && pk in peers
      modifies this, indexTable
      ensures Valid() && Now() == ZeroAndFlush(old(Now()), pk)
    {
      ZeroAndFlushKeeps(Now(), pk);
      var p := peers[pk];
      DeleteKeypair(p.previous);
      DeleteKeypair(p.current);
      DeleteKeypair(p.next);
      indexTable.Delete(p.handshake.localIndex);
      peers := peers[pk := Peer(Clear(p.handshake), None, None, None)];
    }

    /** The handshake's index goes; the keypairs keep theirs (their nonces are spent instead). */
    method ExpireCurrentKeypairs(pk: Bytes)
      requires Valid() && pk in peers
      modifies this, indexTable
      ensures Valid() && Now() == Expire(old(Now()), pk)
    {
      ExpireKeeps(Now(), pk);
      var p := peers[pk];
      indexTable.Delete(p.handshake.localIndex);
      peers := peers[pk := p.(handshake := Clear(p.handshake))];
    }

    /**
     * A running peer leaves no entry behind. One that does not run is not flushed: the table
     * stays good exactly when the peer held no index.
     */
    method RemovePeer(pk: Bytes, running: bool)
      requires Valid()
      modifies this, indexTable
      ensures Now() == Remove(old(Now()), pk, running) && peers == old(peers) - {pk}
      ensures Valid() <==> pk !in old(peers) || running || LiveIndexes(old(peers)[pk]) == {}
    {
      RemoveKeepsIff(Now(), pk, running);
      if pk in peers {
        if running {
          ZeroAndFlushAll(pk);
        }
        peers := peers - {pk};
      }
    }
  }

  /** Two devices that have just been made known to each other complete a handshake. */
  lemma NewPeersAgree(c: Crypto, si: Bytes, sr: Bytes, ei: Bytes, er: Bytes, now: Bytes, clock: int, i: nat, r: nat)
    requires Lawful(c)
    ensures var hi := NewHandshake(c.pub(sr), c.dh(si, c.pub(sr)));
            var peers := map[c.pub(si) := NewHandshake(c.pub(si), c.dh(sr, c.pub(si)))];
            var run := HonestRun(c, si, sr, hi, peers, ei, er, now, clock, i, r);
            run.Some? <==>
              && !IsZero(c.dh(ei, c.pub(sr))) && !IsZero(c.dh(si, c.pub(sr)))
              && !IsZero(c.dh(ei, c.pub(er))) && !IsZero(c.dh(si, c.pub(er)))
              && After(now, Zeros(12)) && clock > 20_000_000
  {
    var peers := map[c.pub(si) := NewHandshake(c.pub(si), c.dh(sr, c.pub(si)))];
    HonestRunAgrees(c, si, sr, NewHandshake(c.pub(sr), c.dh(si, c.pub(sr))), peers, ei, er, now, clock, i, r);
  }
}
