/**
 * The handshake of device/noise-protocol.go (section 5.4 of the WireGuard whitepaper) over
 * uninterpreted primitives. Only two laws are asked of them: Diffie-Hellman commutes, and
 * opening undoes sealing.
 */
module Noise {
  import opened Options

  type Bytes = seq<nat>

  datatype Crypto = Crypto(
    initialKey: Bytes,
    initialHash: Bytes,
    hash: (Bytes, Bytes) -> Bytes,
    hmac: (Bytes, Bytes) -> Bytes,
    pub: Bytes -> Bytes,
    dh: (Bytes, Bytes) -> Bytes,
    seal: (Bytes, Bytes, Bytes) -> Bytes,
    open: (Bytes, Bytes, Bytes) -> Option<Bytes>)

  ghost predicate Lawful(c: Crypto) {
    && (forall a, b :: c.dh(a, c.pub(b)) == c.dh(b, c.pub(a)))
    && forall key, text, ad :: c.open(key, c.seal(key, text, ad), ad) == Some(text)
  }

  // ---------- key derivation: extract, then expand (section 2 of RFC 5869) ----------

  function Extract(c: Crypto, key: Bytes, input: Bytes): Bytes {
    c.hmac(key, input)
  }

  /** Block `n` of the expansion, each chained to the one before. */
  function Expand(c: Crypto, prk: Bytes, n: nat): Bytes {
    if n == 0 then [] else c.hmac(prk, Expand(c, prk, n - 1) + [n])
  }

  /** Hash and chain key. */
  datatype Chain = Chain(hash: Bytes, key: Bytes)

  function MixHash(c: Crypto, s: Chain, data: Bytes): Chain {
    s.(hash := c.hash(s.hash, data))
  }

  function MixKey(c: Crypto, s: Chain, data: Bytes): Chain {
    s.(key := Expand(c, Extract(c, s.key, data), 1))
  }

  /** KDF2 into the chain key and a message key. */
  function MixKey2(c: Crypto, s: Chain, data: Bytes): (Chain, Bytes) {
    var prk := Extract(c, s.key, data);
    (s.(key := Expand(c, prk, 1)), Expand(c, prk, 2))
  }

  /** KDF3 with the preshared key: chain key, a value to hash, a message key. */
  function MixPsk(c: Crypto, s: Chain, psk: Bytes): (Chain, Bytes) {
    var prk := Extract(c, s.key, psk);
    (MixHash(c, s.(key := Expand(c, prk, 1)), Expand(c, prk, 2)), Expand(c, prk, 3))
  }

  predicate IsZero(b: Bytes) {
    forall i :: 0 <= i < |b| ==> b[i] == 0
  }

  /** tai64n: later in byte order. */
  predicate After(a: Bytes, b: Bytes) {
    a != [] && (b == [] || a[0] > b[0] || (a[0] == b[0] && After(a[1..], b[1..])))
  }

  // ---------- handshake state and messages ----------

  datatype State = Zeroed | InitiationCreated | InitiationConsumed | ResponseCreated | ResponseConsumed

  datatype Handshake = Handshake(
    state: State,
    chain: Chain,
    presharedKey: Bytes,
    localEphemeral: Bytes,
    localIndex: nat,
    remoteIndex: nat,
    remoteStatic: Bytes,
    remoteEphemeral: Bytes,
    precomputed: Bytes,
    lastTimestamp: Bytes,
    lastConsumption: int)

  /** The fields that a failure or the end of a handshake wipes. */
  function Clear(h: Handshake): Handshake {
    h.(state := Zeroed, chain := Chain([], []), localEphemeral := [], remoteEphemeral := [], localIndex := 0)
  }

  const INITIATION_TYPE: nat := 1
  const RESPONSE_TYPE: nat := 2

  /** One initiation per 20 ms, in nanoseconds. */
  const INITIATION_RATE: int := 20_000_000

  datatype Initiation = Initiation(typ: nat, sender: nat, ephemeral: Bytes, static_: Bytes, timestamp: Bytes)

  datatype Response = Response(typ: nat, sender: nat, receiver: nat, ephemeral: Bytes, empty: Bytes)

  // ---------- the four steps ----------

  /** What both sides compute of the first message, up to the sealed static key. */
  function FirstChain(c: Crypto, responder: Bytes, ephemeral: Bytes): Chain {
    MixHash(c, MixKey(c, MixHash(c, Chain(c.initialHash, c.initialKey), responder), ephemeral), ephemeral)
  }

  function CreateInitiation(c: Crypto, h: Handshake, ownPub: Bytes, e: Bytes, now: Bytes, index: nat): (Handshake,
        Option<Initiation>) {
    var s := FirstChain(c, h.remoteStatic, c.pub(e));
    var h := h.(localEphemeral := e, chain := s);
    var es := c.dh(e, h.remoteStatic);
    if IsZero(es) then (h, None) else
    var (s, key) := MixKey2(c, s, es);
    var static_ := c.seal(key, ownPub, s.hash);
    var s := MixHash(c, s, static_);
    if IsZero(h.precomputed) then (h.(chain := s), None) else
    var (s, key) := MixKey2(c, s, h.precomputed);
    var timestamp := c.seal(key, now, s.hash);
    (h.(chain := MixHash(c, s, timestamp), localIndex := index, state := InitiationCreated),
     Some(Initiation(INITIATION_TYPE, index, c.pub(e), static_, timestamp)))
  }

  /** The peer that the sealed static key names, and the chain up to there. */
  function OpenStatic(c: Crypto, priv: Bytes, m: Initiation): Option<(Bytes, Chain)> {
    var s := FirstChain(c, c.pub(priv), m.ephemeral);
    var es := c.dh(priv, m.ephemeral);
    if IsZero(es) then None else
    var (s, key) := MixKey2(c, s, es);
    match c.open(key, m.static_, s.hash)
    case None => None
    case Some(pk) => Some((pk, MixHash(c, s, m.static_)))
  }

  function ConsumeInitiation(c: Crypto, priv: Bytes, peers: map<Bytes, Handshake>, m: Initiation,
        clock: int): Option<(Bytes, Handshake)> {
    if m.typ != INITIATION_TYPE then None else
    match OpenStatic(c, priv, m)
    case None => None
    case Some((pk, s)) =>
      if pk !in peers || IsZero(peers[pk].precomputed) then None else
      var h := peers[pk];
      var (s, key) := MixKey2(c, s, h.precomputed);
      match c.open(key, m.timestamp, s.hash)
      case None => None
      case Some(ts) =>
        if !After(ts, h.lastTimestamp) || clock - h.lastConsumption <= INITIATION_RATE then None else
        Some((pk, h.(chain := MixHash(c, s, m.timestamp), remoteIndex := m.sender, remoteEphemeral := m.ephemeral,
                     lastTimestamp := ts, lastConsumption := if clock > h.lastConsumption then clock
                         else h.lastConsumption,
                     state := InitiationConsumed)))
  }

  function CreateResponse(c: Crypto, h: Handshake, e: Bytes, index: nat): (Handshake, Option<Response>) {
    if h.state != InitiationConsumed then (h, None) else
    var s := MixKey(c, MixHash(c, h.chain, c.pub(e)), c.pub(e));
    var h := h.(localIndex := index, localEphemeral := e, chain := s);
    var ee := c.dh(e, h.remoteEphemeral);
    if IsZero(ee) then (h, None) else
    var s := MixKey(c, s, ee);
    var se := c.dh(e, h.remoteStatic);
    if IsZero(se) then (h.(chain := s), None) else
    var (s, key) := MixPsk(c, MixKey(c, s, se), h.presharedKey);
    var empty := c.seal(key, [], s.hash);
    (h.(chain := MixHash(c, s, empty), state := ResponseCreated),
     Some(Response(RESPONSE_TYPE, index, h.remoteIndex, c.pub(e), empty)))
  }

  function ConsumeResponse(c: Crypto, priv: Bytes, h: Handshake, m: Response): Option<Handshake> {
    if m.typ != RESPONSE_TYPE || h.state != InitiationCreated then None else
    var s := MixKey(c, MixHash(c, h.chain, m.ephemeral), m.ephemeral);
    var ee := c.dh(h.localEphemeral, m.ephemeral);
    if IsZero(ee) then None else
    var s := MixKey(c, s, ee);
    var se := c.dh(priv, m.ephemeral);
    if IsZero(se) then None else
    var (s, key) := MixPsk(c, MixKey(c, s, se), h.presharedKey);
    if c.open(key, m.empty, s.hash).None? then None else
    Some(h.(chain := MixHash(c, s, m.empty), remoteIndex := m.sender, state := ResponseConsumed))
  }

  datatype Keys = Keys(send: Bytes, receive: Bytes, isInitiator: bool)

  /** The transport keys: one expansion, read in opposite orders by the two sides. */
  function SessionKeys(c: Crypto, h: Handshake): Option<Keys> {
    var prk := Extract(c, h.chain.key, []);
    match h.state
    case ResponseConsumed => Some(Keys(Expand(c, prk, 1), Expand(c, prk, 2), true))
    case ResponseCreated => Some(Keys(Expand(c, prk, 2), Expand(c, prk, 1), false))
    case _ => None
  }

  // ---------- the honest run ----------

  /** Two devices that know each other: what NewPeer sets up on both sides. */
  ghost predicate Paired(c: Crypto, si: Bytes, sr: Bytes, hi: Handshake, peers: map<Bytes, Handshake>) {
    && hi.remoteStatic == c.pub(sr) && hi.precomputed == c.dh(si, c.pub(sr))
    && c.pub(si) in peers
    && var hr := peers[c.pub(si)];
       hr.remoteStatic == c.pub(si) && hr.precomputed == c.dh(sr, c.pub(si)) && hr.presharedKey == hi.presharedKey
  }

  /** The responder takes the timestamp: newer than the last, and not within the flood limit. */
  predicate Timely(h: Handshake, now: Bytes, clock: int) {
    After(now, h.lastTimestamp) && clock - h.lastConsumption > INITIATION_RATE
  }

  /** After the first message both sides hold the same hash and chain key. */
  lemma FirstMessageAgrees(c: Crypto, si: Bytes, sr: Bytes, hi: Handshake, peers: map<Bytes, Handshake>, e: Bytes,
        now: Bytes, clock: int, index: nat)
    requires Lawful(c) && Paired(c, si, sr, hi, peers)
    ensures var (hi', m) := CreateInitiation(c, hi, c.pub(si), e, now, index);
            && (m.Some? <==> !IsZero(c.dh(e, c.pub(sr))) && !IsZero(c.dh(si, c.pub(sr))))
            && (m.Some? ==>
                 var got := ConsumeInitiation(c, sr, peers, m.value, clock);
                 && (got.Some? <==> Timely(peers[c.pub(si)], now, clock))
                 && (got.Some? ==> got.value.0 == c.pub(si) && got.value.1.chain == hi'.chain
                                   && got.value.1.state == InitiationConsumed && got.value.1.remoteIndex == index
                                   && got.value.1.remoteEphemeral == c.pub(e)))
  {
    assert c.dh(sr, c.pub(e)) == c.dh(e, c.pub(sr));
    assert c.dh(sr, c.pub(si)) == c.dh(si, c.pub(sr));
  }

  /** After the second message they do so again, and the response reaches its index. */
  lemma SecondMessageAgrees(c: Crypto, si: Bytes, hi: Handshake, hr: Handshake, e: Bytes, index: nat)
    requires Lawful(c) && hi.chain == hr.chain && hi.presharedKey == hr.presharedKey
    requires hi.state == InitiationCreated && hr.state == InitiationConsumed
    requires hr.remoteEphemeral == c.pub(hi.localEphemeral) && hr.remoteStatic == c.pub(si)
        && hr.remoteIndex == hi.localIndex
    ensures var (hr', m) := CreateResponse(c, hr, e, index);
            && (m.Some? <==> !IsZero(c.dh(hi.localEphemeral, c.pub(e))) && !IsZero(c.dh(si, c.pub(e))))
            && (m.Some? ==>
                 var hi' := ConsumeResponse(c, si, hi, m.value);
                 && hi'.Some? && hi'.value.chain == hr'.chain && m.value.receiver == hi.localIndex
                 && hi'.value.state == ResponseConsumed && hr'.state == ResponseCreated
                     && hi'.value.remoteIndex == index)
  {
    assert c.dh(e, c.pub(hi.localEphemeral)) == c.dh(hi.localEphemeral, c.pub(e));
    assert c.dh(e, c.pub(si)) == c.dh(si, c.pub(e));
  }

  datatype Run = Run(initiator: Handshake, responder: Handshake)

  /** The four steps in turn; None as soon as one side refuses. */
  function HonestRun(c: Crypto, si: Bytes, sr: Bytes, hi: Handshake, peers: map<Bytes, Handshake>, ei: Bytes, er: Bytes,
        now: Bytes, clock: int, i: nat, r: nat): Option<Run> {
    var (hi, m1) := CreateInitiation(c, hi, c.pub(si), ei, now, i);
    if m1.None? then None else
    match ConsumeInitiation(c, sr, peers, m1.value, clock)
    case None => None
    case Some((pk, hr)) =>
      var (hr, m2) := CreateResponse(c, hr, er, r);
      if m2.None? then None else
      match ConsumeResponse(c, si, hi, m2.value)
      case None => None
      case Some(hi) => Some(Run(hi, hr))
  }

  /**
   * For all keys, ephemerals, preshared key and timestamp: the run completes exactly when
   * the four shared secrets are nonzero and the timestamp is timely, and then the two sides
   * hold the same hash and chain key, and mirrored transport keys.
   */
  lemma HonestRunAgrees(c: Crypto, si: Bytes, sr: Bytes, hi: Handshake, peers: map<Bytes, Handshake>, ei: Bytes,
        er: Bytes, now: Bytes, clock: int, i: nat, r: nat)
    requires Lawful(c) && Paired(c, si, sr, hi, peers)
    ensures var run := HonestRun(c, si, sr, hi, peers, ei, er, now, clock, i, r);
            && (run.Some? <==>
                 && !IsZero(c.dh(ei, c.pub(sr))) && !IsZero(c.dh(si, c.pub(sr)))
                 && !IsZero(c.dh(ei, c.pub(er))) && !IsZero(c.dh(si, c.pub(er)))
                 && Timely(peers[c.pub(si)], now, clock))
            && (run.Some? ==>
                 var a, b := run.value.initiator, run.value.responder;
                 && a.chain == b.chain && a.remoteIndex == r && b.remoteIndex == i
                 && var ka, kb := SessionKeys(c, a), SessionKeys(c, b);
                    ka.Some? && kb.Some? && ka.value.isInitiator && !kb.value.isInitiator
                    && ka.value.send == kb.value.receive && ka.value.receive == kb.value.send)
  {
    FirstMessageAgrees(c, si, sr, hi, peers, ei, now, clock, i);
    var (hi', m1) := CreateInitiation(c, hi, c.pub(si), ei, now, i);
    if m1.Some? {
      var got := ConsumeInitiation(c, sr, peers, m1.value, clock);
      if got.Some? {
        SecondMessageAgrees(c, si, hi', got.value.1, er, r);
      }
    }
  }

  /** The two laws can be met. */
  lemma LawsAreConsistent() returns (c: Crypto)
    ensures Lawful(c) && forall a, b :: !IsZero(c.dh(a, c.pub(b)))
  {
    c := Crypto([], [], (h, d) => h + d, (k, d) => k + d, x => x, (a, b) => [1 + |a| + |b|],
                (k, t, ad) => t, (k, t, ad) => Some(t));
    forall a, b ensures !IsZero(c.dh(a, c.pub(b))) {
      assert c.dh(a, c.pub(b))[0] == 1 + |a| + |b|;
    }
  }

  // ---------- replayed initiations ----------

  lemma {:induction false} NotAfterItself(a: Bytes)
    ensures !After(a, a)
  {
    if a != [] { NotAfterItself(a[1..]); }
  }

  /** An initiation is taken at most once: the second time its timestamp is not newer. */
  lemma InitiationReplayRejected(c: Crypto, priv: Bytes, peers: map<Bytes, Handshake>, m: Initiation, clock: int,
        later: int)
    requires ConsumeInitiation(c, priv, peers, m, clock).Some?
    ensures var (pk, h) := ConsumeInitiation(c, priv, peers, m, clock).value;
            ConsumeInitiation(c, priv, peers[pk := h], m, later).None?
  {
    var (pk, h) := ConsumeInitiation(c, priv, peers, m, clock).value;
    NotAfterItself(h.lastTimestamp);
  }

  // ---------- the order of timestamps ----------

  /** At the first byte where they differ, `a` is larger. */
  predicate LargerAt(a: Bytes, b: Bytes, k: nat) {
    k < |a| == |b| && a[..k] == b[..k] && a[k] > b[k]
  }

  lemma LargerNext(a: Bytes, b: Bytes, k: nat)
    requires |a| == |b| && a != [] && a[0] == b[0]
    ensures LargerAt(a, b, k + 1) <==> LargerAt(a[1..], b[1..], k)
  {
    if k + 1 <= |a| {
      assert a[..k + 1] == [a[0]] + a[1..][..k] && b[..k + 1] == [b[0]] + b[1..][..k];
    }
  }

  /** Timestamps are in the order of their numbers, the first byte being the highest. */
  lemma {:induction false} AfterIff(a: Bytes, b: Bytes)
    requires |a| == |b|
    ensures After(a, b) <==> exists k: nat :: LargerAt(a, b, k)
  {
    if a != [] {
      if a[0] == b[0] {
        AfterIff(a[1..], b[1..]);
        forall k: nat ensures LargerAt(a, b, k + 1) <==> LargerAt(a[1..], b[1..], k) { LargerNext(a, b, k); }
        if k: nat :| LargerAt(a[1..], b[1..], k) { assert LargerAt(a, b, k + 1); }
        if k: nat :| LargerAt(a, b, k) { assert LargerAt(a[1..], b[1..], k - 1); }
      } else {
        assert a[..0] == b[..0];
        if a[0] > b[0] { assert LargerAt(a, b, 0); }
        if k: nat :| LargerAt(a, b, k) { assert k == 0 || a[..k][0] == b[..k][0]; }
      }
    }
  }

  lemma {:induction false} AfterPasses(a: Bytes, b: Bytes, d: Bytes)
    requires After(a, b) && After(b, d)
    ensures After(a, d)
  {
    if d != [] && a[0] == b[0] == d[0] { AfterPasses(a[1..], b[1..], d[1..]); }
  }

  /** The handshakes after the responder has been offered the initiations in turn. */
  function Offered(c: Crypto, priv: Bytes, peers: map<Bytes, Handshake>, ms: seq<(Initiation, int)>):
      map<Bytes, Handshake>
  {
    if ms == [] then peers else
    var before := Offered(c, priv, peers, ms[..|ms| - 1]);
    match ConsumeInitiation(c, priv, before, ms[|ms| - 1].0, ms[|ms| - 1].1)
    case None => before
    case Some((pk, h)) => before[pk := h]
  }

  /** No peer's last timestamp ever goes back, and none of what identifies it changes. */
  lemma {:induction false} TimestampsAdvance(c: Crypto, priv: Bytes, peers: map<Bytes, Handshake>,
        ms: seq<(Initiation, int)>, pk: Bytes)
    requires pk in peers
    ensures var later := Offered(c, priv, peers, ms);
            && pk in later && later[pk].precomputed == peers[pk].precomputed
            && (later[pk].lastTimestamp == peers[pk].lastTimestamp
                || After(later[pk].lastTimestamp, peers[pk].lastTimestamp))
  {
    if ms != [] {
      var before := Offered(c, priv, peers, ms[..|ms| - 1]);
      TimestampsAdvance(c, priv, peers, ms[..|ms| - 1], pk);
      var got := ConsumeInitiation(c, priv, before, ms[|ms| - 1].0, ms[|ms| - 1].1);
      if got.Some? && got.value.0 == pk && After(before[pk].lastTimestamp, peers[pk].lastTimestamp) {
        AfterPasses(got.value.1.lastTimestamp, before[pk].lastTimestamp, peers[pk].lastTimestamp);
      }
    }
  }

  /** Once taken, an initiation is refused for ever, whatever initiations come in between. */
  lemma InitiationTakenOnce(c: Crypto, priv: Bytes, peers: map<Bytes, Handshake>, m: Initiation, clock: int,
        ms: seq<(Initiation, int)>, later: int)
    requires ConsumeInitiation(c, priv, peers, m, clock).Some?
    ensures var (pk, h) := ConsumeInitiation(c, priv, peers, m, clock).value;
            ConsumeInitiation(c, priv, Offered(c, priv, peers[pk := h], ms), m, later).None?
  {
    var (pk, h) := ConsumeInitiation(c, priv, peers, m, clock).value;
    TimestampsAdvance(c, priv, peers[pk := h], ms, pk);
    var last := Offered(c, priv, peers[pk := h], ms)[pk].lastTimestamp;
    NotAfterItself(h.lastTimestamp);
    if After(h.lastTimestamp, last) && last != h.lastTimestamp {
      AfterPasses(h.lastTimestamp, last, h.lastTimestamp);
    }
  }
}
