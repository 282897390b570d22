/**
 * The handshake of Noise.dfy against the Noise protocol framework (revision 34): the two
 * messages are the token lists of the pattern IKpsk2, read and written by one interpreter over
 * hash, chain key and cipher key (sections 5.2, 7 and 9 there). And what the handshake
 * authenticates, when hash and HMAC have no collisions and nothing else opens a seal.
 */
module NoisePatterns {
  import opened Noise
  import opened Options

  // ---------- the pattern ----------

  datatype Token = E | ES | S | SS | EE | SE | PSK | Payload

  /** -> e, es, s, ss, with a timestamp. */
  const FIRST: seq<Token> := [E, ES, S, SS, Payload]

  /** <- e, ee, se, psk, with nothing. */
  const SECOND: seq<Token> := [E, EE, SE, PSK, Payload]

  // ---------- the interpreter ----------

  /** The symmetric state: hash, chain key, cipher key. */
  datatype Sym = Sym(h: Bytes, ck: Bytes, k: Bytes)

  function HashIn(c: Crypto, st: Sym, data: Bytes): Sym {
    st.(h := c.hash(st.h, data))
  }

  /** HKDF: three chained outputs (section 4.3). */
  function Hkdf(c: Crypto, ck: Bytes, input: Bytes): (Bytes, Bytes, Bytes) {
    var temp := c.hmac(ck, input);
    var o1 := c.hmac(temp, [1]);
    var o2 := c.hmac(temp, o1 + [2]);
    (o1, o2, c.hmac(temp, o2 + [3]))
  }

  function KeyIn(c: Crypto, st: Sym, input: Bytes): Sym {
    var o := Hkdf(c, st.ck, input);
    st.(ck := o.0, k := o.1)
  }

  function KeyAndHashIn(c: Crypto, st: Sym, input: Bytes): Sym {
    var o := Hkdf(c, st.ck, input);
    HashIn(c, st.(ck := o.0), o.1).(k := o.2)
  }

  /** What the tokens stand for on one side: public ephemeral, shared secrets, and what is sealed. */
  datatype Values = Values(e: Bytes, es: Bytes, ss: Bytes, ee: Bytes, se: Bytes, psk: Bytes, s: Bytes, payload: Bytes)

  function Secret(t: Token, v: Values): Bytes
    requires t in {ES, SS, EE, SE}
  {
    match t case ES => v.es case SS => v.ss case EE => v.ee case SE => v.se
  }

  /** Writing one token: the new state, and what goes into the message. */
  function WriteToken(c: Crypto, st: Sym, t: Token, v: Values): (Sym, seq<Bytes>) {
    match t
    case E => (KeyIn(c, HashIn(c, st, v.e), v.e), [v.e])
    case S => var box := c.seal(st.k, v.s, st.h); (HashIn(c, st, box), [box])
    case Payload => var box := c.seal(st.k, v.payload, st.h); (HashIn(c, st, box), [box])
    case PSK => (KeyAndHashIn(c, st, v.psk), [])
    case _ => (KeyIn(c, st, Secret(t, v)), [])
  }

  /** None as soon as a shared secret is zero. */
  function Write(c: Crypto, st: Sym, ts: seq<Token>, v: Values): Option<(Sym, seq<Bytes>)>
    decreases |ts|
  {
    if ts == [] then Some((st, []))
    else if ts[0] in {ES, SS, EE, SE} && IsZero(Secret(ts[0], v)) then None
    else
      var (st', out) := WriteToken(c, st, ts[0], v);
      match Write(c, st', ts[1..], v)
      case None => None
      case Some((last, rest)) => Some((last, out + rest))
  }

  /** Reading the boxes of a message in turn; `boxes` are its sealed fields. */
  function Read(c: Crypto, st: Sym, ts: seq<Token>, v: Values, boxes: seq<Bytes>): Option<(Sym, seq<Bytes>)>
    decreases |ts|
  {
    if ts == [] then Some((st, []))
    else if ts[0] in {ES, SS, EE, SE} && IsZero(Secret(ts[0], v)) then None
    else if ts[0] in {S, Payload} then
      if boxes == [] then None else
      match c.open(st.k, boxes[0], st.h)
      case None => None
      case Some(text) =>
        match Read(c, HashIn(c, st, boxes[0]), ts[1..], v, boxes[1..])
        case None => None
        case Some((last, rest)) => Some((last, [text] + rest))
    else Read(c, WriteToken(c, st, ts[0], v).0, ts[1..], v, boxes)
  }

  /** The state before the first message: the responder's static key is known. */
  function Begin(c: Crypto, responder: Bytes): Sym {
    HashIn(c, Sym(c.initialHash, c.initialKey, []), responder)
  }

  function Resume(s: Chain): Sym { Sym(s.hash, s.key, []) }

  // ---------- the two derivations agree ----------

  lemma Blocks(c: Crypto, key: Bytes, input: Bytes)
    ensures var prk, o := Extract(c, key, input), Hkdf(c, key, input);
            Expand(c, prk, 1) == o.0 && Expand(c, prk, 2) == o.1 && Expand(c, prk, 3) == o.2
  {
    var prk := Extract(c, key, input);
    assert Expand(c, prk, 0) + [1] == [1];
    assert Expand(c, prk, 2) == c.hmac(prk, Expand(c, prk, 1) + [2]);
    assert Expand(c, prk, 3) == c.hmac(prk, Expand(c, prk, 2) + [3]);
  }

  lemma MixesAgree(c: Crypto, s: Chain, input: Bytes)
    ensures var o := Hkdf(c, s.key, input);
            && MixKey(c, s, input) == Chain(s.hash, o.0) && MixKey2(c, s, input) == (Chain(s.hash, o.0), o.1)
            && MixPsk(c, s, input) == (Chain(c.hash(s.hash, o.1), o.0), o.2)
  {
    Blocks(c, s.key, input);
  }

  /** What the initiator's tokens stand for in the first message, and the responder's. */
  function Sent(c: Crypto, h: Handshake, ownPub: Bytes, e: Bytes, now: Bytes): Values {
    Values(c.pub(e), c.dh(e, h.remoteStatic), h.precomputed, [], [], [], ownPub, now)
  }

  function Received(c: Crypto, priv: Bytes, h: Handshake, m: Initiation): Values {
    Values(m.ephemeral, c.dh(priv, m.ephemeral), h.precomputed, [], [], [], [], [])
  }

  // ---------- the four messages are the pattern ----------

  lemma WriteFirst(c: Crypto, st: Sym, v: Values)
    ensures var w := Write(c, st, FIRST, v);
            && (w.Some? <==> !IsZero(v.es) && !IsZero(v.ss))
            && var s1 := KeyIn(c, KeyIn(c, HashIn(c, st, v.e), v.e), v.es);
               var box1 := c.seal(s1.k, v.s, s1.h);
               var s2 := KeyIn(c, HashIn(c, s1, box1), v.ss);
               var box2 := c.seal(s2.k, v.payload, s2.h);
               w.Some? ==> w.value == (HashIn(c, s2, box2), [v.e, box1, box2])
  {
    var s0 := KeyIn(c, HashIn(c, st, v.e), v.e);
    var s1 := KeyIn(c, s0, v.es);
    var box1 := c.seal(s1.k, v.s, s1.h);
    var s2 := HashIn(c, s1, box1);
    var s3 := KeyIn(c, s2, v.ss);
    assert FIRST[1..] == [ES, S, SS, Payload] && [ES, S, SS, Payload][1..] == [S, SS, Payload];
    assert [S, SS, Payload][1..] == [SS, Payload] && [SS, Payload][1..] == [Payload] && [Payload][1..] == [];
    var box2 := c.seal(s3.k, v.payload, s3.h);
    assert [box2] + [] == [box2];
    assert Write(c, s3, [Payload], v) == Some((HashIn(c, s3, box2), [box2]));
    assert IsZero(v.ss) || Write(c, s2, [SS, Payload], v) == Some((HashIn(c, s3, box2), [] + [box2]));
    assert IsZero(v.ss) || Write(c, s1, [S, SS, Payload], v) == Some((HashIn(c, s3, box2), [box1] + ([] + [box2])));
    assert Write(c, st, FIRST, v).Some? ==> [v.e] + ([] + ([box1] + ([] + [box2]))) == [v.e, box1, box2];
  }

  lemma ReadFirst(c: Crypto, st: Sym, v: Values, box1: Bytes, box2: Bytes)
    ensures var r := Read(c, st, FIRST, v, [box1, box2]);
            var s1 := KeyIn(c, KeyIn(c, HashIn(c, st, v.e), v.e), v.es);
            var text1 := c.open(s1.k, box1, s1.h);
            var s2 := KeyIn(c, HashIn(c, s1, box1), v.ss);
            var text2 := c.open(s2.k, box2, s2.h);
            r == if !IsZero(v.es) && text1.Some? && !IsZero(v.ss) && text2.Some?
                 then Some((HashIn(c, s2, box2), [text1.value, text2.value])) else None
  {
    var s0 := KeyIn(c, HashIn(c, st, v.e), v.e);
    var s1 := KeyIn(c, s0, v.es);
    var s2 := HashIn(c, s1, box1);
    var s3 := KeyIn(c, s2, v.ss);
    assert FIRST[1..] == [ES, S, SS, Payload] && [ES, S, SS, Payload][1..] == [S, SS, Payload];
    assert [S, SS, Payload][1..] == [SS, Payload] && [SS, Payload][1..] == [Payload] && [Payload][1..] == [];
    assert [box1, box2][1..] == [box2] && [box2][1..] == [];
    var text1, text2 := c.open(s1.k, box1, s1.h), c.open(s3.k, box2, s3.h);
    assert text2.Some? ==> [text2.value] + [] == [text2.value];
    assert Read(c, s3, [Payload], v, [box2])
        == if text2.None? then None else Some((HashIn(c, s3, box2), [text2.value]));
    assert IsZero(v.ss) || Read(c, s2, [SS, Payload], v, [box2]) == Read(c, s3, [Payload], v, [box2]);
    assert text1.Some? && text2.Some? ==> [text1.value] + [text2.value] == [text1.value, text2.value];
  }

  lemma WriteSecond(c: Crypto, st: Sym, v: Values)
    ensures var w := Write(c, st, SECOND, v);
            && (w.Some? <==> !IsZero(v.ee) && !IsZero(v.se))
            && var s1 := KeyIn(c, KeyIn(c, KeyIn(c, HashIn(c, st, v.e), v.e), v.ee), v.se);
               var s2 := KeyAndHashIn(c, s1, v.psk);
               var box := c.seal(s2.k, v.payload, s2.h);
               w.Some? ==> w.value == (HashIn(c, s2, box), [v.e, box])
  {
    var s0 := KeyIn(c, HashIn(c, st, v.e), v.e);
    var s1 := KeyIn(c, s0, v.ee);
    var s2 := KeyIn(c, s1, v.se);
    var s3 := KeyAndHashIn(c, s2, v.psk);
    assert SECOND[1..] == [EE, SE, PSK, Payload] && [EE, SE, PSK, Payload][1..] == [SE, PSK, Payload];
    assert [SE, PSK, Payload][1..] == [PSK, Payload] && [PSK, Payload][1..] == [Payload] && [Payload][1..] == [];
    var box := c.seal(s3.k, v.payload, s3.h);
    assert [box] + [] == [box];
    assert Write(c, s3, [Payload], v) == Some((HashIn(c, s3, box), [box]));
    assert Write(c, s2, [PSK, Payload], v) == Some((HashIn(c, s3, box), [] + [box]));
    assert IsZero(v.se) || Write(c, s1, [SE, PSK, Payload], v) == Some((HashIn(c, s3, box), [] + ([] + [box])));
    assert Write(c, st, SECOND, v).Some? ==> [v.e] + ([] + ([] + ([] + [box]))) == [v.e, box];
  }

  lemma ReadSecond(c: Crypto, st: Sym, v: Values, box: Bytes)
    ensures var r := Read(c, st, SECOND, v, [box]);
            var s1 := KeyIn(c, KeyIn(c, KeyIn(c, HashIn(c, st, v.e), v.e), v.ee), v.se);
            var s2 := KeyAndHashIn(c, s1, v.psk);
            var text := c.open(s2.k, box, s2.h);
            r == if !IsZero(v.ee) && !IsZero(v.se) && text.Some? then Some((HashIn(c, s2, box), [text.value])) else None
  {
    var s0 := KeyIn(c, HashIn(c, st, v.e), v.e);
    var s1 := KeyIn(c, s0, v.ee);
    var s2 := KeyIn(c, s1, v.se);
    var s3 := KeyAndHashIn(c, s2, v.psk);
    assert SECOND[1..] == [EE, SE, PSK, Payload] && [EE, SE, PSK, Payload][1..] == [SE, PSK, Payload];
    assert [SE, PSK, Payload][1..] == [PSK, Payload] && [PSK, Payload][1..] == [Payload] && [Payload][1..] == [];
    assert [box][1..] == [];
    var text := c.open(s3.k, box, s3.h);
    assert text.Some? ==> [text.value] + [] == [text.value];
    assert Read(c, s3, [Payload], v, [box]) == if text.None? then None else Some((HashIn(c, s3, box), [text.value]));
    assert IsZero(v.se) || Read(c, s1, [SE, PSK, Payload], v, [box]) == Read(c, s3, [Payload], v, [box]);
  }

  lemma InitiationIsPattern(c: Crypto, h: Handshake, ownPub: Bytes, e: Bytes, now: Bytes, index: nat)
    ensures var (h', m) := CreateInitiation(c, h, ownPub, e, now, index);
            var w := Write(c, Begin(c, h.remoteStatic), FIRST, Sent(c, h, ownPub, e, now));
            && (m.Some? <==> w.Some?)
            && (m.Some? ==>
                  && w.value.1 == [m.value.ephemeral, m.value.static_, m.value.timestamp]
                  && m.value.typ == 1 && m.value.sender == index
                  && h' == h.(chain := Chain(w.value.0.h, w.value.0.ck), localEphemeral := e, localIndex := index,
                              state := InitiationCreated))
  {
    var v := Sent(c, h, ownPub, e, now);
    WriteFirst(c, Begin(c, h.remoteStatic), v);
    var s0 := MixHash(c, Chain(c.initialHash, c.initialKey), h.remoteStatic);
    MixesAgree(c, s0, v.e);
    var s1 := FirstChain(c, h.remoteStatic, v.e);
    MixesAgree(c, s1, v.es);
    var (s2, key) := MixKey2(c, s1, v.es);
    MixesAgree(c, MixHash(c, s2, c.seal(key, ownPub, s2.hash)), v.ss);
  }

  /** Whatever the message: it is taken exactly as the pattern reads it, from the peer it names. */
  lemma InitiationIsRead(c: Crypto, priv: Bytes, peers: map<Bytes, Handshake>, m: Initiation, clock: int, pk: Bytes,
        h': Handshake)
    requires pk in peers
    ensures var h := peers[pk];
            var r := Read(c, Begin(c, c.pub(priv)), FIRST, Received(c, priv, h, m), [m.static_, m.timestamp]);
            ConsumeInitiation(c, priv, peers, m, clock) == Some((pk, h')) <==>
              && m.typ == 1 && r.Some? && r.value.1[0] == pk
              && After(r.value.1[1], h.lastTimestamp) && clock - h.lastConsumption > 20_000_000
              && h' == h.(chain := Chain(r.value.0.h, r.value.0.ck), remoteIndex := m.sender,
                          remoteEphemeral := m.ephemeral, lastTimestamp := r.value.1[1], lastConsumption := clock,
                          state := InitiationConsumed)
  {
    var h := peers[pk];
    var v := Received(c, priv, h, m);
    ReadFirst(c, Begin(c, c.pub(priv)), v, m.static_, m.timestamp);
    var s0 := MixHash(c, Chain(c.initialHash, c.initialKey), c.pub(priv));
    MixesAgree(c, s0, v.e);
    var s1 := FirstChain(c, c.pub(priv), v.e);
    MixesAgree(c, s1, v.es);
    var (s2, key) := MixKey2(c, s1, v.es);
    MixesAgree(c, MixHash(c, s2, m.static_), v.ss);
  }

  lemma ResponseIsPattern(c: Crypto, h: Handshake, e: Bytes, index: nat)
    requires h.state == InitiationConsumed
    ensures var (h', m) := CreateResponse(c, h, e, index);
            var v := Values(c.pub(e), [], [], c.dh(e, h.remoteEphemeral), c.dh(e, h.remoteStatic), h.presharedKey, [],
                            []);
            var w := Write(c, Resume(h.chain), SECOND, v);
            && (m.Some? <==> w.Some?)
            && (m.Some? ==>
                  && w.value.1 == [m.value.ephemeral, m.value.empty]
                  && m.value.typ == 2 && m.value.sender == index && m.value.receiver == h.remoteIndex
                  && h' == h.(chain := Chain(w.value.0.h, w.value.0.ck), localEphemeral := e, localIndex := index,
                              state := ResponseCreated))
  {
    var v := Values(c.pub(e), [], [], c.dh(e, h.remoteEphemeral), c.dh(e, h.remoteStatic), h.presharedKey, [], []);
    WriteSecond(c, Resume(h.chain), v);
    SecondAgrees(c, h.chain, v);
  }

  /** The chain of the second message up to the sealed nothing. */
  lemma SecondAgrees(c: Crypto, chain: Chain, v: Values)
    ensures var s := MixKey(c, MixKey(c, MixKey(c, MixHash(c, chain, v.e), v.e), v.ee), v.se);
            var st := KeyIn(c, KeyIn(c, KeyIn(c, HashIn(c, Resume(chain), v.e), v.e), v.ee), v.se);
            var st' := KeyAndHashIn(c, st, v.psk);
            MixPsk(c, s, v.psk) == (Chain(st'.h, st'.ck), st'.k)
  {
    var s0 := MixHash(c, chain, v.e);
    MixesAgree(c, s0, v.e);
    var s1 := MixKey(c, s0, v.e);
    MixesAgree(c, s1, v.ee);
    var s2 := MixKey(c, s1, v.ee);
    MixesAgree(c, s2, v.se);
    MixesAgree(c, MixKey(c, s2, v.se), v.psk);
  }

  lemma ResponseIsRead(c: Crypto, priv: Bytes, h: Handshake, m: Response, h': Handshake)
    ensures var v := Values(m.ephemeral, [], [], c.dh(h.localEphemeral, m.ephemeral), c.dh(priv, m.ephemeral),
                            h.presharedKey, [], []);
            var r := Read(c, Resume(h.chain), SECOND, v, [m.empty]);
            && (ConsumeResponse(c, priv, h, m).Some? <==> m.typ == 2 && h.state == InitiationCreated && r.Some?)
            && (ConsumeResponse(c, priv, h, m) == Some(h') <==>
              && m.typ == 2 && h.state == InitiationCreated && r.Some?
              && h' == h.(chain := Chain(r.value.0.h, r.value.0.ck), remoteIndex := m.sender,
                          state := ResponseConsumed))
  {
    var v := Values(m.ephemeral, [], [], c.dh(h.localEphemeral, m.ephemeral), c.dh(priv, m.ephemeral),
                    h.presharedKey, [], []);
    ReadSecond(c, Resume(h.chain), v, m.empty);
    SecondAgrees(c, h.chain, v);
  }

  /** Split (section 5.2): the initiator sends under the first output and receives under the second. */
  lemma SessionKeysAreSplit(c: Crypto, h: Handshake)
    ensures var o := Hkdf(c, h.chain.key, []);
            SessionKeys(c, h) == if h.state == ResponseConsumed then Some(Keys(o.0, o.1, true))
                                 else if h.state == ResponseCreated then Some(Keys(o.1, o.0, false)) else None
  {
    Blocks(c, h.chain.key, []);
  }

  // ---------- what a completed handshake says ----------

  /** No collisions, and a box opens only under the key and the data it was sealed with. */
  ghost predicate Strict(c: Crypto) {
    && (forall a, x, b, y :: c.hash(a, x) == c.hash(b, y) ==> a == b && x == y)
    && (forall a, x, b, y :: c.hmac(a, x) == c.hmac(b, y) ==> a == b && x == y)
    && forall k, t, ad, k', ad' :: c.open(k', c.seal(k, t, ad), ad') == if k == k' && ad == ad' then Some(t) else None
  }

  lemma HashesOnce(c: Crypto, a: Bytes, x: Bytes, b: Bytes, y: Bytes)
    requires Strict(c) && c.hash(a, x) == c.hash(b, y)
    ensures a == b && x == y
  {
  }

  lemma KeysOnce(c: Crypto, a: Bytes, x: Bytes, b: Bytes, y: Bytes)
    requires Strict(c) && c.hmac(a, x) == c.hmac(b, y)
    ensures a == b && x == y
  {
  }

  /** A cipher key, and a chain key, come from one chain key and one secret. */
  lemma DerivedOnce(c: Crypto, ck: Bytes, x: Bytes, ck': Bytes, y: Bytes)
    requires Strict(c)
    ensures var o, o' := Hkdf(c, ck, x), Hkdf(c, ck', y);
            o.0 == o'.0 || o.1 == o'.1 || o.2 == o'.2 ==> ck == ck' && x == y
  {
    var t, t' := c.hmac(ck, x), c.hmac(ck', y);
    var o, o' := Hkdf(c, ck, x), Hkdf(c, ck', y);
    if o.0 == o'.0 { KeysOnce(c, t, [1], t', [1]); }
    if o.1 == o'.1 { KeysOnce(c, t, o.0 + [2], t', o'.0 + [2]); }
    if o.2 == o'.2 { KeysOnce(c, t, o.1 + [3], t', o'.1 + [3]); }
    if t == t' { KeysOnce(c, ck, x, ck', y); }
  }

  /** The first box opens exactly for the key that the initiation was made for. */
  lemma StaticOpens(c: Crypto, sr: Bytes, hi: Handshake, ownPub: Bytes, e: Bytes, now: Bytes, index: nat)
    requires Strict(c) && Lawful(c) && CreateInitiation(c, hi, ownPub, e, now, index).1.Some?
    ensures var m := CreateInitiation(c, hi, ownPub, e, now, index).1.value;
            var (s, key) := MixKey2(c, FirstChain(c, hi.remoteStatic, c.pub(e)), c.dh(e, hi.remoteStatic));
            OpenStatic(c, sr, m)
            == if hi.remoteStatic == c.pub(sr) then Some((ownPub, MixHash(c, s, m.static_))) else None
  {
    var m := CreateInitiation(c, hi, ownPub, e, now, index).1.value;
    assert c.dh(sr, c.pub(e)) == c.dh(e, c.pub(sr));
    var s, t := FirstChain(c, hi.remoteStatic, c.pub(e)), FirstChain(c, c.pub(sr), c.pub(e));
    if s.hash == t.hash {
      HashesOnce(c, c.hash(c.initialHash, hi.remoteStatic), c.pub(e), c.hash(c.initialHash, c.pub(sr)), c.pub(e));
      HashesOnce(c, c.initialHash, hi.remoteStatic, c.initialHash, c.pub(sr));
    }
  }

  /**
   * The responder opens an initiation exactly if it was made for its own static key; and takes it
   * exactly if it knows the sender by that key, agrees on the static secret, and it is timely.
   */
  lemma InitiationBinds(c: Crypto, sr: Bytes, peers: map<Bytes, Handshake>, hi: Handshake, ownPub: Bytes, e: Bytes,
        now: Bytes, clock: int, index: nat)
    requires Strict(c) && Lawful(c) && CreateInitiation(c, hi, ownPub, e, now, index).1.Some?
    ensures var (hi', m) := CreateInitiation(c, hi, ownPub, e, now, index);
            var got := ConsumeInitiation(c, sr, peers, m.value, clock);
            && (got.Some? <==>
                 && hi.remoteStatic == c.pub(sr)
                 && ownPub in peers && peers[ownPub].precomputed == hi.precomputed
                 && Timely(peers[ownPub], now, clock))
            && (got.Some? ==> got.value.0 == ownPub && got.value.1.chain == hi'.chain)
  {
    StaticOpens(c, sr, hi, ownPub, e, now, index);
    var m := CreateInitiation(c, hi, ownPub, e, now, index).1.value;
    var (s, key) := MixKey2(c, FirstChain(c, hi.remoteStatic, c.pub(e)), c.dh(e, hi.remoteStatic));
    var s1 := MixHash(c, s, m.static_);
    if ownPub in peers && hi.remoteStatic == c.pub(sr) {
      TimestampOpens(c, s1, hi.precomputed, peers[ownPub].precomputed, now);
    }
  }

  lemma TimestampOpens(c: Crypto, s: Chain, ss: Bytes, ss': Bytes, now: Bytes)
    requires Strict(c)
    ensures var (a, k), (b, k') := MixKey2(c, s, ss), MixKey2(c, s, ss');
            c.open(k', c.seal(k, now, a.hash), b.hash) == if ss == ss' then Some(now) else None
  {
    MixesAgree(c, s, ss);
    MixesAgree(c, s, ss');
    DerivedOnce(c, s.key, ss, s.key, ss');
  }

  /** The key that seals the nothing of the response, and what it is sealed with, tell all that went in. */
  lemma SecondOnce(c: Crypto, a: Chain, v: Values, b: Chain, w: Values)
    requires Strict(c)
    ensures var s := KeyIn(c, KeyIn(c, KeyIn(c, HashIn(c, Resume(a), v.e), v.e), v.ee), v.se);
            var t := KeyIn(c, KeyIn(c, KeyIn(c, HashIn(c, Resume(b), w.e), w.e), w.ee), w.se);
            var s', t' := KeyAndHashIn(c, s, v.psk), KeyAndHashIn(c, t, w.psk);
            s'.k == t'.k && s'.h == t'.h ==> a == b && v.e == w.e && v.ee == w.ee && v.se == w.se && v.psk == w.psk
  {
    var s0, t0 := HashIn(c, Resume(a), v.e), HashIn(c, Resume(b), w.e);
    var s1, t1 := KeyIn(c, s0, v.e), KeyIn(c, t0, w.e);
    var s2, t2 := KeyIn(c, s1, v.ee), KeyIn(c, t1, w.ee);
    var s, t := KeyIn(c, s2, v.se), KeyIn(c, t2, w.se);
    var s', t' := KeyAndHashIn(c, s, v.psk), KeyAndHashIn(c, t, w.psk);
    if s'.k == t'.k && s'.h == t'.h {
      DerivedOnce(c, s.ck, v.psk, t.ck, w.psk);
      HashesOnce(c, s.h, Hkdf(c, s.ck, v.psk).1, t.h, Hkdf(c, t.ck, w.psk).1);
      DerivedOnce(c, s2.ck, v.se, t2.ck, w.se);
      DerivedOnce(c, s1.ck, v.ee, t1.ck, w.ee);
      DerivedOnce(c, s0.ck, v.e, t0.ck, w.e);
      HashesOnce(c, a.hash, v.e, b.hash, w.e);
    }
  }

  lemma ResponseOpens(c: Crypto, a: Chain, v: Values, b: Chain, w: Values)
    requires Strict(c) && v.e == w.e
    ensures var s := KeyIn(c, KeyIn(c, KeyIn(c, HashIn(c, Resume(a), v.e), v.e), v.ee), v.se);
            var t := KeyIn(c, KeyIn(c, KeyIn(c, HashIn(c, Resume(b), w.e), w.e), w.ee), w.se);
            var s', t' := KeyAndHashIn(c, s, v.psk), KeyAndHashIn(c, t, w.psk);
            c.open(t'.k, c.seal(s'.k, v.payload, s'.h), t'.h).Some?
            <==> a == b && v.ee == w.ee && v.se == w.se && v.psk == w.psk
  {
    SecondOnce(c, a, v, b, w);
  }

  /**
   * The initiator takes a response exactly if it was made from its own hash and chain key, with
   * its own preshared key, and for its own ephemeral and static keys.
   */
  lemma ResponseBinds(c: Crypto, si: Bytes, hi: Handshake, hr: Handshake, e: Bytes, index: nat)
    requires Strict(c) && hi.state == InitiationCreated && hr.state == InitiationConsumed
    requires CreateResponse(c, hr, e, index).1.Some?
    ensures var (hr', m) := CreateResponse(c, hr, e, index);
            var got := ConsumeResponse(c, si, hi, m.value);
            && (got.Some? <==>
                 && hi.chain == hr.chain && hi.presharedKey == hr.presharedKey
                 && c.dh(hi.localEphemeral, c.pub(e)) == c.dh(e, hr.remoteEphemeral)
                 && c.dh(si, c.pub(e)) == c.dh(e, hr.remoteStatic))
            && (got.Some? ==> got.value.chain == hr'.chain && got.value.state == ResponseConsumed
                              && hr'.state == ResponseCreated)
  {
    var m := CreateResponse(c, hr, e, index).1.value;
    var v := Values(c.pub(e), [], [], c.dh(e, hr.remoteEphemeral), c.dh(e, hr.remoteStatic), hr.presharedKey, [], []);
    var w := Values(c.pub(e), [], [], c.dh(hi.localEphemeral, c.pub(e)), c.dh(si, c.pub(e)), hi.presharedKey, [], []);
    ResponseIsPattern(c, hr, e, index);
    WriteSecond(c, Resume(hr.chain), v);
    ReadSecond(c, Resume(hi.chain), w, m.empty);
    ResponseOpens(c, hr.chain, v, hi.chain, w);
    ResponseIsRead(c, si, hi, m, hi.(chain := CreateResponse(c, hr, e, index).0.chain, remoteIndex := m.sender,
                                     state := ResponseConsumed));
  }

  /**
   * For any two sides, whatever they believe of each other: the run completes exactly if the
   * initiator expects the responder's static key, the responder knows the initiator's, they
   * have the same preshared key and the same static secret, no secret is zero, and it is timely.
   */
  lemma RunCompletesIff(c: Crypto, si: Bytes, sr: Bytes, hi: Handshake, peers: map<Bytes, Handshake>, ei: Bytes,
        er: Bytes, now: Bytes, clock: int, i: nat, r: nat)
    requires Lawful(c) && Strict(c)
    ensures HonestRun(c, si, sr, hi, peers, ei, er, now, clock, i, r).Some? <==>
            && hi.remoteStatic == c.pub(sr) && c.pub(si) in peers
            && var hr := peers[c.pub(si)];
               && hr.presharedKey == hi.presharedKey && hr.precomputed == hi.precomputed
               && c.dh(er, hr.remoteStatic) == c.dh(er, c.pub(si))
               && !IsZero(c.dh(ei, c.pub(sr))) && !IsZero(hi.precomputed)
               && !IsZero(c.dh(ei, c.pub(er))) && !IsZero(c.dh(si, c.pub(er)))
               && Timely(hr, now, clock)
  {
    InitiationGoesOut(c, hi, c.pub(si), ei, now, i);
    var (hi', m1) := CreateInitiation(c, hi, c.pub(si), ei, now, i);
    if m1.Some? {
      InitiationBinds(c, sr, peers, hi, c.pub(si), ei, now, clock, i);
      var got := ConsumeInitiation(c, sr, peers, m1.value, clock);
      if got.Some? {
        InitiationComesIn(c, sr, peers, m1.value, clock);
        RunFinishes(c, si, hi', got.value.1, er, r, ei);
      }
    }
  }

  lemma InitiationGoesOut(c: Crypto, h: Handshake, ownPub: Bytes, e: Bytes, now: Bytes, index: nat)
    ensures var (h', m) := CreateInitiation(c, h, ownPub, e, now, index);
            && (m.Some? <==> !IsZero(c.dh(e, h.remoteStatic)) && !IsZero(h.precomputed))
            && (m.Some? ==> m.value.ephemeral == c.pub(e) && h'.localEphemeral == e && h'.state == InitiationCreated
                            && h'.presharedKey == h.presharedKey)
  {
  }

  lemma InitiationComesIn(c: Crypto, priv: Bytes, peers: map<Bytes, Handshake>, m: Initiation, clock: int)
    requires ConsumeInitiation(c, priv, peers, m, clock).Some?
    ensures var (pk, h) := ConsumeInitiation(c, priv, peers, m, clock).value;
            && pk in peers && h.state == InitiationConsumed && h.remoteEphemeral == m.ephemeral
            && h.presharedKey == peers[pk].presharedKey && h.remoteStatic == peers[pk].remoteStatic
  {
  }

  /** The second half of a run. */
  lemma RunFinishes(c: Crypto, si: Bytes, hi: Handshake, hr: Handshake, er: Bytes, r: nat, ei: Bytes)
    requires Lawful(c) && Strict(c) && hi.state == InitiationCreated && hr.state == InitiationConsumed
    requires hi.chain == hr.chain && hi.localEphemeral == ei && hr.remoteEphemeral == c.pub(ei)
    ensures var (hr', m2) := CreateResponse(c, hr, er, r);
            (m2.Some? && ConsumeResponse(c, si, hi, m2.value).Some?) <==>
              && hr.presharedKey == hi.presharedKey && c.dh(er, hr.remoteStatic) == c.dh(er, c.pub(si))
              && !IsZero(c.dh(ei, c.pub(er))) && !IsZero(c.dh(si, c.pub(er)))
  {
    var m2 := CreateResponse(c, hr, er, r).1;
    assert c.dh(er, c.pub(ei)) == c.dh(ei, c.pub(er)) && c.dh(er, c.pub(si)) == c.dh(si, c.pub(er));
    ResponseIsPattern(c, hr, er, r);
    WriteSecond(c, Resume(hr.chain), Values(c.pub(er), [], [], c.dh(er, hr.remoteEphemeral), c.dh(er, hr.remoteStatic),
                                            hr.presharedKey, [], []));
    if m2.Some? { ResponseBinds(c, si, hi, hr, er, r); }
  }

  // ---------- the assumptions can be met together ----------

  function Pair(a: Bytes, b: Bytes): Bytes { [|a|] + a + b }

  lemma PairOnce(a: Bytes, x: Bytes, b: Bytes, y: Bytes)
    requires Pair(a, x) == Pair(b, y)
    ensures a == b && x == y
  {
    assert Pair(a, x)[0] == |a| && Pair(b, y)[0] == |b|;
    assert Pair(a, x)[1..|a| + 1] == a && Pair(b, y)[1..|b| + 1] == b;
    assert Pair(a, x)[|a| + 1..] == x && Pair(b, y)[|b| + 1..] == y;
  }

  function Box(k: Bytes, t: Bytes, ad: Bytes): Bytes { Pair(k, Pair(ad, t)) }

  function Unbox(k: Bytes, box: Bytes, ad: Bytes): Option<Bytes> {
    var n := |Box(k, [], ad)|;
    if n <= |box| && box[..n] == Box(k, [], ad) then Some(box[n..]) else None
  }

  lemma UnboxOnce(k: Bytes, t: Bytes, ad: Bytes, k': Bytes, ad': Bytes)
    ensures Unbox(k', Box(k, t, ad), ad') == if k == k' && ad == ad' then Some(t) else None
  {
    var n := |Box(k', [], ad')|;
    if k == k' && ad == ad' {
      assert Box(k, t, ad)[..n] == Box(k, [], ad) && Box(k, t, ad)[n..] == t;
    } else if n <= |Box(k, t, ad)| && Box(k, t, ad)[..n] == Box(k', [], ad') {
      var rest := Box(k, t, ad)[n..];
      assert Box(k, t, ad) == Box(k', [], ad') + rest;
      assert Box(k', [], ad') + rest == Box(k', rest, ad');
      PairOnce(k, Pair(ad, t), k', Pair(ad', rest));
      PairOnce(ad, t, ad', rest);
    }
  }

  lemma StrictIsConsistent() returns (c: Crypto)
    ensures Strict(c) && Lawful(c) && forall a, b :: !IsZero(c.dh(a, c.pub(b)))
  {
    c := Crypto([], [], Pair, Pair, x => x, (a: Bytes, b: Bytes) => [1 + |a| + |b|], Box, Unbox);
    forall a, x, b, y | Pair(a, x) == Pair(b, y) ensures a == b && x == y { PairOnce(a, x, b, y); }
    forall k, t, ad, k', ad' ensures Unbox(k', Box(k, t, ad), ad') == if k == k' && ad == ad' then Some(t) else None {
      UnboxOnce(k, t, ad, k', ad');
    }
    forall a, b ensures !IsZero(c.dh(a, c.pub(b))) {
      assert c.dh(a, c.pub(b))[0] == 1 + |a| + |b|;
    }
  }
}
