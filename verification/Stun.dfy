/**
 * The two STUN response parsers: StunClient.parse of z/stun/client.go, which undoes the XOR
 * byte by byte with the cookie it received, and parseStunResponse of vpnengine.go, which
 * undoes it on whole words with the standard cookie (section 14.2 of RFC 8489).
 */
module Stun {
  import opened Bytes
  import opened Options
  import opened Sequences

  const MAGIC_COOKIE: U32 := 0x2112A442
  const XOR_MAPPED_ADDRESS: U16 := 0x0020
  const HEADER_LEN: nat := 20

  datatype Result = Found(ip: seq<Byte>, port: U16) | NotFound | Short | BadFamily | Panic

  // ---------- exclusive or on words of n bits ----------

  function Pow2(n: nat): nat { if n == 0 then 1 else 2 * Pow2(n - 1) }

  function Xor(a: nat, b: nat, n: nat): (r: nat)
    ensures r < Pow2(n)
  {
    if n == 0 then 0 else (a + b) % 2 + 2 * Xor(a / 2, b / 2, n - 1)
  }

  lemma Parity(a: nat, b: nat)
    ensures ((a + b) % 2 + b) % 2 == a % 2
  {
  }

  lemma {:induction false} XorTwice(a: nat, b: nat, n: nat)
    requires a < Pow2(n)
    ensures Xor(Xor(a, b, n), b, n) == a
  {
    if n > 0 {
      HalfBelow(a, n);
      XorTwice(a / 2, b / 2, n - 1);
      XorTwiceFrom(a, b, n, Xor(a, b, n), Xor(a / 2, b / 2, n - 1));
    }
  }

  lemma HalfBelow(a: nat, n: nat)
    requires n > 0 && a < Pow2(n)
    ensures a / 2 < Pow2(n - 1)
  {
  }

  lemma XorTwiceFrom(a: nat, b: nat, n: nat, y: nat, x: nat)
    requires n > 0 && y == (a + b) % 2 + 2 * x && Xor(x, b / 2, n - 1) == a / 2
    ensures Xor(y, b, n) == a
  {
    HalfOf(y, (a + b) % 2, x);
    Parity(a, b);
    SameParity(y, (a + b) % 2, b);
  }

  lemma HalfOf(y: nat, bit: nat, x: nat)
    requires y == bit + 2 * x && bit < 2
    ensures y / 2 == x && y % 2 == bit
  {
  }

  lemma SameParity(y: nat, bit: nat, b: nat)
    requires y % 2 == bit
    ensures (y + b) % 2 == (bit + b) % 2
  {
  }

  function Shift(x: nat, n: nat): nat { if n == 0 then x else 2 * Shift(x, n - 1) }

  /** High and low parts are combined separately. */
  lemma {:induction false} XorSplits(hi: nat, lo: nat, hi': nat, lo': nat, m: nat, n: nat)
    requires lo < Pow2(n) && lo' < Pow2(n)
    ensures Xor(Shift(hi, n) + lo, Shift(hi', n) + lo', m + n) == Shift(Xor(hi, hi', m), n) + Xor(lo, lo', n)
  {
    if n > 0 {
      HalfBelow(lo, n);
      HalfBelow(lo', n);
      XorSplits(hi, lo / 2, hi', lo' / 2, m, n - 1);
      var s, s' := Shift(hi, n - 1), Shift(hi', n - 1);
      HalveSum(s, lo);
      HalveSum(s', lo');
      XorSplitsFrom(2 * s + lo, 2 * s' + lo', m + n, s + lo / 2, s' + lo' / 2, lo, lo', n,
          Shift(Xor(hi, hi', m), n - 1));
    }
  }

  lemma XorSplitsFrom(a: nat, b: nat, k: nat, a': nat, b': nat, lo: nat, lo': nat, n: nat, t: nat)
    requires k >= n > 0 && a / 2 == a' && b / 2 == b' && a % 2 == lo % 2 && b % 2 == lo' % 2
    requires Xor(a', b', k - 1) == t + Xor(lo / 2, lo' / 2, n - 1)
    ensures Xor(a, b, k) == 2 * t + Xor(lo, lo', n)
  {
    XorLow(a, b, k, a', b', lo, lo');
  }

  lemma HalveSum(x: nat, lo: nat)
    ensures (2 * x + lo) / 2 == x + lo / 2 && (2 * x + lo) % 2 == lo % 2
  {
  }

  lemma Shifts(x: nat)
    ensures Shift(x, 8) == 0x100 * x && Shift(x, 16) == 0x1_0000 * x
  {
    assert Shift(x, 1) == 2 * x;
    assert Shift(x, 2) == 4 * x;
    assert Shift(x, 4) == 0x10 * x;
    assert Shift(x, 6) == 0x40 * x;
    assert Shift(x, 8) == 0x100 * x;
    assert Shift(x, 10) == 0x400 * x;
    assert Shift(x, 12) == 0x1000 * x;
    assert Shift(x, 14) == 0x4000 * x;
  }

  /** The lowest bit, split off. */
  lemma XorLow(a: nat, b: nat, n: nat, a': nat, b': nat, lo: nat, lo': nat)
    requires n > 0 && a / 2 == a' && b / 2 == b' && a % 2 == lo % 2 && b % 2 == lo' % 2
    ensures Xor(a, b, n) == (lo + lo') % 2 + 2 * Xor(a', b', n - 1)
  {
    SumParity(a, b, lo, lo');
  }

  lemma SumParity(a: nat, b: nat, c: nat, d: nat)
    requires a % 2 == c % 2 && b % 2 == d % 2
    ensures (a + b) % 2 == (c + d) % 2
  {
  }

  lemma Powers()
    ensures Pow2(8) == 0x100 && Pow2(16) == 0x1_0000 && Pow2(32) == 0x1_0000_0000
  {
    assert Pow2(4) == 16;
    assert Pow2(8) == 0x100;
    assert Pow2(12) == 0x1000;
    assert Pow2(16) == 0x1_0000;
    assert Pow2(20) == 0x10_0000;
    assert Pow2(24) == 0x100_0000;
    assert Pow2(28) == 0x1000_0000;
    assert Pow2(32) == 0x1_0000_0000;
  }

  function XorByte(a: Byte, b: Byte): Byte { Powers(); Xor(a, b, 8) }

  function Xor16(a: U16, b: U16): U16 { Powers(); Xor(a, b, 16) }

  function Xor32(a: U32, b: U32): U32 { Powers(); Xor(a, b, 32) }

  function XorBytes(a: seq<Byte>, b: seq<Byte>): (r: seq<Byte>)
    requires |a| == |b|
    ensures |r| == |a| && forall i :: 0 <= i < |a| ==> r[i] == XorByte(a[i], b[i])
  {
    seq(|a|, i requires 0 <= i < |a| => XorByte(a[i], b[i]))
  }

  lemma Xor16ByBytes(a: seq<Byte>, b: seq<Byte>)
    requires |a| == |b| == 2
    ensures Xor16(BE16(a), BE16(b)) == XorByte(a[0], b[0]) as int * 0x100 + XorByte(a[1], b[1]) as int
  {
    Powers();
    XorSplits(a[0], a[1], b[0], b[1], 8, 8);
    Shifts(a[0]);
    Shifts(b[0]);
    Shifts(Xor(a[0], b[0], 8));
  }

  lemma PutParts(a: Byte, b: Byte, c: Byte, d: Byte)
    ensures var hi, lo := a as int * 0x100 + b as int, c as int * 0x100 + d as int;
            PutBE32(hi * 0x1_0000 + lo) == [a, b, c, d]
  {
    PutPair(a, b);
    PutPair(c, d);
    Halves(a as int * 0x100 + b as int, c as int * 0x100 + d as int);
  }

  lemma PutPair(a: Byte, b: Byte)
    ensures PutBE16(a as int * 0x100 + b as int) == [a, b]
  {
  }

  lemma Halves(hi: U16, lo: U16)
    ensures (hi as int * 0x1_0000 + lo as int) / 0x1_0000 == hi && (hi as int * 0x1_0000 + lo as int) % 0x1_0000 == lo
  {
  }

  /** The word-wise XOR of an address is the byte-wise one. */
  lemma Xor32ByBytes(a: seq<Byte>, b: seq<Byte>)
    requires |a| == |b| == 4
    ensures PutBE32(Xor32(BE32(a), BE32(b))) == XorBytes(a, b)
  {
    Xor32Parts(a, b);
    var x := XorBytes(a, b);
    PutParts(x[0], x[1], x[2], x[3]);
    assert x == [x[0], x[1], x[2], x[3]];
  }

  lemma Xor32Parts(a: seq<Byte>, b: seq<Byte>)
    requires |a| == |b| == 4
    ensures var hi := XorByte(a[0], b[0]) as int * 0x100 + XorByte(a[1], b[1]) as int;
            var lo := XorByte(a[2], b[2]) as int * 0x100 + XorByte(a[3], b[3]) as int;
            Xor32(BE32(a), BE32(b)) == hi * 0x1_0000 + lo
  {
    Xor32BySplit(BE16(a[..2]), BE16(a[2..]), BE16(b[..2]), BE16(b[2..]));
    Xor16ByBytes(a[..2], b[..2]);
    Xor16ByBytes(a[2..], b[2..]);
  }

  lemma Xor32BySplit(a: U16, b: U16, c: U16, d: U16)
    ensures Xor32(a as int * 0x1_0000 + b as int, c as int * 0x1_0000 + d as int)
        == Xor16(a, c) as int * 0x1_0000 + Xor16(b, d) as int
  {
    Powers();
    XorSplits(a, b, c, d, 16, 16);
    Shifts(a);
    Shifts(c);
    Shifts(Xor(a, c, 16));
  }

  // ---------- the parsers as functions ----------

  function RoundUp(n: nat): nat { if n % 4 == 0 then n else n + 4 - n % 4 }

  lemma RoundsUp(n: nat)
    ensures (n + 3) / 4 * 4 == RoundUp(n)
  {
  }

  lemma RoundUpSum(offset: nat, n: nat)
    requires offset % 4 == 0
    ensures RoundUp(offset + 4 + n) == offset + 4 + RoundUp(n) && RoundUp(offset + 4 + n) % 4 == 0
  {
  }

  /** The big-endian word at `at`. */
  function Word(b: seq<Byte>, at: nat): U16
    requires at + 2 <= |b|
  {
    b[at] as int * 0x100 + b[at + 1] as int
  }

  /** Type and length of the attribute at `p`. */
  predicate AttrAt(b: seq<Byte>, p: nat, typ: U16, len: nat) {
    p + 4 <= |b| && Word(b, p) == typ && Word(b, p + 2) == len
  }

  /** The attribute that decides for StunClient.parse: the first of the type, if all up to it are in bounds. */
  function ClientStop(buf: seq<Byte>, p: nat): Option<nat>
    decreases |buf| - p
  {
    if p + 4 > |buf| then None
    else if p + 4 + Word(buf, p + 2) as int > |buf| then None
    else if Word(buf, p) == XOR_MAPPED_ADDRESS then Some(p)
    else ClientStop(buf, RoundUp(p + 4 + Word(buf, p + 2) as int))
  }

  /** For parseStunResponse: the first of the type that is long enough, in bounds or not. */
  function EngineStop(resp: seq<Byte>, p: nat): Option<nat>
    decreases |resp| - p
  {
    if p + 4 > |resp| then None
    else if Word(resp, p) == XOR_MAPPED_ADDRESS && Word(resp, p + 2) >= 8 then Some(p)
    else EngineStop(resp, p + 4 + RoundUp(Word(resp, p + 2)))
  }

  function ClientRead(buf: seq<Byte>, p: nat): Result
    requires HEADER_LEN <= |buf| && p + 4 <= |buf| && p + 4 + Word(buf, p + 2) as int <= |buf|
  {
    if Word(buf, p + 2) < 8 then Short
    else if buf[p + 5] != 1 then BadFamily
    else Found(XorBytes(buf[p + 8..p + 12], buf[4..8]), Xor16(Word(buf, p + 6), 0x2112))
  }

  function EngineRead(resp: seq<Byte>, p: nat): Result {
    if p + 12 > |resp| then Panic
    else Found(PutBE32(Xor32(BE32(resp[p + 8..p + 12]), MAGIC_COOKIE)), Xor16(Word(resp, p + 6), 0x2112))
  }

  lemma {:induction false} ClientStopFits(buf: seq<Byte>, p: nat)
    requires ClientStop(buf, p).Some?
    ensures var q := ClientStop(buf, p).value;
            q + 4 <= |buf| && q + 4 + Word(buf, q + 2) as int <= |buf| && Word(buf, q) == XOR_MAPPED_ADDRESS
    decreases |buf| - p
  {
    if Word(buf, p) != XOR_MAPPED_ADDRESS { ClientStopFits(buf, RoundUp(p + 4 + Word(buf, p + 2) as int)); }
  }

  function Client(buf: seq<Byte>): Result {
    if |buf| < HEADER_LEN then Short else
    match ClientStop(buf, HEADER_LEN)
    case None => NotFound
    case Some(p) =>
      ClientStopFits(buf, HEADER_LEN);
      ClientRead(buf, p)
  }

  function Engine(resp: seq<Byte>): Result {
    if |resp| < HEADER_LEN then Short else
    match EngineStop(resp, HEADER_LEN)
    case None => NotFound
    case Some(p) => EngineRead(resp, p)
  }

  // ---------- the parsers ----------

  method XorCookie(b: seq<Byte>, cookie: seq<Byte>) returns (ip: seq<Byte>)
    requires |b| == |cookie| == 4
    ensures ip == XorBytes(b, cookie)
  {
    ip := [0, 0, 0, 0];
    for i := 0 to 4
      invariant |ip| == 4 && forall k :: 0 <= k < i ==> ip[k] == XorByte(b[k], cookie[k])
    {
      ip := ip[i := XorByte(b[i], cookie[i])];
    }
  }

  method Align(n: nat) returns (r: nat)
    ensures r == RoundUp(n)
  {
    r := n;
    while r % 4 != 0
      invariant n <= r <= RoundUp(n)
      decreases RoundUp(n) - r
    {
      r := r + 1;
    }
  }

  method ReadAddress(buf: seq<Byte>, offset: nat, attrLen: nat) returns (r: Result)
    requires |buf| >= HEADER_LEN && offset + 4 + attrLen <= |buf| && Word(buf, offset + 2) == attrLen
    ensures r == ClientRead(buf, offset)
  {
    if attrLen < 8 {
      return Short;
    }
    if buf[offset + 5] != 1 {
      return BadFamily;
    }
    var port := Xor16(Word(buf, offset + 6), 0x2112);
    var ip := XorCookie(buf[offset + 8..offset + 12], buf[4..8]);
    return Found(ip, port);
  }

  /** In bounds and terminating on every input. */
  method Parse(buf: seq<Byte>) returns (r: Result)
    ensures r == Client(buf) && r != Panic
  {
    if |buf| < 20 {
      return Short;
    }
    var offset := 20;
    while offset + 4 <= |buf|
      invariant 20 <= offset && ClientStop(buf, HEADER_LEN) == ClientStop(buf, offset)
      decreases |buf| - offset
    {
      var attrType, attrLen := Word(buf, offset), Word(buf, offset + 2) as nat;
      if offset + 4 + attrLen > |buf| {
        break;
      }
      if attrType == XOR_MAPPED_ADDRESS {
        r := ReadAddress(buf, offset, attrLen);
        return;
      }
      offset := Align(offset + 4 + attrLen);
    }
    return NotFound;
  }

  /**
   * Panic stands for a slice expression out of range. Go bounds it by the capacity; the
   * caller passes a copy whose capacity is its length (conn/bind_std.go:282).
   */
  method ParseStunResponse(resp: seq<Byte>) returns (r: Result)
    ensures r == Engine(resp)
  {
    var n := |resp|;
    if n < 20 {
      return Short;
    }
    var pos := 20;
    while pos + 4 <= n
      invariant EngineStop(resp, HEADER_LEN) == EngineStop(resp, pos)
      decreases n - pos
    {
      var atype, alen := Word(resp, pos), Word(resp, pos + 2) as nat;
      pos := pos + 4;
      if atype == XOR_MAPPED_ADDRESS && alen >= 8 {
        if pos + 8 > n {
          return Panic;
        }
        var port := Xor16(Word(resp, pos + 2), 0x2112);
        var ipInt := Xor32(BE32(resp[pos + 4..pos + 8]), MAGIC_COOKIE);
        return Found(PutBE32(ipInt), port);
      }
      RoundsUp(alen);
      pos := pos + (alen + 3) / 4 * 4;
    }
    return NotFound;
  }

  // ---------- the two agree ----------

  lemma {:induction false} SameStop(buf: seq<Byte>, p: nat)
    requires p % 4 == 0 && ClientStop(buf, p).Some? && Word(buf, Fitting(buf, p) + 2) >= 8
    ensures EngineStop(buf, p) == ClientStop(buf, p)
    decreases |buf| - p
  {
    if Word(buf, p) != XOR_MAPPED_ADDRESS {
      RoundUpSum(p, Word(buf, p + 2));
      SameStop(buf, RoundUp(p + 4 + Word(buf, p + 2) as int));
    }
  }

  /** Where the client stops, which lies in bounds. */
  function Fitting(buf: seq<Byte>, p: nat): (q: nat)
    requires ClientStop(buf, p).Some?
    ensures q + 4 <= |buf| && ClientStop(buf, p) == Some(q)
  {
    ClientStopFits(buf, p);
    ClientStop(buf, p).value
  }

  lemma ReadsAgree(buf: seq<Byte>, p: nat)
    requires HEADER_LEN <= |buf| && p + 4 <= |buf| && p + 4 + Word(buf, p + 2) as int <= |buf|
    requires buf[4..8] == PutBE32(MAGIC_COOKIE) && ClientRead(buf, p).Found?
    ensures EngineRead(buf, p) == ClientRead(buf, p)
  {
    Xor32ByBytes(buf[p + 8..p + 12], PutBE32(MAGIC_COOKIE));
  }

  /** With the standard cookie, whatever StunClient finds parseStunResponse finds as well. */
  lemma ParsersAgree(buf: seq<Byte>)
    requires |buf| >= HEADER_LEN && buf[4..8] == PutBE32(MAGIC_COOKIE) && Client(buf).Found?
    ensures Engine(buf) == Client(buf)
  {
    ClientStopFits(buf, HEADER_LEN);
    SameStop(buf, HEADER_LEN);
    ReadsAgree(buf, Fitting(buf, HEADER_LEN));
  }

  // ---------- and find what was encoded ----------

  datatype Attr = Attr(typ: U16, value: seq<Byte>)

  function Padding(n: nat): (r: seq<Byte>)
    ensures |r| == RoundUp(n) - n
  {
    seq(RoundUp(n) - n, i => 0)
  }

  predicate Sized(a: Attr) { |a.value| < 0x1_0000 }

  function EncodeAttr(a: Attr): (r: seq<Byte>)
    requires Sized(a)
    ensures |r| == 4 + RoundUp(|a.value|)
  {
    PutBE16(a.typ) + PutBE16(|a.value|) + a.value + Padding(|a.value|)
  }

  /** The first n pieces one after the other. */
  function Concat(pieces: seq<seq<Byte>>, n: nat): seq<Byte>
    requires n <= |pieces|
  {
    if n == 0 then [] else Concat(pieces, n - 1) + pieces[n - 1]
  }

  function EncodeAttrs(attrs: seq<Attr>): (r: seq<seq<Byte>>)
    requires forall k :: 0 <= k < |attrs| ==> Sized(attrs[k])
    ensures |r| == |attrs| && forall k :: 0 <= k < |attrs| ==> r[k] == EncodeAttr(attrs[k])
  {
    seq(|attrs|, k requires 0 <= k < |attrs| => EncodeAttr(attrs[k]))
  }

  function Header(typ: U16, len: U16, transaction: seq<Byte>): (r: seq<Byte>)
    requires |transaction| == 12
    ensures |r| == HEADER_LEN && r[4..8] == PutBE32(MAGIC_COOKIE)
  {
    PutBE16(typ) + PutBE16(len) + PutBE32(MAGIC_COOKIE) + transaction
  }

  const IPV4: Byte := 1

  /** The address attribute: zero byte, family, port and four bytes of address under the cookie, and maybe more. */
  function AddressAttr(fam: Byte, ip: seq<Byte>, port: U16, more: seq<Byte>): (a: Attr)
    requires |ip| == 4
    ensures |a.value| == 8 + |more| && a.typ == XOR_MAPPED_ADDRESS
  {
    Attr(XOR_MAPPED_ADDRESS, [0, fam] + PutBE16(Xor16(port, 0x2112)) + XorBytes(ip, PutBE32(MAGIC_COOKIE)) + more)
  }

  /** A response: any attributes of other types, then the address, then anything. */
  function Response(header: seq<Byte>, before: seq<Attr>, fam: Byte, ip: seq<Byte>, port: U16, more: seq<Byte>,
        after: seq<Byte>): seq<Byte>
    requires |ip| == 4 && |more| < 0xFFF8 && forall k :: 0 <= k < |before| ==> Sized(before[k])
  {
    header + Concat(EncodeAttrs(before), |before|) + EncodeAttr(AddressAttr(fam, ip, port, more)) + after
  }

  /** `buf` holds `part` at `at`. */
  predicate HoldsAt(buf: seq<Byte>, at: nat, part: seq<Byte>) {
    at + |part| <= |buf| && forall k :: 0 <= k < |part| ==> buf[at + k] == part[k]
  }

  lemma HoldsBoth(buf: seq<Byte>, at: nat, a: seq<Byte>, b: seq<Byte>)
    requires HoldsAt(buf, at, a + b)
    ensures HoldsAt(buf, at, a) && HoldsAt(buf, at + |a|, b)
  {
    forall k | 0 <= k < |a| ensures buf[at + k] == a[k] { assert (a + b)[k] == a[k]; }
    forall k | 0 <= k < |b| ensures buf[at + |a| + k] == b[k] { assert (a + b)[|a| + k] == b[k]; }
  }

  lemma AttrHeld(buf: seq<Byte>, at: nat, a: Attr)
    requires Sized(a) && HoldsAt(buf, at, EncodeAttr(a))
    ensures AttrAt(buf, at, a.typ, |a.value|) && HoldsAt(buf, at + 4, a.value)
  {
    var typ, len, pad := PutBE16(a.typ), PutBE16(|a.value|), Padding(|a.value|);
    HoldsBoth(buf, at, typ + len + a.value, pad);
    HoldsBoth(buf, at, typ + len, a.value);
    HoldsBoth(buf, at, typ, len);
    WordHeld(buf, at, a.typ);
    WordHeld(buf, at + 2, |a.value|);
  }

  lemma WordHeld(buf: seq<Byte>, at: nat, x: U16)
    requires HoldsAt(buf, at, PutBE16(x))
    ensures at + 2 <= |buf| && Word(buf, at) == x
  {
    assert buf[at + 0] == x / 0x100 && buf[at + 1] == x % 0x100;
  }

  predicate OtherTypes(before: seq<Attr>) {
    forall k :: 0 <= k < |before| ==> Sized(before[k]) && before[k].typ != XOR_MAPPED_ADDRESS
  }

  /** Each piece lies where those before it end. */
  lemma {:induction false} PieceHeld(buf: seq<Byte>, at: nat, pieces: seq<seq<Byte>>, n: nat, k: nat)
    requires k < n <= |pieces| && HoldsAt(buf, at, Concat(pieces, n))
    ensures HoldsAt(buf, at + |Concat(pieces, k)|, pieces[k])
  {
    HoldsBoth(buf, at, Concat(pieces, n - 1), pieces[n - 1]);
    if k < n - 1 { PieceHeld(buf, at, pieces, n - 1, k); }
  }

  predicate AllAligned(pieces: seq<seq<Byte>>) {
    forall k :: 0 <= k < |pieces| ==> |pieces[k]| % 4 == 0
  }

  lemma SumAligned(a: nat, b: nat)
    requires a % 4 == 0 && b % 4 == 0
    ensures (a + b) % 4 == 0
  {
  }

  lemma {:induction false} Aligned(pieces: seq<seq<Byte>>, k: nat)
    requires k <= |pieces| && AllAligned(pieces)
    ensures |Concat(pieces, k)| % 4 == 0
  {
    if k > 0 {
      Aligned(pieces, k - 1);
      SumAligned(|Concat(pieces, k - 1)|, |pieces[k - 1]|);
    }
  }

  lemma ClientPasses(buf: seq<Byte>, at: nat, a: Attr)
    requires at % 4 == 0 && Sized(a) && a.typ != XOR_MAPPED_ADDRESS && HoldsAt(buf, at, EncodeAttr(a))
    ensures ClientStop(buf, at) == ClientStop(buf, at + |EncodeAttr(a)|)
  {
    AttrHeld(buf, at, a);
    RoundUpSum(at, |a.value|);
  }

  /** The search goes from the start of the k-th piece to its end. */
  predicate Passed(stop: nat -> Option<nat>, at: nat, pieces: seq<seq<Byte>>, k: nat) {
    k < |pieces| && stop(at + |Concat(pieces, k)|) == stop(at + |Concat(pieces, k)| + |pieces[k]|)
  }

  lemma PieceSkipped(buf: seq<Byte>, at: nat, pieces: seq<seq<Byte>>, k: nat, a: Attr)
    requires at % 4 == 0 && AllAligned(pieces) && k < |pieces| && HoldsAt(buf, at, Concat(pieces, |pieces|))
    requires Sized(a) && a.typ != XOR_MAPPED_ADDRESS && pieces[k] == EncodeAttr(a)
    ensures Passed((p: nat) => ClientStop(buf, p), at, pieces, k)
  {
    PieceHeld(buf, at, pieces, |pieces|, k);
    Aligned(pieces, k);
    ClientPasses(buf, at + |Concat(pieces, k)|, a);
  }

  lemma {:induction false} SkipsAll(stop: nat -> Option<nat>, at: nat, pieces: seq<seq<Byte>>, n: nat)
    requires n <= |pieces| && forall k: nat :: k < n ==> Passed(stop, at, pieces, k)
    ensures stop(at) == stop(at + |Concat(pieces, n)|)
  {
    if n > 0 {
      SkipsAll(stop, at, pieces, n - 1);
      assert Passed(stop, at, pieces, n - 1);
    }
  }

  predicate Encodes(pieces: seq<seq<Byte>>, attrs: seq<Attr>, k: nat) {
    k < |attrs| && k < |pieces| && Sized(attrs[k]) && attrs[k].typ != XOR_MAPPED_ADDRESS
        && pieces[k] == EncodeAttr(attrs[k])
  }

  lemma EncodedPieces(attrs: seq<Attr>)
    requires OtherTypes(attrs)
    ensures var pieces := EncodeAttrs(attrs); AllAligned(pieces)
                                              && forall k: nat :: k < |pieces| ==> Encodes(pieces, attrs, k)
  {
  }

  lemma ClientSkips(buf: seq<Byte>, at: nat, attrs: seq<Attr>, pieces: seq<seq<Byte>>)
    requires at % 4 == 0 && AllAligned(pieces) && forall k: nat :: k < |pieces| ==> Encodes(pieces, attrs, k)
    requires HoldsAt(buf, at, Concat(pieces, |pieces|))
    ensures ClientStop(buf, at) == ClientStop(buf, at + |Concat(pieces, |pieces|)|)
  {
    var stop := (p: nat) => ClientStop(buf, p);
    forall k: nat | k < |pieces| ensures Passed(stop, at, pieces, k) {
      assert Encodes(pieces, attrs, k);
      PieceSkipped(buf, at, pieces, k, attrs[k]);
    }
    SkipsAll(stop, at, pieces, |pieces|);
  }

  lemma SliceHeld(buf: seq<Byte>, at: nat, part: seq<Byte>)
    requires HoldsAt(buf, at, part)
    ensures buf[at..at + |part|] == part
  {
  }

  /** Where the parsers look for family, port and address. */
  lemma AddressHeld(buf: seq<Byte>, at: nat, fam: Byte, ip: seq<Byte>, port: U16, more: seq<Byte>)
    requires |ip| == 4 && |more| < 0xFFF8 && HoldsAt(buf, at, AddressAttr(fam, ip, port, more).value)
    ensures at + 8 <= |buf| && buf[at + 1] == fam
    ensures Word(buf, at + 2) == Xor16(port, 0x2112) && buf[at + 4..at + 8] == XorBytes(ip, PutBE32(MAGIC_COOKIE))
  {
    var xport, xip := PutBE16(Xor16(port, 0x2112)), XorBytes(ip, PutBE32(MAGIC_COOKIE));
    HoldsBoth(buf, at, [0, fam] + xport + xip, more);
    HoldsBoth(buf, at, [0, fam] + xport, xip);
    HoldsBoth(buf, at, [0, fam], xport);
    assert buf[at + 1] == [0, fam][1];
    WordHeld(buf, at + 2, Xor16(port, 0x2112));
    SliceHeld(buf, at + 4, xip);
  }

  lemma ClientStops(buf: seq<Byte>, at: nat, a: Attr)
    requires Sized(a) && a.typ == XOR_MAPPED_ADDRESS && HoldsAt(buf, at, EncodeAttr(a))
    ensures ClientStop(buf, at) == Some(at) && HoldsAt(buf, at + 4, a.value) && AttrAt(buf, at, a.typ, |a.value|)
  {
    AttrHeld(buf, at, a);
  }

  lemma ClientReads(buf: seq<Byte>, at: nat, fam: Byte, ip: seq<Byte>, port: U16, more: seq<Byte>)
    requires |ip| == 4 && |more| < 0xFFF8 && |buf| >= HEADER_LEN && buf[4..8] == PutBE32(MAGIC_COOKIE)
    requires HoldsAt(buf, at + 4, AddressAttr(fam, ip, port, more).value)
    requires at + 4 <= |buf| && Word(buf, at + 2) == 8 + |more|
    ensures at + 4 + Word(buf, at + 2) as int <= |buf|
    ensures ClientRead(buf, at) == if fam == IPV4 then Found(ip, port) else BadFamily
  {
    AddressHeld(buf, at + 4, fam, ip, port, more);
    XorUndone(ip, PutBE32(MAGIC_COOKIE), port);
  }

  /** The other parser does not look at the family. */
  lemma EngineReads(buf: seq<Byte>, at: nat, fam: Byte, ip: seq<Byte>, port: U16, more: seq<Byte>)
    requires |ip| == 4 && |more| < 0xFFF8 && HoldsAt(buf, at + 4, AddressAttr(fam, ip, port, more).value)
    ensures EngineRead(buf, at) == Found(ip, port)
  {
    AddressHeld(buf, at + 4, fam, ip, port, more);
    XorUndone(ip, PutBE32(MAGIC_COOKIE), port);
    Xor32ByBytes(buf[at + 8..at + 12], PutBE32(MAGIC_COOKIE));
  }

  lemma XorUndone(ip: seq<Byte>, cookie: seq<Byte>, port: U16)
    requires |ip| == |cookie| == 4
    ensures XorBytes(XorBytes(ip, cookie), cookie) == ip && Xor16(Xor16(port, 0x2112), 0x2112) == port
  {
    Powers();
    forall i | 0 <= i < 4 ensures XorBytes(XorBytes(ip, cookie), cookie)[i] == ip[i] { XorTwice(ip[i], cookie[i], 8); }
    XorTwice(port, 0x2112, 16);
  }

  lemma Laid(header: seq<Byte>, attrs: seq<Byte>, address: seq<Byte>, after: seq<Byte>)
    requires |header| == HEADER_LEN
    ensures var buf := header + attrs + address + after;
            buf[4..8] == header[4..8] && HoldsAt(buf, HEADER_LEN, attrs) && HoldsAt(buf, HEADER_LEN + |attrs|, address)
  {
    var buf := header + attrs + address + after;
    assert HoldsAt(buf, 0, header + attrs + address);
    HoldsBoth(buf, 0, header + attrs, address);
    HoldsBoth(buf, 0, header, attrs);
  }

  /** The search passes the attributes of other types. */
  lemma StopsBehind(buf: seq<Byte>, before: seq<Attr>, pieces: seq<seq<Byte>>, a: Attr)
    requires OtherTypes(before) && pieces == EncodeAttrs(before) && Sized(a) && a.typ == XOR_MAPPED_ADDRESS
    requires HoldsAt(buf, HEADER_LEN, Concat(pieces, |pieces|))
    requires HoldsAt(buf, HEADER_LEN + |Concat(pieces, |pieces|)|, EncodeAttr(a))
    ensures var at := HEADER_LEN + |Concat(pieces, |pieces|)|;
            && ClientStop(buf, HEADER_LEN) == Some(at)
            && HoldsAt(buf, at + 4, a.value) && AttrAt(buf, at, a.typ, |a.value|)
  {
    EncodedPieces(before);
    ClientSkips(buf, HEADER_LEN, before, pieces);
    ClientStops(buf, HEADER_LEN + |Concat(pieces, |pieces|)|, a);
  }

  /** Behind them both parsers read the address. */
  lemma ReadBehind(buf: seq<Byte>, before: seq<Attr>, pieces: seq<seq<Byte>>, fam: Byte, ip: seq<Byte>, port: U16,
        more: seq<Byte>)
    requires OtherTypes(before) && pieces == EncodeAttrs(before) && |ip| == 4 && |more| < 0xFFF8
    requires |buf| >= HEADER_LEN && buf[4..8] == PutBE32(MAGIC_COOKIE)
    requires HoldsAt(buf, HEADER_LEN, Concat(pieces, |pieces|))
    requires HoldsAt(buf, HEADER_LEN + |Concat(pieces, |pieces|)|, EncodeAttr(AddressAttr(fam, ip, port, more)))
    ensures Client(buf) == (if fam == IPV4 then Found(ip, port) else BadFamily) && Engine(buf) == Found(ip, port)
  {
    var at := HEADER_LEN + |Concat(pieces, |pieces|)|;
    StopsBehind(buf, before, pieces, AddressAttr(fam, ip, port, more));
    ClientReads(buf, at, fam, ip, port, more);
    EngineStops(buf, at);
    EngineReads(buf, at, fam, ip, port, more);
  }

  lemma EngineStops(buf: seq<Byte>, at: nat)
    requires ClientStop(buf, HEADER_LEN) == Some(at) && at + 4 <= |buf| && Word(buf, at + 2) >= 8
    ensures EngineStop(buf, HEADER_LEN) == Some(at)
  {
    SameStop(buf, HEADER_LEN);
  }

  /** What the two parsers make of every well-formed response, whatever the address family. */
  lemma EncodedIsRead(header: seq<Byte>, before: seq<Attr>, fam: Byte, ip: seq<Byte>, port: U16, more: seq<Byte>,
        after: seq<Byte>)
    requires |header| == HEADER_LEN && header[4..8] == PutBE32(MAGIC_COOKIE)
    requires |ip| == 4 && |more| < 0xFFF8 && OtherTypes(before)
    ensures var buf := Response(header, before, fam, ip, port, more, after);
            Client(buf) == (if fam == IPV4 then Found(ip, port) else BadFamily) && Engine(buf) == Found(ip, port)
  {
    var attrs := Concat(EncodeAttrs(before), |before|);
    Laid(header, attrs, EncodeAttr(AddressAttr(fam, ip, port, more)), after);
    ReadBehind(Response(header, before, fam, ip, port, more, after), before, EncodeAttrs(before), fam, ip, port, more);
  }

  /** On every well-formed response with an IPv4 address both return the encoded address and port. */
  lemma BothFindEncoded(typ: U16, len: U16, transaction: seq<Byte>, before: seq<Attr>, ip: seq<Byte>, port: U16,
        more: seq<Byte>, after: seq<Byte>)
    requires |transaction| == 12 && |ip| == 4 && |more| < 0xFFF8
    requires OtherTypes(before)
    ensures var buf := Response(Header(typ, len, transaction), before, IPV4, ip, port, more, after);
            Client(buf) == Found(ip, port) && Engine(buf) == Found(ip, port)
  {
    EncodedIsRead(Header(typ, len, transaction), before, IPV4, ip, port, more, after);
  }

  // ---------- where they differ ----------

  /** The port, and all sixteen bytes, under the cookie and the transaction (section 14.2). */
  function Ipv6Attr(ip: seq<Byte>, port: U16, transaction: seq<Byte>): (a: Attr)
    requires |ip| == 16 && |transaction| == 12
    ensures |a.value| == 20
  {
    Attr(XOR_MAPPED_ADDRESS, [0, 2] + PutBE16(Xor16(port, 0x2112)) + XorBytes(ip, PutBE32(MAGIC_COOKIE) + transaction))
  }

  lemma XorPrefix(a: seq<Byte>, b: seq<Byte>, n: nat)
    requires n <= |a| == |b|
    ensures XorBytes(a, b)[..n] == XorBytes(a[..n], b[..n])
  {
  }

  /** Its first four bytes lie where those of an IPv4 address do. */
  lemma Ipv6IsWider(ip: seq<Byte>, port: U16, transaction: seq<Byte>) returns (more: seq<Byte>)
    requires |ip| == 16 && |transaction| == 12
    ensures |more| == 12 && Ipv6Attr(ip, port, transaction) == AddressAttr(2, ip[..4], port, more)
  {
    var key := PutBE32(MAGIC_COOKIE) + transaction;
    var x := XorBytes(ip, key);
    XorPrefix(ip, key, 4);
    assert key[..4] == PutBE32(MAGIC_COOKIE);
    more := x[4..];
    var front := [0, 2] + PutBE16(Xor16(port, 0x2112));
    assert x == x[..4] + more;
    Regroup(front, x[..4], more);
  }

  /** An IPv6 address: one refuses it, the other returns its first four bytes as an IPv4 address. */
  lemma Ipv6IsMisread(typ: U16, len: U16, transaction: seq<Byte>, before: seq<Attr>, ip: seq<Byte>, port: U16,
        after: seq<Byte>)
    requires |transaction| == 12 && |ip| == 16 && OtherTypes(before)
    ensures var buf := Header(typ, len, transaction) + Concat(EncodeAttrs(before), |before|)
                       + EncodeAttr(Ipv6Attr(ip, port, transaction)) + after;
            Client(buf) == BadFamily && Engine(buf) == Found(ip[..4], port)
  {
    var more := Ipv6IsWider(ip, port, transaction);
    EncodedIsRead(Header(typ, len, transaction), before, 2, ip[..4], port, more, after);
  }

  /** An address attribute whose declared length runs past the packet: one skips it, the other fails. */
  lemma TruncatedAddressPanics(header: seq<Byte>)
    requires |header| == HEADER_LEN
    ensures var buf := header + PutBE16(XOR_MAPPED_ADDRESS) + PutBE16(8);
            Client(buf) == NotFound && Engine(buf) == Panic
  {
    var buf := header + PutBE16(XOR_MAPPED_ADDRESS) + PutBE16(8);
    assert buf[20] == 0 && buf[21] == 0x20 && buf[22] == 0 && buf[23] == 8;
  }

  /** Where the engine goes on after the attribute at `p`. */
  function After(resp: seq<Byte>, p: nat): nat {
    if p + 4 > |resp| then p else p + 4 + RoundUp(Word(resp, p + 2))
  }

  /** The k-th attribute the engine looks at starts here. */
  function Position(resp: seq<Byte>, k: nat): nat {
    if k == 0 then HEADER_LEN else After(resp, Position(resp, k - 1))
  }

  /** An address attribute, long enough by its own account. */
  predicate Decides(resp: seq<Byte>, p: nat) {
    p + 4 <= |resp| && Word(resp, p) == XOR_MAPPED_ADDRESS && Word(resp, p + 2) >= 8
  }

  predicate PassesUpTo(resp: seq<Byte>, k: nat) {
    k > 0 ==> PassesUpTo(resp, k - 1) && Position(resp, k - 1) + 4 <= |resp| && !Decides(resp, Position(resp, k - 1))
  }

  /** The first address attribute that the engine reaches is the k-th, and is cut off. */
  predicate CutOffAt(resp: seq<Byte>, k: nat) {
    PassesUpTo(resp, k) && Decides(resp, Position(resp, k)) && |resp| < Position(resp, k) + 12
  }

  lemma EngineStep(resp: seq<Byte>, p: nat)
    ensures Decides(resp, p) ==> EngineStop(resp, p) == Some(p)
    ensures p + 4 <= |resp| && !Decides(resp, p) ==> After(resp, p) > p
                                                     && EngineStop(resp, p) == EngineStop(resp, After(resp, p))
    ensures p + 4 > |resp| ==> EngineStop(resp, p) == None
  {
  }

  lemma {:induction false} EngineAt(resp: seq<Byte>, k: nat)
    requires PassesUpTo(resp, k)
    ensures EngineStop(resp, HEADER_LEN) == EngineStop(resp, Position(resp, k))
  {
    if k > 0 {
      EngineAt(resp, k - 1);
      EngineStep(resp, Position(resp, k - 1));
    }
  }

  /** The place where the engine stops is one of the positions. */
  lemma {:induction false} StopHasPlace(resp: seq<Byte>, k: nat) returns (n: nat)
    requires PassesUpTo(resp, k) && EngineStop(resp, Position(resp, k)).Some?
    ensures PassesUpTo(resp, n) && Decides(resp, Position(resp, n))
        && EngineStop(resp, Position(resp, k)) == Some(Position(resp, n))
    decreases |resp| - Position(resp, k)
  {
    EngineStep(resp, Position(resp, k));
    if Decides(resp, Position(resp, k)) {
      n := k;
    } else {
      n := StopHasPlace(resp, k + 1);
    }
  }

  /** parseStunResponse fails exactly when the first address attribute it reaches is cut off. */
  lemma PanicsIffTruncated(resp: seq<Byte>)
    requires |resp| >= HEADER_LEN
    ensures Engine(resp) == Panic <==> exists n: nat :: CutOffAt(resp, n)
  {
    if Engine(resp) == Panic {
      var n := StopHasPlace(resp, 0);
      assert CutOffAt(resp, n);
    } else if exists n: nat :: CutOffAt(resp, n) {
      var n: nat :| CutOffAt(resp, n);
      EngineAt(resp, n);
      EngineStep(resp, Position(resp, n));
    }
  }
}
