/**
 * The Internet checksum engine of tun/checksum.go: a 64-bit accumulator loaded in the
 * machine's own byte order, with the end-around carry deferred to the end of each run of
 * words. `little` is the machine's byte order.
 *
 * The reference is `Reference`: add the big-endian 16-bit words one by one and fold until
 * the value fits 16 bits (section 2 of RFC 1071).
 */
module Checksum {
  import opened Bytes

  // ---------- the reference ----------

  /** The plain sum of the big-endian 16-bit words, an odd last byte padded with zero. */
  function WordSum(b: seq<Byte>): nat {
    if |b| == 0 then 0
    else if |b| == 1 then b[0] as int * 0x100
    else BE16(b[..2]) + WordSum(b[2..])
  }

  /** Fold until 16 bits remain. */
  function Fold(n: nat): nat {
    if n < 0x1_0000 then n else Fold(FoldOnce(n))
  }

  function FoldOnce(n: nat): nat {
    n / 0x1_0000 + n % 0x1_0000
  }

  function Reference(b: seq<Byte>, initial: nat): nat {
    Fold(initial + WordSum(b))
  }

  // ---------- arithmetic modulo 2^16 - 1 ----------

  predicate Apart(a: int, b: int, q: int) {
    a - b == 0xFFFF * q
  }

  /** Equal residues, by a quotient; the lemmas below carry the quotients along. */
  ghost predicate Cong(a: int, b: int) {
    exists q :: Apart(a, b, q)
  }

  lemma CongBy(a: int, b: int, q: int)
    requires Apart(a, b, q)
    ensures Cong(a, b)
  {
  }

  lemma CongSum(a: int, b: int, c: int, d: int)
    requires Cong(a, b) && Cong(c, d)
    ensures Cong(a + c, b + d)
  {
    var p :| Apart(a, b, p);
    var q :| Apart(c, d, q);
    CongBy(a + c, b + d, p + q);
  }

  lemma CongTrans(a: int, b: int, c: int)
    requires Cong(a, b) && Cong(b, c)
    ensures Cong(a, c) && Cong(b, a)
  {
    var p :| Apart(a, b, p);
    var q :| Apart(b, c, q);
    CongBy(a, c, p + q);
    CongBy(b, a, -p);
  }

  lemma CongTimes256(a: int, b: int)
    requires Cong(a, b)
    ensures Cong(0x100 * a, 0x100 * b)
  {
    var p :| Apart(a, b, p);
    CongBy(0x100 * a, 0x100 * b, 0x100 * p);
  }

  /** A folded value is fixed by its residue and by whether it is zero. */
  lemma {:induction false} FoldIsResidue(n: nat)
    ensures Fold(n) < 0x1_0000 && Cong(Fold(n), n) && (Fold(n) == 0 <==> n == 0)
    decreases n
  {
    if n >= 0x1_0000 {
      FoldIsResidue(FoldOnce(n));
      FoldOnceKeeps(n);
      CongTrans(Fold(n), FoldOnce(n), n);
    } else {
      CongBy(n, n, 0);
    }
  }

  lemma FoldOnceKeeps(n: nat)
    ensures Cong(FoldOnce(n), n) && Cong(n, FoldOnce(n)) && (FoldOnce(n) == 0 <==> n == 0)
  {
    CongBy(FoldOnce(n), n, -(n / 0x1_0000));
    CongBy(n, FoldOnce(n), n / 0x1_0000);
  }

  lemma FoldUnique(r: nat, n: nat)
    requires r < 0x1_0000 && Cong(r, n) && (r == 0 <==> n == 0)
    ensures r == Fold(n)
  {
    FoldIsResidue(n);
    CongTrans(Fold(n), n, n) by { CongBy(n, n, 0); }
    CongTrans(r, n, Fold(n));
    var q :| Apart(r, Fold(n), q);
  }

  /** `r` stands for the sum `s`: same residue, and zero only for the zero sum. */
  ghost predicate Stands(r: int, s: nat) {
    0 <= r < TWO64 && Cong(r, s) && (r == 0 <==> s == 0)
  }

  /** One's-complement addition of two 16-bit words, the carry brought around at once. */
  function OnesAdd(a: U16, b: U16): U16 {
    if a + b >= 0x1_0000 then a + b - 0xFFFF else a + b
  }

  function OnesSum(b: seq<Byte>, a: U16): U16 {
    if |b| == 0 then a
    else if |b| == 1 then OnesAdd(a, b[0] as int * 0x100)
    else OnesSum(b[2..], OnesAdd(a, BE16(b[..2])))
  }

  lemma FoldShift(a: U16, w: U16, rest: nat)
    ensures Fold(OnesAdd(a, w) + rest) == Fold(a + w + rest)
  {
    var s := OnesAdd(a, w);
    CongBy(s + rest, a + w + rest, if s == a + w then 0 else -1);
    FoldSame(s + rest, a + w + rest);
  }

  /** Bringing each carry around at once gives the same value as folding at the end. */
  lemma {:induction false} OnesSumIsReference(b: seq<Byte>, a: U16)
    ensures OnesSum(b, a) == Reference(b, a)
    decreases |b|
  {
    if |b| == 1 {
      FoldShift(a, b[0] as int * 0x100, 0);
    } else if |b| >= 2 {
      OnesSumIsReference(b[2..], OnesAdd(a, BE16(b[..2])));
      FoldShift(a, BE16(b[..2]), WordSum(b[2..]));
    }
  }

  // ---------- words in native order ----------

  /** Reading a word little-endian multiplies its residue by 256. */
  function Scaled(s: int, little: bool): int {
    if little then 0x100 * s else s
  }

  function Native16(b: seq<Byte>, little: bool): U16
    requires |b| == 2
  {
    if little then LE16(b) else BE16(b)
  }

  function Native32(b: seq<Byte>, little: bool): U32
    requires |b| == 4
  {
    if little then LE32(b) else BE32(b)
  }

  function Native64(b: seq<Byte>, little: bool): U64
    requires |b| == 8
  {
    if little then LE64(b) else BE64(b)
  }

  /** PutUint64 in native order followed by a big-endian read. */
  function Swap64(x: U64, little: bool): U64 {
    BE64(if little then PutLE64(x) else PutBE64(x))
  }

  /** The words of `a`, which has whole words only, and those of `b`. */
  lemma {:induction false} WordSumConcat(a: seq<Byte>, b: seq<Byte>, words: nat)
    requires |a| == 2 * words
    ensures WordSum(a + b) == WordSum(a) + WordSum(b)
  {
    if words == 0 {
      assert a + b == b;
    } else {
      assert (a + b)[2..] == a[2..] + b && (a + b)[..2] == a[..2];
      WordSumConcat(a[2..], b, words - 1);
    }
  }

  lemma WordSumCut(b: seq<Byte>, words: nat)
    requires 2 * words <= |b|
    ensures WordSum(b) == WordSum(b[..2 * words]) + WordSum(b[2 * words..])
  {
    Halved(b, 2 * words, |b|);
    WordSumConcat(b[..2 * words], b[2 * words..], words);
  }

  lemma Halved(b: seq<Byte>, m: nat, n: nat)
    requires m <= n <= |b|
    ensures b[..m] + b[m..n] == b[..n] && b[..|b|] == b && b[m..|b|] == b[m..]
  {
  }

  /** A word stands for its 16-bit halves, scaled by the byte order. */
  ghost predicate Loads(x: int, s: nat, little: bool) {
    Cong(x, Scaled(s, little)) && (x == 0 <==> s == 0)
  }

  lemma Loads16(b: seq<Byte>, little: bool)
    requires |b| == 2
    ensures Loads(Native16(b, little), WordSum(b), little)
  {
    assert WordSum(b) == BE16(b) by { assert b[..2] == b; }
    CongBy(Native16(b, little), Scaled(WordSum(b), little), if little then -(b[0] as int) else 0);
  }

  lemma LoadsSum(x: nat, y: nat, s: nat, t: nat, little: bool)
    requires Loads(x, s, little) && Loads(y, t, little)
    ensures Loads(x + y, s + t, little)
  {
    CongSum(x, Scaled(s, little), y, Scaled(t, little));
    assert Scaled(s + t, little) == Scaled(s, little) + Scaled(t, little);
  }

  /** Shifting by 16 or 32 bits keeps the residue. */
  lemma LoadsShift(x: nat, s: nat, little: bool)
    requires Loads(x, s, little)
    ensures Loads(x * 0x1_0000, s, little) && Loads(x * 0x1_0000_0000, s, little)
  {
    CongBy(x * 0x1_0000, x, x);
    CongTrans(x * 0x1_0000, x, Scaled(s, little));
    CongBy(x * 0x1_0000_0000, x, 0x1_0001 * x);
    CongTrans(x * 0x1_0000_0000, x, Scaled(s, little));
  }

  lemma Loads32(b: seq<Byte>, little: bool)
    requires |b| == 4
    ensures Loads(Native32(b, little), WordSum(b), little)
  {
    Loads16(b[..2], little);
    Loads16(b[2..], little);
    var x: int, y: int := Native16(b[..2], little), Native16(b[2..], little);
    var s, t := WordSum(b[..2]), WordSum(b[2..]);
    LoadsShift(x, s, little);
    LoadsShift(y, t, little);
    LoadsSum(x, y * 0x1_0000, s, t, little);
    LoadsSum(x * 0x1_0000, y, s, t, little);
    WordSumCut(b, 1);
  }

  lemma Loads64(b: seq<Byte>, little: bool)
    requires |b| == 8
    ensures Loads(Native64(b, little), WordSum(b), little)
  {
    Loads32(b[..4], little);
    Loads32(b[4..], little);
    var x: int, y: int := Native32(b[..4], little), Native32(b[4..], little);
    var s, t := WordSum(b[..4]), WordSum(b[4..]);
    LoadsShift(x, s, little);
    LoadsShift(y, t, little);
    LoadsSum(x, y * TWO32, s, t, little);
    LoadsSum(x * TWO32, y, s, t, little);
    WordSumCut(b, 2);
  }

  /** 256 is its own inverse. */
  lemma Inverse256(s: int, x: int)
    requires Cong(0x100 * s, x)
    ensures Cong(s, 0x100 * x)
  {
    CongTimes256(0x100 * s, x);
    CongBy(s, 0x1_0000 * s, -s);
    CongTrans(s, 0x1_0000 * s, 0x100 * x);
  }

  /** Swapping scales the residue by 256 on a little-endian machine, and keeps it otherwise. */
  lemma SwapScales(x: U64, little: bool)
    ensures Loads(Swap64(x, little), x, little)
  {
    var t := if little then PutLE64(x) else PutBE64(x);
    Loads64(t, false);
    Loads64(t, little);
    assert Native64(t, little) == x;
    if little {
      var s := WordSum(t);
      CongTrans(x, 0x100 * s, 0x100 * s) by { CongBy(0x100 * s, 0x100 * s, 0); }
      Inverse256(s, x);
      CongTrans(BE64(t), s, 0x100 * x);
    } else {
      CongBy(x, x, 0);
    }
  }

  // ---------- the accumulator ----------

  /** bits.Add64. */
  function Add64(x: U64, y: U64, carry: int): (r: (U64, int))
    requires 0 <= carry <= 1
    ensures 0 <= r.1 <= 1 && x + y + carry == r.0 + TWO64 * r.1
  {
    ((x + y + carry) % TWO64, (x + y + carry) / TWO64)
  }

  /**
   * One deferred-carry addition. The clause `ac + carry < 2^64` is what makes the final
   * `ac += carry` of every run safe: the carry can never meet an all-ones accumulator.
   */
  lemma AddStep(ac: U64, carry: int, s: nat, x: U64, t: nat, little: bool)
    requires 0 <= carry <= 1 && ac + carry < TWO64
    requires Loads(ac + carry, s, little) && Loads(x, t, little)
    ensures var r := Add64(ac, x, carry);
            r.0 + r.1 < TWO64 && Loads(r.0 + r.1, s + t, little)
  {
    var r := Add64(ac, x, carry);
    LoadsSum(ac + carry, x, s, t, little);
    CongBy(r.0 + r.1, ac + carry + x, -r.1 * 0x1_0001_0001_0001);
    CongTrans(r.0 + r.1, ac + carry + x, Scaled(s + t, little));
  }

  lemma WordSumNext(b: seq<Byte>, i: nat)
    requires 8 * i + 8 <= |b|
    ensures WordSum(b[..8 * (i + 1)]) == WordSum(b[..8 * i]) + WordSum(b[8 * i..8 * i + 8])
  {
    Halved(b, 8 * i, 8 * i + 8);
    WordSumConcat(b[..8 * i], b[8 * i..8 * i + 8], 4 * i);
  }

  /** The unrolled run: `n` 64-bit additions with the carry chained, then `ac += carry`. */
  method AddRun(b: seq<Byte>, n: nat, ac0: U64, ghost s: nat, little: bool) returns (ac: U64)
    requires 8 * n <= |b| && Loads(ac0, s, little)
    ensures Loads(ac, s + WordSum(b[..8 * n]), little)
  {
    ac := ac0;
    var carry := 0;
    for i := 0 to n
      invariant 0 <= carry <= 1 && ac + carry < TWO64
      invariant Loads(ac + carry, s + WordSum(b[..8 * i]), little)
    {
      var w := b[8 * i..8 * i + 8];
      Loads64(w, little);
      AddStep(ac, carry, s + WordSum(b[..8 * i]), Native64(w, little), WordSum(w), little);
      WordSumNext(b, i);
      var r := Add64(ac, Native64(w, little), carry);
      ac, carry := r.0, r.1;
    }
    ac := ac + carry;
  }

  /** A single short word: `Add64(ac, x, 0)` and `ac += carry`. */
  method AddWord(x: U64, ac0: U64, ghost s: nat, ghost t: nat, little: bool) returns (ac: U64)
    requires Loads(ac0, s, little) && Loads(x, t, little)
    ensures Loads(ac, s + t, little)
  {
    AddStep(ac0, 0, s, x, t, little);
    var r := Add64(ac0, x, 0);
    ac := r.0 + r.1;
  }

  method Swap(x: U64, little: bool) returns (r: U64)
    ensures Loads(r, x, little)
  {
    SwapScales(x, little);
    r := Swap64(x, little);
  }

  /** The 64-bit result stands for the plain sum, for every length and either byte order. */
  method NoFold(b: seq<Byte>, initial: U64, little: bool) returns (r: U64)
    ensures Stands(r, initial + WordSum(b))
  {
    var ac := Swap(initial, little);
    ac := Accumulate(b, ac, initial, little);
    r := Swap(ac, little);
    Unscale(r, ac, initial + WordSum(b), little);
  }

  /** Whole blocks of 128 bytes. */
  method Blocks(b0: seq<Byte>, ac0: U64, ghost s0: nat, little: bool) returns (ac: U64, b: seq<Byte>, ghost s: nat)
    requires Loads(ac0, s0, little)
    ensures Loads(ac, s, little) && s + WordSum(b) == s0 + WordSum(b0) && |b| < 128
  {
    b := b0;
    ac := ac0;
    s := s0;
    while |b| >= 128
      invariant Loads(ac, s, little) && s + WordSum(b) == s0 + WordSum(b0)
    {
      ac, b, s := Run(b, 16, ac, s, little);
    }
  }

  method Accumulate(b0: seq<Byte>, ac0: U64, ghost s0: nat, little: bool) returns (ac: U64)
    requires Loads(ac0, s0, little)
    ensures Loads(ac, s0 + WordSum(b0), little)
  {
    var b;
    ghost var s: nat;
    ac, b, s := Blocks(b0, ac0, s0, little);
    if |b| >= 64 { ac, b, s := Run(b, 8, ac, s, little); }
    if |b| >= 32 { ac, b, s := Run(b, 4, ac, s, little); }
    if |b| >= 16 { ac, b, s := Run(b, 2, ac, s, little); }
    if |b| >= 8 { ac, b, s := Run(b, 1, ac, s, little); }
    ac := Tail(b, ac, s, little);
  }

  lemma Unscale(r: U64, ac: U64, s: nat, little: bool)
    requires Loads(ac, s, little) && Loads(r, ac, little)
    ensures Stands(r, s)
  {
    if little {
      CongTrans(ac, 0x100 * s, 0x100 * s) by { CongBy(0x100 * s, 0x100 * s, 0); }
      Inverse256(s, ac);
      CongTrans(s, 0x100 * ac, 0x100 * ac) by { CongBy(0x100 * ac, 0x100 * ac, 0); }
      CongTrans(r, 0x100 * ac, s);
    } else {
      CongTrans(r, ac, s);
    }
  }

  method Run(b: seq<Byte>, n: nat, ac0: U64, ghost s: nat, little: bool)
    returns (ac: U64, rest: seq<Byte>, ghost s': nat)
    requires 0 < n && 8 * n <= |b| && Loads(ac0, s, little)
    ensures Loads(ac, s', little) && s' + WordSum(rest) == s + WordSum(b)
    ensures |rest| == |b| - 8 * n
  {
    ac := AddRun(b, n, ac0, s, little);
    rest := b[8 * n..];
    s' := s + WordSum(b[..8 * n]);
    WordSumCut(b, 4 * n);
  }

  /** The last 0 to 7 bytes: a 4-byte word, a 2-byte word, a padded byte. */
  method Tail(b0: seq<Byte>, ac0: U64, ghost s: nat, little: bool) returns (ac: U64)
    requires |b0| < 8 && Loads(ac0, s, little)
    ensures Loads(ac, s + WordSum(b0), little)
  {
    var b := b0;
    ac := ac0;
    ghost var t: nat := s;
    if |b| >= 4 {
      Loads32(b[..4], little);
      ac := AddWord(Native32(b[..4], little), ac, t, WordSum(b[..4]), little);
      WordSumCut(b, 2);
      t := t + WordSum(b[..4]);
      b := b[4..];
    }
    if |b| >= 2 {
      Loads16(b[..2], little);
      ac := AddWord(Native16(b[..2], little), ac, t, WordSum(b[..2]), little);
      WordSumCut(b, 1);
      t := t + WordSum(b[..2]);
      b := b[2..];
    }
    ac := LastByte(b, ac, t, little);
  }

  method LastByte(b: seq<Byte>, ac0: U64, ghost s: nat, little: bool) returns (ac: U64)
    requires |b| < 2 && Loads(ac0, s, little)
    ensures Loads(ac, s + WordSum(b), little)
  {
    ac := ac0;
    if |b| == 1 {
      Loads16([b[0], 0], little);
      PaddedByte(b);
      ac := AddWord(Native16([b[0], 0], little), ac, s, WordSum(b), little);
    }
  }

  lemma PaddedByte(b: seq<Byte>)
    requires |b| == 1
    ensures WordSum([b[0], 0]) == WordSum(b)
  {
    assert [b[0], 0][..2] == [b[0], 0];
  }

  /** Four folds bring every 64-bit value below 2^16. */
  lemma FourFoldsSuffice(n: U64)
    ensures FoldOnce(FoldOnce(FoldOnce(FoldOnce(n)))) == Fold(n)
  {
    var a := FoldOnce(n);
    assert a <= 0x1_0000_0000_0000 + 0xFFFE;
    var b := FoldOnce(a);
    assert b <= 0x1_0000_0000 + 0xFFFE;
    var c := FoldOnce(b);
    assert c <= 0x1_0000 + 0xFFFE;
    var d := FoldOnce(c);
    assert d <= 0xFFFF;
    FoldOnceKeeps(n);
    FoldOnceKeeps(a);
    FoldOnceKeeps(b);
    FoldOnceKeeps(c);
    CongTrans(d, c, b);
    CongTrans(d, b, a);
    CongTrans(d, a, n);
    FoldUnique(d, n);
  }

  /** Three do not. */
  lemma ThreeFoldsDoNotSuffice()
    ensures exists n: U64 :: FoldOnce(FoldOnce(FoldOnce(n))) >= 0x1_0000
  {
    var n: U64 := 0xFFFF_FFFF_FFFE_0001;
    assert FoldOnce(n) == 0xFFFF_FFFF_FFFF;
    assert FoldOnce(0xFFFF_FFFF_FFFF) == 0x1_0000_FFFE;
    assert FoldOnce(0x1_0000_FFFE) == 0x1_FFFE;
  }

  method Compute(b: seq<Byte>, initial: U64, little: bool) returns (r: U16)
    ensures r == Reference(b, initial)
  {
    var ac := NoFold(b, initial, little);
    FoldSame(ac, initial + WordSum(b));
    FourFoldsSuffice(ac);
    FoldIsResidue(ac);
    var f: nat := FoldOnce(ac);
    f := FoldOnce(f);
    f := FoldOnce(f);
    f := FoldOnce(f);
    r := f;
  }

  /** Values that stand for the same sum fold alike, also with more words added. */
  lemma FoldSame(r: nat, s: nat, more: nat := 0)
    requires Cong(r, s) && (r == 0 <==> s == 0)
    ensures Fold(r + more) == Fold(s + more)
  {
    CongSum(r, s, more, more) by { CongBy(more, more, 0); }
    FoldIsResidue(r + more);
    CongTrans(Fold(r + more), r + more, s + more);
    FoldUnique(Fold(r + more), s + more);
  }

  // ---------- the pseudo header ----------

  function PseudoSum(proto: Byte, src: seq<Byte>, dst: seq<Byte>, len: U16): nat {
    WordSum(src) + WordSum(dst) + WordSum([0, proto]) + WordSum(PutBE16(len))
  }

  method Chain(b: seq<Byte>, sum: U64, ghost s: nat, little: bool) returns (r: U64)
    requires Stands(sum, s)
    ensures Stands(r, s + WordSum(b))
  {
    r := NoFold(b, sum, little);
    CongSum(sum, s, WordSum(b), WordSum(b)) by { CongBy(WordSum(b), WordSum(b), 0); }
    CongTrans(r, sum + WordSum(b), s + WordSum(b));
  }

  method PseudoHeaderNoFold(proto: Byte, src: seq<Byte>, dst: seq<Byte>, len: U16, little: bool) returns (r: U64)
    ensures Stands(r, PseudoSum(proto, src, dst, len))
    ensures forall b: seq<Byte> :: Reference(b, r) == Reference(b, PseudoSum(proto, src, dst, len))
  {
    r := NoFold(src, 0, little);
    r := Chain(dst, r, WordSum(src), little);
    r := Chain([0, proto], r, WordSum(src) + WordSum(dst), little);
    r := Chain(PutBE16(len), r, WordSum(src) + WordSum(dst) + WordSum([0, proto]), little);
    forall b: seq<Byte> ensures Reference(b, r) == Reference(b, PseudoSum(proto, src, dst, len)) {
      FoldSame(r, PseudoSum(proto, src, dst, len), WordSum(b));
    }
  }

  // ---------- storing a checksum makes the data valid ----------

  function Patch16(b: seq<Byte>, at: nat, x: U16): (r: seq<Byte>)
    requires at + 2 <= |b|
    ensures |r| == |b| && r[at..at + 2] == PutBE16(x)
    ensures r[..at] == b[..at] && r[at + 2..] == b[at + 2..]
  {
    b[..at] + PutBE16(x) + b[at + 2..]
  }

  lemma PatchSum(b: seq<Byte>, at: nat, x: U16)
    requires at % 2 == 0 && at + 2 <= |b|
    ensures WordSum(Patch16(b, at, x)) == WordSum(b[..at]) + x + WordSum(b[at + 2..])
  {
    var p := PutBE16(x);
    WordSumConcat(b[..at] + p, b[at + 2..], at / 2 + 1);
    WordSumConcat(b[..at], p, at / 2);
    assert WordSum(p) == x by { assert p[..2] == p; }
  }

  /**
   * Writing the complement of the checksum, taken with the field zero, at an even offset
   * makes the data sum to 0xFFFF: what every receiver checks.
   */
  lemma StoredChecksumValidates(b: seq<Byte>, at: nat, initial: nat)
    requires at % 2 == 0 && at + 2 <= |b| && b[at] == b[at + 1] == 0
    ensures Reference(b, initial) < 0x1_0000
    ensures Reference(Patch16(b, at, 0xFFFF - Reference(b, initial)), initial) == 0xFFFF
  {
    FoldIsResidue(initial + WordSum(b));
    var x := 0xFFFF - Reference(b, initial);
    PatchSum(b, at, 0);
    assert Patch16(b, at, 0) == b by {
      assert b[at..at + 2] == PutBE16(0);
      assert b == b[..at] + b[at..at + 2] + b[at + 2..];
    }
    PatchSum(b, at, x);
    var s := initial + WordSum(b);
    var q :| Apart(Fold(s), s, q);
    CongBy(0xFFFF, s + x, q);
    FoldUnique(0xFFFF, s + x);
  }
}
