/**
 * A packet cut at a fixed payload size: what merging builds and splitting takes apart.
 * `parts` are whole packets with `h` header bytes each.
 */
module Segments {
  import opened Bytes
  import opened Sequences

  /** The payloads of the parts, one after the other. */
  function Payloads(parts: seq<seq<Byte>>, h: nat): seq<Byte>
    requires forall j :: 0 <= j < |parts| ==> |parts[j]| >= h
  {
    if parts == [] then [] else Payloads(parts[..|parts| - 1], h) + parts[|parts| - 1][h..]
  }

  /** Every part but the last carries exactly `g` bytes, the last 1 to `g`. */
  ghost predicate Cut(parts: seq<seq<Byte>>, h: nat, g: nat) {
    && |parts| >= 1 && g >= 1
    && (forall j :: 0 <= j < |parts| ==> h < |parts[j]| <= h + g)
    && (forall j :: 0 <= j < |parts| - 1 ==> |parts[j]| == h + g)
  }

  /** All payloads together, in bytes. */
  function Total(parts: seq<seq<Byte>>, h: nat, g: nat): int
    requires |parts| >= 1
  {
    Times(|parts| - 1, g) + |parts[|parts| - 1]| - h
  }

  function Times(n: nat, g: nat): nat { n * g }

  lemma TimesNext(n: nat, g: nat)
    ensures Times(n + 1, g) == Times(n, g) + g
    ensures Times(0, g) == 0 && Times(1, g) == g
  {
  }

  lemma TimesAtLeast(n: nat, g: nat)
    requires g > 0
    ensures Times(n, g) >= n
  {
  }

  lemma TimesGrows(m: nat, n: nat, g: nat)
    requires m <= n
    ensures Times(m, g) <= Times(n, g) == Times(m, g) + Times(n - m, g)
  {
    assert n * g == m * g + (n - m) * g;
  }

  lemma {:induction false} PayloadsLength(parts: seq<seq<Byte>>, h: nat, g: nat)
    requires Cut(parts, h, g)
    ensures |Payloads(parts, h)| == Total(parts, h, g)
  {
    var n := |parts|;
    var front := parts[..n - 1];
    if n > 1 {
      assert Cut(front, h, g);
      PayloadsLength(front, h, g);
      TimesNext(n - 2, g);
    } else {
      assert Payloads(front, h) == [];
    }
  }

  /** The payload of part j lies at j * g. */
  lemma {:induction false} PayloadAt(parts: seq<seq<Byte>>, h: nat, g: nat, j: nat)
    requires Cut(parts, h, g) && j < |parts|
    ensures var p := Payloads(parts, h);
            var at, end := Times(j, g), Times(j, g) + |parts[j]| - h;
            end <= |p| && p[at..end] == parts[j][h..]
  {
    var n := |parts|;
    var front := parts[..n - 1];
    PayloadsLength(parts, h, g);
    if j < n - 1 {
      assert Cut(front, h, g);
      PayloadAt(front, h, g, j);
    } else if n > 1 {
      assert Cut(front, h, g);
      PayloadsLength(front, h, g);
      TimesNext(n - 2, g);
    }
  }

  lemma PayloadsAppend(parts: seq<seq<Byte>>, h: nat, x: seq<Byte>)
    requires (forall j :: 0 <= j < |parts| ==> |parts[j]| >= h) && |x| >= h
    ensures Payloads(parts + [x], h) == Payloads(parts, h) + x[h..]
  {
    assert (parts + [x])[..|parts|] == parts;
  }

  lemma {:induction false} PayloadsPrepend(x: seq<Byte>, parts: seq<seq<Byte>>, h: nat)
    requires (forall j :: 0 <= j < |parts| ==> |parts[j]| >= h) && |x| >= h
    ensures forall j :: 0 <= j < |[x] + parts| ==> |([x] + parts)[j]| >= h
    ensures Payloads([x] + parts, h) == x[h..] + Payloads(parts, h)
  {
    if parts == [] {
      assert [x] + parts == [] + [x];
      PayloadsAppend([], h, x);
    } else {
      var front, last := parts[..|parts| - 1], parts[|parts| - 1];
      PayloadsPrepend(x, front, h);
      PayloadsAppend([x] + front, h, last);
      Regroup([x], front, [last]);
      assert parts == front + [last];
      Regroup(x[h..], Payloads(front, h), last[h..]);
    }
  }

  /** The last part is full exactly when the payload is a multiple of `g`. */
  lemma FullIffDivides(parts: seq<seq<Byte>>, h: nat, g: nat)
    requires Cut(parts, h, g)
    ensures Total(parts, h, g) % g == 0 <==> |parts[|parts| - 1]| == h + g
    ensures Total(parts, h, g) % g == 0 ==> Total(parts, h, g) == Times(|parts|, g)
  {
    var r := |parts[|parts| - 1]| - h;
    TimesNext(|parts| - 1, g);
    Remainder(|parts| - 1, g, r);
  }

  lemma Remainder(q: nat, g: nat, r: nat)
    requires 1 <= r <= g
    ensures (Times(q, g) + r) % g == 0 <==> r == g
  {
    if r < g {
      Quotient(Times(q, g) + r, g, q, r);
    } else {
      TimesNext(q, g);
      Quotient(Times(q, g) + r, g, q + 1, 0);
    }
  }

  lemma Quotient(x: nat, g: nat, q: nat, r: nat)
    requires r < g && x == Times(q, g) + r
    ensures x % g == r && x / g == q
  {
    var d: int := x / g - q;
    assert x == g * (x / g) + x % g;
    assert g * d == r - x % g;
    Multiple(g, d);
  }

  lemma Multiple(g: int, d: int)
    requires g > 0
    ensures d == 0 || g * d >= g || g * d <= 0 - g
  {
  }

  lemma CutAppend(parts: seq<seq<Byte>>, h: nat, g: nat, x: seq<Byte>)
    requires Cut(parts, h, g) && Total(parts, h, g) % g == 0 && h < |x| <= h + g
    ensures Cut(parts + [x], h, g)
  {
    FullIffDivides(parts, h, g);
  }

  lemma CutPrepend(x: seq<Byte>, parts: seq<seq<Byte>>, h: nat, g: nat)
    requires Cut(parts, h, g) && (|x| == h + g || (|parts| == 1 && |x| > h + g))
    ensures Cut([x] + parts, h, |x| - h)
  {
  }
}
