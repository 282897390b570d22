/**
 * The header of a merged packet as the accounting of tun/offload_linux.go leaves it, in the
 * terms of the standards (Wire.dfy): lengths and checksums are those of the merged packet,
 * and finishing the partial checksum, as the virtio header asks, makes it valid.
 */
module WrittenHeaders {
  import opened Bytes
  import opened Checksum
  import opened Gro
  import opened GroAccounting
  import opened GroItems
  import opened GroState
  import opened GsoSplit
  import opened Headers
  import opened SplitProperties
  import opened Wire

  /** What the receiver of the virtio header does: the sum from csumStart on, complemented, at csumOffset. */
  function Finished(r: seq<Byte>, csumStart: nat, csumOffset: nat): seq<Byte>
    requires csumStart + csumOffset + 2 <= |r|
  {
    Patch16(r, csumStart + csumOffset, 0xFFFF - OnesSum(r[csumStart..], 0))
  }

  /** The packet of the item, before the accounting. */
  predicate Carries(item: Item, pkt: seq<Byte>) {
    && Fits(item, |pkt|) && Whole(pkt) && IsV6(pkt) == item.key.isV6 && HasTcp(pkt) == item.TcpItem?
    && BodyAt(pkt) == HeadersLen(item) && (item.UdpItem? ==> ProtoOf(pkt) == 17)
  }

  lemma PatchedWord(b: seq<Byte>, at: nat, x: U16)
    requires at + 2 <= |b|
    ensures Word(Patch16(b, at, x), at) == x
    ensures forall k :: 0 <= k && k + 2 <= |b| && (k + 2 <= at || at + 2 <= k)
                        ==> Word(Patch16(b, at, x), k) == Word(b, k)
  {
    PatchAt(b, at, x);
  }

  /** Both lengths of an IP header, and its checksum. */
  lemma IpLengthOnWire(item: Item, pkt: seq<Byte>)
    requires Fits(item, |pkt|)
    ensures var p := WithIpLength(item, pkt);
            if item.key.isV6 then Word(p, 4) == |p| - 40
            else Word(p, 2) == |p| && OnesSum(p[..20], 0) == 0xFFFF
  {
    if item.key.isV6 {
      PatchedWord(pkt, 4, |pkt| - item.iphLen);
    } else {
      var p0 := Patch16(pkt, 10, 0);
      var p1 := Patch16(p0, 2, |pkt|);
      PatchAt(pkt, 10, 0);
      PatchAt(p0, 2, |pkt|);
      PatchedWord(p0, 2, |pkt|);
      var c := Complement(p1[..20], 0);
      PatchedWord(p1, 10, c);
      StoredChecksumValidates(p1[..20], 10, 0);
      assert Patch16(p1, 10, c)[..20] == Patch16(p1[..20], 10, c);
      OnesSumIsReference(Patch16(p1, 10, c)[..20], 0);
    }
  }

  lemma PatchedFront(b: seq<Byte>, at: nat, x: U16, n: nat)
    requires at + 2 <= |b| && n <= at
    ensures Patch16(b, at, x)[..n] == b[..n]
  {
    assert Patch16(b, at, x)[..n] == Patch16(b, at, x)[..at][..n];
  }

  lemma LengthsOnWire(item: Item, pkt: seq<Byte>)
    requires Fits(item, |pkt|)
    ensures var r, t := Accounted(item, pkt), item.iphLen;
            && (if item.key.isV6 then Word(r, 4) == |r| - 40 else Word(r, 2) == |r| && OnesSum(r[..20], 0) == 0xFFFF)
            && (item.UdpItem? ==> Word(r, t + 4) == |r| - t)
  {
    IpLengthOnWire(item, pkt);
    var p, q, t := WithIpLength(item, pkt), WithLengths(item, pkt), item.iphLen;
    if item.UdpItem? {
      PatchedWord(p, t + 4, |pkt| - t);
      PatchedFront(p, t + 4, |pkt| - t, 20);
    }
    PatchedWord(q, CsumAt(HdrOf(item)), Partial(item, q));
    PatchedFront(q, CsumAt(HdrOf(item)), Partial(item, q), 20);
  }

  /** A field that holds `p` counts for `p`. */
  lemma FieldCounts(q: seq<Byte>, at: nat, p: U16)
    requires at % 2 == 0 && at + 2 <= |q|
    ensures Reference(Patch16(q, at, p), 0) == Reference(Patch16(q, at, 0), p)
  {
    PatchSum(q, at, p);
    PatchSum(q, at, 0);
  }

  lemma FoldTwice(init: nat, s: nat)
    ensures Fold(init) < 0x1_0000 && Fold(Fold(init) + s) == Fold(init + s)
  {
    FoldIsResidue(init);
    FoldSame(Fold(init), init, s);
  }

  lemma FoldInside(b: seq<Byte>, init: nat)
    ensures Fold(init) < 0x1_0000 && Reference(b, Fold(init)) == Reference(b, init)
  {
    FoldTwice(init, WordSum(b));
  }

  lemma FinishFolds(z: seq<Byte>, at: nat, init: nat) returns (x: U16)
    requires at % 2 == 0 && at + 2 <= |z| && z[at] == z[at + 1] == 0
    ensures x == 0xFFFF - Reference(z, Fold(init)) && Reference(Patch16(z, at, x), init) == 0xFFFF
  {
    StoredChecksumValidates(z, at, Fold(init));
    x := 0xFFFF - Reference(z, Fold(init));
    FoldInside(Patch16(z, at, x), init);
  }

  /** A field that holds the folded sum `init`, finished: the rest with `init` sums to all ones. */
  lemma FinishSums(q: seq<Byte>, at: nat, init: nat)
    requires at % 2 == 0 && at + 2 <= |q|
    ensures Fold(init) < 0x1_0000
    ensures var u := Patch16(q, at, Fold(init));
            Reference(Patch16(u, at, 0xFFFF - OnesSum(u, 0)), init) == 0xFFFF
  {
    FoldIsResidue(init);
    var u, z := Patch16(q, at, Fold(init)), Patch16(q, at, 0);
    PatchAt(q, at, 0);
    OnesSumIsReference(u, 0);
    FieldCounts(q, at, Fold(init));
    var x := FinishFolds(z, at, init);
    SamePatch(q, at, Fold(init), x);
  }

  lemma SamePatch(q: seq<Byte>, at: nat, p: U16, x: U16)
    requires at + 2 <= |q|
    ensures Patch16(Patch16(q, at, p), at, x) == Patch16(Patch16(q, at, 0), at, x)
  {
    PatchTwice(q, at, p, x);
    PatchTwice(q, at, 0, x);
  }

  lemma PatchTwice(b: seq<Byte>, at: nat, x: U16, y: U16)
    requires at + 2 <= |b|
    ensures Patch16(Patch16(b, at, x), at, y) == Patch16(b, at, y)
  {
    var p := Patch16(b, at, x);
    assert p[..at] == b[..at] && p[at + 2..] == b[at + 2..];
  }

  lemma PatchBehind(b: seq<Byte>, t: nat, at: nat, x: U16)
    requires t <= |b| && at + 2 <= |b| - t
    ensures Patch16(b, t + at, x)[t..] == Patch16(b[t..], at, x)
  {
    var r := Patch16(b, t + at, x);
    PatchAt(b, t + at, x);
    PatchAt(b[t..], at, x);
    assert |r[t..]| == |Patch16(b[t..], at, x)|;
    forall k | 0 <= k < |b| - t ensures r[t..][k] == Patch16(b[t..], at, x)[k] { assert r[t..][k] == r[t + k]; }
  }

  lemma PatchedAddresses(b: seq<Byte>, at: nat, x: U16, v6: bool)
    requires IpLen(v6) <= at && at + 2 <= |b|
    ensures Src(Patch16(b, at, x), v6) == Src(b, v6) && Dst(Patch16(b, at, x), v6) == Dst(b, v6)
  {
    PatchAt(b, at, x);
    SameAddresses(Patch16(b, at, x), b, v6);
  }

  /** The field at `t + at` holds the folded sum of the pseudo header; finished, the packet is valid. */
  lemma FieldFinishes(q: seq<Byte>, t: nat, at: nat, proto: Byte, v6: bool) returns (p: U16)
    requires at % 2 == 0 && t + at + 2 <= |q| && t == IpLen(v6)
    ensures p == Fold(Pseudo(q, proto, v6, |q| - t))
    ensures ChecksumValid(Finished(Patch16(q, t + at, p), t, at), t, proto, v6)
  {
    var init := Pseudo(q, proto, v6, |q| - t);
    FinishSums(q[t..], at, init);
    p := Fold(init);
    var r := Patch16(q, t + at, p);
    PatchBehind(q, t, at, p);
    PatchBehind(r, t, at, 0xFFFF - OnesSum(r[t..], 0));
    PatchedAddresses(q, t + at, p, v6);
    PatchedAddresses(r, t + at, 0xFFFF - OnesSum(r[t..], 0), v6);
  }

  /** The partial checksum, finished, is the checksum of the packet. */
  lemma PartialFinishes(item: Item, pkt: seq<Byte>)
    requires Fits(item, |pkt|)
    ensures var r, hdr := Accounted(item, pkt), HdrOf(item);
            TransportValid(Finished(r, hdr.csumStart, hdr.csumOffset), item.key)
  {
    var p := FieldFinishes(WithLengths(item, pkt), item.iphLen, HdrOf(item).csumOffset, Protocol(item.key),
                           item.key.isV6);
  }

  // ---------- on the wire ----------

  /** Two packets with the same bytes where the layout is read off. */
  lemma SameLayout(a: seq<Byte>, b: seq<Byte>)
    requires Whole(b) && |a| >= |b| && BodyAt(b) <= |b|
    requires a[0] == b[0] && (if IsV6(b) then a[6] == b[6] else a[9] == b[9])
    requires HasTcp(b) ==> a[TransportAt(b) + 12] == b[TransportAt(b) + 12]
    ensures Whole(a) && IsV6(a) == IsV6(b) && ProtoOf(a) == ProtoOf(b) && BodyAt(a) == BodyAt(b)
  {
  }

  lemma MergedCarries(item: Item, pkt: seq<Byte>, parts: seq<seq<Byte>>)
    requires Merged(item, pkt, parts) && item.numMerged > 0
    ensures Joinable(parts[0], true) && Carries(item, pkt)
    ensures IsV6(pkt) == IsV6(parts[0]) && HasTcp(pkt) == HasTcp(parts[0]) && BodyAt(pkt) == BodyAt(parts[0])
    ensures item.gsoSize == Size(parts[0])
  {
    MergedFits(item, pkt, parts);
    assert PartOk(item, parts, 0);
    ParsesIff(parts[0], true);
    SameLayout(pkt, parts[0]);
  }

  lemma AccountedLayout(item: Item, pkt: seq<Byte>)
    requires Carries(item, pkt)
    ensures var r := Accounted(item, pkt);
            Whole(r) && IsV6(r) == IsV6(pkt) && ProtoOf(r) == ProtoOf(pkt) && BodyAt(r) == BodyAt(pkt)
  {
    AccountedKeeps(item, pkt);
    SameLayout(Accounted(item, pkt), pkt);
  }

  /**
   * The header of a written packet that stands for several, the first of them `head`: its own
   * lengths and header checksum, and a virtio header that names its kind, where its payload
   * and its checksum are, and the size of the segments; finishing the checksum makes it valid.
   */
  predicate HeaderRight(r: seq<Byte>, hdr: VirtioNetHdr, head: seq<Byte>) {
    && Joinable(head, true) && Whole(r) && |r| <= 0xFFFF
    && IsV6(r) == IsV6(head) && HasTcp(r) == HasTcp(head) && BodyAt(r) == BodyAt(head)
    && (if IsV6(r) then Word(r, 4) == |r| - 40 else Word(r, 2) == |r|) && HeaderSumHolds(r)
    && (!HasTcp(r) ==> Word(r, TransportAt(r) + 4) == |r| - TransportAt(r))
    && hdr.flags == 1 && hdr.gsoType == (if !HasTcp(r) then 5 else if IsV6(r) then 4 else 1)
    && hdr.hdrLen == BodyAt(r) && hdr.gsoSize == Size(head)
    && hdr.csumStart == TransportAt(r) && hdr.csumOffset == (if HasTcp(r) then 16 else 6)
    && hdr.csumStart as int + hdr.csumOffset as int + 2 <= |r|
    && var f := Finished(r, hdr.csumStart, hdr.csumOffset);
       Whole(f) && TransportSumHolds(f)
  }

  lemma FinishedLayout(r: seq<Byte>, at: nat, x: U16)
    requires Whole(r) && BodyAt(r) <= |r|
    requires at == TransportAt(r) + (if HasTcp(r) then 16 else 6) && at + 2 <= |r|
    ensures var f := Patch16(r, at, x);
            Whole(f) && IsV6(f) == IsV6(r) && ProtoOf(f) == ProtoOf(r)
  {
    PatchAt(r, at, x);
    SameLayout(Patch16(r, at, x), r);
  }

  lemma AccountedIsRight(item: Item, pkt: seq<Byte>, parts: seq<seq<Byte>>)
    requires Merged(item, pkt, parts) && item.numMerged > 0
    ensures Fits(item, |pkt|) && HeaderRight(Accounted(item, pkt), HdrOf(item), parts[0])
  {
    MergedCarries(item, pkt, parts);
    AccountedLayout(item, pkt);
    LengthsOnWire(item, pkt);
    PartialFinishes(item, pkt);
    var r, hdr := Accounted(item, pkt), HdrOf(item);
    var f := Finished(r, hdr.csumStart, hdr.csumOffset);
    FinishedLayout(r, hdr.csumStart as nat + hdr.csumOffset as nat, 0xFFFF - OnesSum(r[hdr.csumStart..], 0));
    SumsAgree(f);
  }

  /** Every written buffer that carries a virtio header has such a header. */
  lemma WrittenIsRight(buf: Buf, parts: seq<seq<Byte>>, idx: seq<nat>)
    requires Outcome(buf, parts, idx) && buf.head.Encoded?
    ensures parts != [] && HeaderRight(buf.pkt, buf.head.hdr, parts[0])
  {
    var item, pkt :| MergedOutcome(buf, parts, idx, item, pkt);
    AccountedIsRight(item, pkt, parts);
  }
}
