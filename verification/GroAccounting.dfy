/**
 * applyTCPCoalesceAccounting and applyUDPCoalesceAccounting of tun/offload_linux.go: the
 * header of a merged packet, and which of its bytes the accounting changes. That gsoSplit
 * gives back the packets that were merged is proved in SplitUndoesMerge.
 */
module GroAccounting {
  import opened Bytes
  import opened Checksum
  import opened GroItems
  import opened GsoSplit
  import opened Headers
  import opened Segments
  import opened SplitProperties

  /** The item fits the 16-bit fields of its virtio header, and its packet has these headers. */
  predicate Fits(item: Item, len: nat) {
    && item.TcpItem? == item.key.TcpKey? && item.iphLen == IpLen(item.key.isV6)
        && (item.TcpItem? ==> 20 <= item.tcphLen <= 60)
    && HeadersLen(item) + item.gsoSize <= len <= MAX_UINT16
  }

  function HdrOf(item: Item): VirtioNetHdr
    requires HeadersLen(item) <= MAX_UINT16 && item.gsoSize <= MAX_UINT16
  {
    if item.TcpItem? then
      VirtioNetHdr(NEEDS_CSUM, if item.key.isV6 then GSO_TCPV6
          else GSO_TCPV4, HeadersLen(item), item.gsoSize, item.iphLen, 16)
    else
      VirtioNetHdr(NEEDS_CSUM, GSO_UDP_L4, HeadersLen(item), item.gsoSize, item.iphLen, 6)
  }

  function WithIpLength(item: Item, pkt: seq<Byte>): (r: seq<Byte>)
    requires Fits(item, |pkt|)
    ensures |r| == |pkt|
  {
    if item.key.isV6 then Patch16(pkt, 4, |pkt| - item.iphLen) else
    var p := Patch16(Patch16(pkt, 10, 0), 2, |pkt|);
    Patch16(p, 10, Complement(p[..item.iphLen], 0))
  }

  function WithLengths(item: Item, pkt: seq<Byte>): (r: seq<Byte>)
    requires Fits(item, |pkt|)
    ensures |r| == |pkt|
  {
    var p := WithIpLength(item, pkt);
    if item.TcpItem? then p else Patch16(p, item.iphLen + 4, |pkt| - item.iphLen)
  }

  /** The packet with its lengths, IP checksum and partial transport checksum. */
  function Accounted(item: Item, pkt: seq<Byte>): (r: seq<Byte>)
    requires Fits(item, |pkt|)
    ensures |r| == |pkt|
  {
    var p := WithLengths(item, pkt);
    Patch16(p, CsumAt(HdrOf(item)), Partial(item, p))
  }

  /** The folded sum of the pseudo header. */
  function Partial(item: Item, p: seq<Byte>): U16
    requires |p| >= item.iphLen && |p| >= IpLen(item.key.isV6)
  {
    var s := Pseudo(p, Protocol(item.key), item.key.isV6, |p| - item.iphLen);
    FoldIsResidue(s);
    Fold(s)
  }

  method Account(item: Item, pkt: seq<Byte>, little: bool) returns (r: seq<Byte>, hdr: VirtioNetHdr)
    requires Fits(item, |pkt|)
    ensures r == Accounted(item, pkt) && hdr == HdrOf(item)
  {
    hdr := HdrOf(item);
    r := SetIpLength(item, pkt, little);
    if item.UdpItem? {
      r := Patch16(r, item.iphLen + 4, |pkt| - item.iphLen);
    }
    var v6 := item.key.isV6;
    var noFold := PseudoHeaderNoFold(Protocol(item.key), Src(r, v6), Dst(r, v6), (|r| - item.iphLen) % 0x1_0000,
        little);
    assert Reference([], noFold) == Reference([], Pseudo(r, Protocol(item.key), v6, |r| - item.iphLen));
    var sum := Compute([], noFold, little);
    r := Patch16(r, CsumAt(hdr), sum);
  }

  method SetIpLength(item: Item, pkt: seq<Byte>, little: bool) returns (r: seq<Byte>)
    requires Fits(item, |pkt|)
    ensures r == WithIpLength(item, pkt)
  {
    r := pkt;
    if item.key.isV6 {
      r := Patch16(r, 4, |pkt| - item.iphLen);
    } else {
      r := Patch16(r, 10, 0);
      r := Patch16(r, 2, |pkt|);
      var sum := Compute(r[..item.iphLen], 0, little);
      r := Patch16(r, 10, 0xFFFF - sum);
    }
  }

  // ---------- what the accounting changes ----------

  lemma MergedFits(item: Item, pkt: seq<Byte>, parts: seq<seq<Byte>>)
    requires Merged(item, pkt, parts) && item.numMerged > 0
    ensures Fits(item, |pkt|)
  {
    FullLength(item, pkt, parts);
    TimesGrows(1, |parts| - 1, item.gsoSize);
    TimesNext(0, item.gsoSize);
  }

  /** Lengths and checksums; all other bytes stay. */
  predicate Rewritten(item: Item, k: nat) {
    || (if item.key.isV6 then k == 4 || k == 5 else k == 2 || k == 3 || k == 10 || k == 11)
    || (item.UdpItem? && (k == item.iphLen + 4 || k == item.iphLen + 5))
    || k == item.iphLen + (if item.TcpItem? then 16 else 6) || k == item.iphLen + (if item.TcpItem? then 17 else 7)
  }

  lemma AccountedKeeps(item: Item, pkt: seq<Byte>)
    requires Fits(item, |pkt|)
    ensures forall k :: 0 <= k < |pkt| && !Rewritten(item, k) ==> Accounted(item, pkt)[k] == pkt[k]
  {
    IpLengthKeeps(item, pkt);
    var p := WithIpLength(item, pkt);
    if item.UdpItem? { PatchAt(p, item.iphLen + 4, |pkt| - item.iphLen); }
    var q := WithLengths(item, pkt);
    PatchAt(q, CsumAt(HdrOf(item)), Partial(item, q));
  }

  lemma IpLengthKeeps(item: Item, pkt: seq<Byte>)
    requires Fits(item, |pkt|)
    ensures forall k :: 0 <= k < |pkt| && !Rewritten(item, k) ==> WithIpLength(item, pkt)[k] == pkt[k]
  {
    if item.key.isV6 {
      PatchAt(pkt, 4, |pkt| - item.iphLen);
    } else {
      PatchAt(pkt, 10, 0);
      PatchAt(Patch16(pkt, 10, 0), 2, |pkt|);
      var p := Patch16(Patch16(pkt, 10, 0), 2, |pkt|);
      PatchAt(p, 10, Complement(p[..item.iphLen], 0));
    }
  }

  /** What Split works on: the accounted packet with its checksum fields zeroed. */
  function SplitInput(item: Item, pkt: seq<Byte>): (r: seq<Byte>)
    requires Fits(item, |pkt|)
    ensures |r| == |pkt|
  {
    AccountedWellFormed(item, |pkt|);
    Zeroed(Accounted(item, pkt), HdrOf(item), item.key.isV6)
  }

  lemma AccountedWellFormed(item: Item, len: nat)
    requires Fits(item, len)
    ensures WellFormed(len, HdrOf(item), item.key.isV6)
  {
  }

  lemma SplitInputKeeps(item: Item, pkt: seq<Byte>)
    requires Fits(item, |pkt|)
    ensures Ready(SplitInput(item, pkt), HdrOf(item), item.key.isV6)
    ensures forall k :: 0 <= k < |pkt| && !Rewritten(item, k) ==> SplitInput(item, pkt)[k] == pkt[k]
  {
    AccountedWellFormed(item, |pkt|);
    AccountedKeeps(item, pkt);
    var acc := Accounted(item, pkt);
    ZeroedIsReady(acc, HdrOf(item), item.key.isV6);
    ZeroedFields(item, acc);
  }

  lemma ZeroedFields(item: Item, acc: seq<Byte>)
    requires Fits(item, |acc|) && WellFormed(|acc|, HdrOf(item), item.key.isV6)
    ensures forall k :: 0 <= k < |acc| && !Rewritten(item, k) ==> Zeroed(acc, HdrOf(item), item.key.isV6)[k] == acc[k]
  {
    var hdr := HdrOf(item);
    ZeroedIsReady(acc, hdr, item.key.isV6);
    forall k: nat ensures ChecksumByte(k, hdr, item.key.isV6) ==> Rewritten(item, k) {}
  }
}
