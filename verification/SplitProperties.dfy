/**
 * What the segments of gsoSplit are worth: their payloads are the input's payload cut in
 * order, their headers are the input's but for the fields each segment must have its own,
 * and their checksums hold.
 */
module SplitProperties {
  import opened Bytes
  import opened Checksum
  import opened GsoSplit
  import opened Headers
  import opened Segments

  /** What Split leaves in its input: the checksum fields are zero. */
  predicate Ready(data: seq<Byte>, hdr: VirtioNetHdr, isV6: bool) {
    && WellFormed(|data|, hdr, isV6)
    && (isV6 || (data[10] == 0 && data[11] == 0))
    && var at := CsumAt(hdr);
       data[at] == 0 && data[at + 1] == 0
  }

  predicate ChecksumByte(k: nat, hdr: VirtioNetHdr, isV6: bool) {
    k == CsumAt(hdr) || k == CsumAt(hdr) + 1 || (!isV6 && (k == 10 || k == 11))
  }

  lemma PatchAt(b: seq<Byte>, at: nat, x: U16)
    requires at + 2 <= |b|
    ensures var r := Patch16(b, at, x);
            r[at] == x / 0x100 && r[at + 1] == x % 0x100
            && forall k :: 0 <= k < |b| && k != at && k != at + 1 ==> r[k] == b[k]
  {
  }

  lemma ZeroedIsReady(input: seq<Byte>, hdr: VirtioNetHdr, isV6: bool)
    requires WellFormed(|input|, hdr, isV6)
    ensures Ready(Zeroed(input, hdr, isV6), hdr, isV6)
    ensures forall k :: 0 <= k < |input| && !ChecksumByte(k, hdr, isV6) ==> Zeroed(input, hdr, isV6)[k] == input[k]
  {
    var data := if isV6 then input else Patch16(input, 10, 0);
    if !isV6 { PatchAt(input, 10, 0); }
    PatchAt(data, CsumAt(hdr), 0);
  }

  lemma SegmentHalves(data: seq<Byte>, hdr: VirtioNetHdr, i: nat, isV6: bool)
    requires WellFormed(|data|, hdr, isV6) && Start(hdr, i) <= |data|
    ensures var s := Segment(data, hdr, i, isV6);
            s[..hdr.csumStart] == Head(data, hdr, i, isV6)
                && s[hdr.csumStart..] == Summed(Unsummed(data, hdr, i, isV6), data, hdr, isV6)
  {
    assert Segment(data, hdr, i, isV6) == Head(data, hdr, i, isV6) + Summed(Unsummed(data, hdr, i, isV6), data, hdr,
        isV6);
  }

  /** The payload of segment i is the input from Start(i) to End(i). */
  lemma SegmentPayload(data: seq<Byte>, hdr: VirtioNetHdr, i: nat, isV6: bool)
    requires WellFormed(|data|, hdr, isV6) && Start(hdr, i) <= |data|
    ensures Segment(data, hdr, i, isV6)[hdr.hdrLen..] == data[Start(hdr, i)..End(|data|, hdr, i)]
  {
    SegmentHalves(data, hdr, i, isV6);
    var s := Segment(data, hdr, i, isV6);
    var n := hdr.hdrLen as int - hdr.csumStart as int;
    assert s[hdr.hdrLen..] == s[hdr.csumStart..][n..];
    var u := Unsummed(data, hdr, i, isV6);
    assert Summed(u, data, hdr, isV6)[n..] == u[n..];
  }

  // ---------- the IP header ----------

  /** The fields a segment's IP header does not share with the input. */
  predicate OwnIpField(k: nat, isV6: bool) {
    if isV6 then k == 4 || k == 5 else 2 <= k <= 5 || k == 10 || k == 11
  }

  lemma IpHeaderFields(ip: seq<Byte>, i: nat, total: U16, isV6: bool)
    requires |ip| >= IpLen(isV6) && total >= |ip|
    ensures var r := IpHeader(ip, i, total, isV6);
            forall k :: 0 <= k < |ip| && !OwnIpField(k, isV6) ==> r[k] == ip[k]
  {
    if isV6 { PatchAt(ip, 4, total - |ip|); } else { Ipv4HeaderFields(ip, i, total); }
  }

  lemma Ipv4HeaderFields(ip: seq<Byte>, i: nat, total: U16)
    requires |ip| >= 20 && total >= |ip|
    ensures var r := IpHeader(ip, i, total, false);
            forall k :: 0 <= k < |ip| && !OwnIpField(k, false) ==> r[k] == ip[k]
    ensures BE16(IpHeader(ip, i, total, false)[2..4]) == total
    ensures BE16(IpHeader(ip, i, total, false)[4..6]) == (BE16(ip[4..6]) as int + i) % 0x1_0000
  {
    var id := (BE16(ip[4..6]) as int + i) % 0x1_0000;
    var h1 := Patch16(ip, 4, id);
    PatchAt(ip, 4, id);
    var h2 := Patch16(h1, 2, total);
    PatchAt(h1, 2, total);
    PatchAt(h2, 10, Complement(h2, 0));
    WordAt(IpHeader(ip, i, total, false), 2, total);
    WordAt(IpHeader(ip, i, total, false), 4, id);
  }

  lemma WordAt(b: seq<Byte>, at: nat, x: U16)
    requires at + 2 <= |b| && b[at] == x / 0x100 && b[at + 1] == x % 0x100
    ensures BE16(b[at..at + 2]) == x
  {
  }

  lemma SegmentIp(data: seq<Byte>, hdr: VirtioNetHdr, i: nat, isV6: bool)
    requires WellFormed(|data|, hdr, isV6) && Start(hdr, i) <= |data|
    ensures var s, n := Segment(data, hdr, i, isV6), hdr.csumStart;
            IpLen(isV6) <= n <= |s| <= 0xFFFF && s[..n] == IpHeader(data[..n], i, |s|, isV6)
  {
    SegmentHalves(data, hdr, i, isV6);
  }

  /** Each IPv4 header has its own length and ID, and sums to 0xFFFF. */
  lemma SegmentIpv4(data: seq<Byte>, hdr: VirtioNetHdr, i: nat)
    requires Ready(data, hdr, false) && Start(hdr, i) <= |data|
    ensures var s := Segment(data, hdr, i, false);
            && BE16(s[2..4]) == |s|
            && BE16(s[4..6]) == (BE16(data[4..6]) as int + i) % 0x1_0000
            && Reference(s[..hdr.csumStart], 0) == 0xFFFF
  {
    SegmentIp(data, hdr, i, false);
    Ipv4Front(Segment(data, hdr, i, false), data, hdr.csumStart, i);
  }

  /** A packet `s` whose IPv4 header is made of the one in front of `d`. */
  lemma Ipv4Front(s: seq<Byte>, d: seq<Byte>, n: nat, i: nat)
    requires 20 <= n <= |s| <= 0xFFFF && n <= |d| && d[10] == 0 && d[11] == 0
    requires s[..n] == IpHeader(d[..n], i, |s|, false)
    ensures BE16(s[2..4]) == |s| && BE16(s[4..6]) == (BE16(d[4..6]) as int + i) % 0x1_0000
    ensures Reference(s[..n], 0) == 0xFFFF
  {
    Ipv4HeaderFields(d[..n], i, |s|);
    HeaderSums(d[..n], i, |s|);
    PrefixWord(s, n, 2);
    PrefixWord(s, n, 4);
    PrefixWord(d, n, 4);
  }

  lemma PrefixWord(b: seq<Byte>, n: nat, at: nat)
    requires at + 2 <= n <= |b|
    ensures b[at..at + 2] == b[..n][at..at + 2]
  {
  }

  lemma HeaderSums(ip: seq<Byte>, i: nat, total: U16)
    requires |ip| >= 20 && total >= |ip| && ip[10] == 0 && ip[11] == 0
    ensures Reference(IpHeader(ip, i, total, false), 0) == 0xFFFF
  {
    var id := (BE16(ip[4..6]) as int + i) % 0x1_0000;
    var h1 := Patch16(ip, 4, id);
    PatchAt(ip, 4, id);
    var h2 := Patch16(h1, 2, total);
    PatchAt(h1, 2, total);
    StoredChecksumValidates(h2, 10, 0);
  }

  lemma SegmentIpv6(data: seq<Byte>, hdr: VirtioNetHdr, i: nat)
    requires Ready(data, hdr, true) && Start(hdr, i) <= |data|
    ensures var s := Segment(data, hdr, i, true); BE16(s[4..6]) == |s| - hdr.csumStart as int
  {
    var s := Segment(data, hdr, i, true);
    SegmentHalves(data, hdr, i, true);
    assert s[4..6] == s[..hdr.csumStart][4..6];
  }

  /** All other bytes of the IP header, the addresses among them, are the input's. */
  lemma SegmentIpShared(data: seq<Byte>, hdr: VirtioNetHdr, i: nat, isV6: bool)
    requires WellFormed(|data|, hdr, isV6) && Start(hdr, i) <= |data|
    ensures forall k :: 0 <= k < hdr.csumStart && !OwnIpField(k, isV6) ==> Segment(data, hdr, i, isV6)[k] == data[k]
  {
    var s := Segment(data, hdr, i, isV6);
    SegmentHalves(data, hdr, i, isV6);
    IpHeaderFields(data[..hdr.csumStart], i, |s|, isV6);
    forall k | 0 <= k < hdr.csumStart && !OwnIpField(k, isV6) ensures s[k] == data[k] {
      assert s[k] == s[..hdr.csumStart][k];
    }
  }

  lemma SameAddresses(a: seq<Byte>, b: seq<Byte>, isV6: bool)
    requires |a| >= IpLen(isV6) && |b| >= IpLen(isV6)
    requires forall k :: AddrAt(isV6) <= k < IpLen(isV6) ==> a[k] == b[k]
    ensures Src(a, isV6) == Src(b, isV6) && Dst(a, isV6) == Dst(b, isV6)
  {
  }

  // ---------- the transport header ----------

  predicate OwnTransportField(k: nat, tcp: bool) {
    4 <= k < 8 || (tcp && (k == FLAGS_AT || k == 16 || k == 17))
  }

  /** Bits 0 (FIN) and 3 (PSH) are off, bits 1, 2 and 4 to 7 as they were. */
  predicate OnlyFinPshCleared(r: Byte, t: Byte) {
    r % 2 == 0 && r / 8 % 2 == 0 && r / 2 % 4 == t / 2 % 4 && r / 16 == t / 16
  }

  /**
   * `r` is the transport header of segment i when the input's is `t`: its own sequence
   * number and flags, or its own length, and `t` elsewhere, checksum aside.
   */
  predicate TransportOf(r: seq<Byte>, t: seq<Byte>, tcp: bool, offset: nat, len: nat, last: bool) {
    && |r| == |t| >= (if tcp then 20 else 8)
    && (forall k :: 0 <= k < |t| && !OwnTransportField(k, tcp) ==> r[k] == t[k])
    && (if tcp then
          BE32(r[4..8]) == (BE32(t[4..8]) as int + offset) % TWO32
          && (if last then r[FLAGS_AT] == t[FLAGS_AT] else OnlyFinPshCleared(r[FLAGS_AT], t[FLAGS_AT]))
        else
          BE16(r[4..6]) == len)
  }

  lemma ClearedBits(flags: Byte)
    ensures OnlyFinPshCleared(ClearFinPsh(flags), flags)
  {
    var high, low := flags as int / 16, flags as int / 2 % 4;
    assert ClearFinPsh(flags) as int == high * 16 + low * 2 && high < 16 && low < 4;
  }

  lemma TransportFields(t: seq<Byte>, hdr: VirtioNetHdr, i: nat, len: U16, last: bool)
    requires |t| >= if IsTcp(hdr) then 20 else 8
    ensures TransportOf(TransportHeader(t, hdr, i, len, last), t, IsTcp(hdr), Times(i, hdr.gsoSize), len, last)
  {
    if IsTcp(hdr) {
      var x := (BE32(t[4..8]) as int + Times(i, hdr.gsoSize)) % TWO32;
      var h := Patch32(t, 4, x);
      assert forall k :: 0 <= k < |t| && !(4 <= k < 8) ==> h[k] == t[k];
      assert TransportHeader(t, hdr, i, len, last)[4..8] == h[4..8];
      ClearedBits(t[FLAGS_AT]);
    } else {
      PatchAt(t, 4, len);
    }
  }

  lemma ChecksumFieldAside(r: seq<Byte>, h: seq<Byte>, t: seq<Byte>, tcp: bool, offset: nat, len: nat, last: bool)
    requires TransportOf(h, t, tcp, offset, len, last) && SameBut(r, h, if tcp then 16 else 6)
    ensures TransportOf(r, t, tcp, offset, len, last)
  {
    assert r[4..6] == h[4..6];
    if tcp { assert r[4..8] == h[4..8]; }
  }

  lemma SegmentTransport(data: seq<Byte>, hdr: VirtioNetHdr, i: nat, isV6: bool)
    requires WellFormed(|data|, hdr, isV6) && Start(hdr, i) <= |data|
    ensures var s := Segment(data, hdr, i, isV6);
            TransportOf(s[hdr.csumStart..hdr.hdrLen], data[hdr.csumStart..hdr.hdrLen], IsTcp(hdr),
                Times(i, hdr.gsoSize),
                        |s| - hdr.csumStart as int, End(|data|, hdr, i) == |data|)
  {
    var t := data[hdr.csumStart..hdr.hdrLen];
    var s := Segment(data, hdr, i, isV6);
    var len, last := |s| - hdr.csumStart as int, End(|data|, hdr, i) == |data|;
    TransportFields(t, hdr, i, len, last);
    TransportOfStored(data, hdr, i, isV6);
    ChecksumFieldAside(s[hdr.csumStart..hdr.hdrLen], TransportHeader(t, hdr, i, len, last), t, IsTcp(hdr),
        Times(i, hdr.gsoSize), len, last);
  }

  /** Storing the checksum touches no other field. */
  lemma TransportOfStored(data: seq<Byte>, hdr: VirtioNetHdr, i: nat, isV6: bool)
    requires WellFormed(|data|, hdr, isV6) && Start(hdr, i) <= |data|
    ensures var t := data[hdr.csumStart..hdr.hdrLen];
            var s := Segment(data, hdr, i, isV6);
            var h := TransportHeader(t, hdr, i, |s| - hdr.csumStart as int, End(|data|, hdr, i) == |data|);
            SameBut(s[hdr.csumStart..hdr.hdrLen], h, hdr.csumOffset)
  {
    var s, u := Segment(data, hdr, i, isV6), Unsummed(data, hdr, i, isV6);
    SegmentHalves(data, hdr, i, isV6);
    assert |u| == |s| - hdr.csumStart as int;
    var h := UnsummedFront(data, hdr, i, isV6);
    StoredFront(s, u, h, hdr.csumStart, hdr.hdrLen, hdr.csumOffset,
                Complement(u, Pseudo(data, Proto(hdr), isV6, |u|)));
  }

  lemma UnsummedFront(data: seq<Byte>, hdr: VirtioNetHdr, i: nat, isV6: bool) returns (h: seq<Byte>)
    requires WellFormed(|data|, hdr, isV6) && Start(hdr, i) <= |data|
    ensures var u := Unsummed(data, hdr, i, isV6);
            && h == TransportHeader(data[hdr.csumStart..hdr.hdrLen], hdr, i, |u|, End(|data|, hdr, i) == |data|)
            && |h| <= |u| && u[..|h|] == h
  {
    var u := Unsummed(data, hdr, i, isV6);
    h := TransportHeader(data[hdr.csumStart..hdr.hdrLen], hdr, i, |u|, End(|data|, hdr, i) == |data|);
  }

  /** Equal but for the word at `at`. */
  predicate SameBut(a: seq<Byte>, b: seq<Byte>, at: nat) {
    |a| == |b| && forall k :: 0 <= k < |b| && k != at && k != at + 1 ==> a[k] == b[k]
  }

  lemma StoredFront(s: seq<Byte>, u: seq<Byte>, h: seq<Byte>, from: nat, to: nat, at: nat, x: U16)
    requires from <= to <= |s| && at + 2 <= |u| && s[from..] == Patch16(u, at, x)
    requires |u| >= |h| == to - from && u[..|h|] == h
    ensures SameBut(s[from..to], h, at)
  {
    PatchAt(u, at, x);
    forall k | 0 <= k < |h| && k != at && k != at + 1 ensures s[from..to][k] == h[k] {
      assert s[from..to][k] == s[from..][k];
    }
  }

  /** The receiver's test passes on every segment. */
  lemma SegmentValid(data: seq<Byte>, hdr: VirtioNetHdr, i: nat, isV6: bool)
    requires Ready(data, hdr, isV6) && Start(hdr, i) <= |data|
    ensures ChecksumValid(Segment(data, hdr, i, isV6), hdr.csumStart, Proto(hdr), isV6)
  {
    var s := Segment(data, hdr, i, isV6);
    var u := Unsummed(data, hdr, i, isV6);
    SegmentHalves(data, hdr, i, isV6);
    SegmentIpShared(data, hdr, i, isV6);
    SameAddresses(s, data, isV6);
    UnsummedIsZero(data, hdr, i, isV6);
    StoredIsValid(s, u, hdr, data, isV6);
  }

  lemma StoredIsValid(s: seq<Byte>, u: seq<Byte>, hdr: VirtioNetHdr, data: seq<Byte>, isV6: bool)
    requires |data| >= IpLen(isV6) && IpLen(isV6) <= |s| && hdr.csumStart <= |s|
    requires Src(s, isV6) == Src(data, isV6) && Dst(s, isV6) == Dst(data, isV6)
    requires hdr.csumOffset in {6, 16} && hdr.csumOffset as int + 2 <= |u| && u[hdr.csumOffset] == 0
        && u[hdr.csumOffset as int + 1] == 0
    requires s[hdr.csumStart..] == Summed(u, data, hdr, isV6)
    ensures ChecksumValid(s, hdr.csumStart, Proto(hdr), isV6)
  {
    StoredChecksumValidates(u, hdr.csumOffset, Pseudo(data, Proto(hdr), isV6, |u|));
  }

  lemma UnsummedIsZero(data: seq<Byte>, hdr: VirtioNetHdr, i: nat, isV6: bool)
    requires Ready(data, hdr, isV6) && Start(hdr, i) <= |data|
    ensures var u := Unsummed(data, hdr, i, isV6);
            hdr.csumOffset as int + 2 <= |u| && u[hdr.csumOffset] == 0 && u[hdr.csumOffset as int + 1] == 0
  {
    var t := data[hdr.csumStart..hdr.hdrLen];
    assert t[hdr.csumOffset] == 0 && t[hdr.csumOffset as int + 1] == 0;
    var len := |Segment(data, hdr, i, isV6)| - hdr.csumStart as int;
    ZeroStays(t, hdr, i, len, End(|data|, hdr, i) == |data|);
  }

  lemma ZeroStays(t: seq<Byte>, hdr: VirtioNetHdr, i: nat, len: U16, last: bool)
    requires |t| >= (if IsTcp(hdr) then 20 else 8) && hdr.csumOffset == (if IsTcp(hdr) then 16 else 6)
    ensures var h := TransportHeader(t, hdr, i, len, last);
            h[hdr.csumOffset] == t[hdr.csumOffset] && h[hdr.csumOffset as int + 1] == t[hdr.csumOffset as int + 1]
  {
    if !IsTcp(hdr) { PatchAt(t, 4, len); }
  }

  // ---------- one segment, all told ----------

  /** Own IP fields: for IPv4 the length, the ID counted up and a header that sums to 0xFFFF. */
  predicate OwnIp(s: seq<Byte>, d: seq<Byte>, iphLen: nat, i: nat, isV6: bool)
    requires IpLen(isV6) <= |d| && IpLen(isV6) <= iphLen <= |s|
  {
    if isV6 then BE16(s[4..6]) == |s| - iphLen
    else BE16(s[2..4]) == |s| && BE16(s[4..6]) == (BE16(d[4..6]) as int + i) % 0x1_0000
         && Reference(s[..iphLen], 0) == 0xFFFF
  }

  predicate SharedIp(s: seq<Byte>, d: seq<Byte>, iphLen: nat, isV6: bool) {
    iphLen <= |s| && iphLen <= |d| && forall k :: 0 <= k < iphLen && !OwnIpField(k, isV6) ==> s[k] == d[k]
  }

  /** Everything a receiver can tell about segment i of the input `d`. */
  ghost predicate Describes(s: seq<Byte>, d: seq<Byte>, hdr: VirtioNetHdr, i: nat, isV6: bool) {
    && WellFormed(|d|, hdr, isV6) && Start(hdr, i) < |d|
    && |s| == hdr.hdrLen as int + End(|d|, hdr, i) - Start(hdr, i)
    && s[hdr.hdrLen..] == d[Start(hdr, i)..End(|d|, hdr, i)]
    && SharedIp(s, d, hdr.csumStart, isV6)
    && OwnIp(s, d, hdr.csumStart, i, isV6)
    && TransportOf(s[hdr.csumStart..hdr.hdrLen], d[hdr.csumStart..hdr.hdrLen], IsTcp(hdr), Times(i, hdr.gsoSize),
                   |s| - hdr.csumStart as int, End(|d|, hdr, i) == |d|)
    && ChecksumValid(s, hdr.csumStart, Proto(hdr), isV6)
  }

  lemma SegmentOwnIp(d: seq<Byte>, hdr: VirtioNetHdr, i: nat, isV6: bool)
    requires Ready(d, hdr, isV6) && Start(hdr, i) <= |d|
    ensures OwnIp(Segment(d, hdr, i, isV6), d, hdr.csumStart, i, isV6)
  {
    if isV6 { SegmentIpv6(d, hdr, i); } else { SegmentIpv4(d, hdr, i); }
  }

  lemma SegmentIsDescribed(d: seq<Byte>, hdr: VirtioNetHdr, i: nat, isV6: bool)
    requires Ready(d, hdr, isV6) && Start(hdr, i) < |d|
    ensures Describes(Segment(d, hdr, i, isV6), d, hdr, i, isV6)
  {
    SegmentPayload(d, hdr, i, isV6);
    SegmentIpShared(d, hdr, i, isV6);
    SegmentOwnIp(d, hdr, i, isV6);
    SegmentTransport(d, hdr, i, isV6);
    SegmentValid(d, hdr, i, isV6);
  }

  // ---------- all segments together ----------

  /** Segment n - 1, and with it every one before, starts inside the input. */
  predicate Reaches(len: nat, hdr: VirtioNetHdr, n: nat) {
    n > 0 ==> Start(hdr, n - 1) < len
  }

  lemma ReachesEarlier(len: nat, hdr: VirtioNetHdr, m: nat, n: nat)
    requires Reaches(len, hdr, n) && m <= n
    ensures Reaches(len, hdr, m)
  {
    if m > 0 { TimesGrows(m - 1, n - 1, hdr.gsoSize); }
  }

  /** The part carries the payload of segment i. */
  predicate Carries(part: seq<Byte>, data: seq<Byte>, hdr: VirtioNetHdr, i: nat) {
    && hdr.hdrLen as int <= |part| && Start(hdr, i) <= End(|data|, hdr, i) <= |data|
    && part[hdr.hdrLen..] == data[Start(hdr, i)..End(|data|, hdr, i)]
  }

  predicate IsSegment(part: seq<Byte>, data: seq<Byte>, hdr: VirtioNetHdr, isV6: bool, i: nat) {
    WellFormed(|data|, hdr, isV6) && Start(hdr, i) < |data| && part == Segment(data, hdr, i, isV6)
  }

  predicate SegmentAt(parts: seq<seq<Byte>>, data: seq<Byte>, hdr: VirtioNetHdr, isV6: bool, i: nat) {
    i < |parts| ==> IsSegment(parts[i], data, hdr, isV6, i)
  }

  lemma SegmentCarries(parts: seq<seq<Byte>>, data: seq<Byte>, hdr: VirtioNetHdr, isV6: bool, i: nat)
    requires SegmentAt(parts, data, hdr, isV6, i) && i < |parts|
    ensures Carries(parts[i], data, hdr, i)
  {
    SegmentPayload(data, hdr, i, isV6);
  }

  lemma Join(data: seq<Byte>, a: nat, b: nat, c: nat)
    requires a <= b <= c <= |data|
    ensures data[a..b] + data[b..c] == data[a..c]
  {
  }

  lemma {:induction false} CarriedConcatenate(parts: seq<seq<Byte>>, data: seq<Byte>, hdr: VirtioNetHdr, n: nat)
    requires hdr.hdrLen as int <= |data| && Reaches(|data|, hdr, n)
    requires |parts| == n && forall i :: 0 <= i < n ==> Carries(parts[i], data, hdr, i)
    ensures forall i :: 0 <= i < n ==> |parts[i]| >= hdr.hdrLen as int
    ensures Payloads(parts, hdr.hdrLen) == data[hdr.hdrLen..if Start(hdr, n) < |data| then Start(hdr, n) else |data|]
  {
    TimesNext(0, hdr.gsoSize);
    if n > 0 {
      ReachesEarlier(|data|, hdr, n - 1, n);
      TimesNext(n - 1, hdr.gsoSize);
      CarriedConcatenate(parts[..n - 1], data, hdr, n - 1);
      assert Carries(parts[n - 1], data, hdr, n - 1);
      Join(data, hdr.hdrLen, Start(hdr, n - 1), End(|data|, hdr, n - 1));
    }
  }

  /** The payloads of all segments, put together, are the payload of the input. */
  lemma PayloadsConcatenate(parts: seq<seq<Byte>>, data: seq<Byte>, hdr: VirtioNetHdr, isV6: bool)
    requires hdr.hdrLen as int <= |data| <= Start(hdr, |parts|) && Reaches(|data|, hdr, |parts|)
    requires forall i: nat :: SegmentAt(parts, data, hdr, isV6, i)
    ensures forall i :: 0 <= i < |parts| ==> |parts[i]| >= hdr.hdrLen as int
    ensures Payloads(parts, hdr.hdrLen) == data[hdr.hdrLen..]
  {
    forall i | 0 <= i < |parts| ensures Carries(parts[i], data, hdr, i) {
      assert SegmentAt(parts, data, hdr, isV6, i);
      SegmentCarries(parts, data, hdr, isV6, i);
    }
    CarriedConcatenate(parts, data, hdr, |parts|);
  }

  /** What Split leaves in output i, up to its size, is segment i. */
  lemma OutputIsSegment(outs: seq<seq<Byte>>, before: seq<seq<Byte>>, sizes: seq<nat>, data: seq<Byte>,
        hdr: VirtioNetHdr, isV6: bool, i: nat)
    requires Holds(outs, before, sizes, data, hdr, isV6, i)
    ensures sizes[i] <= |outs[i]| == |before[i]| && IsSegment(outs[i][..sizes[i]], data, hdr, isV6, i)
    ensures outs[i][sizes[i]..] == before[i][sizes[i]..]
  {
  }
}
