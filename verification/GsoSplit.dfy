/**
 * gsoSplit of tun/offload_linux.go: cut a large packet into segments, each with its own
 * headers and checksums. `Segment` says what segment i is; the lemmas say what that means.
 */
module GsoSplit {
  import opened Bytes
  import opened Checksum
  import opened Headers
  import opened Segments

  const GSO_TCPV4: nat := 1
  const GSO_TCPV6: nat := 4
  const GSO_UDP_L4: nat := 5
  const NEEDS_CSUM: nat := 1

  datatype VirtioNetHdr = VirtioNetHdr(flags: nat, gsoType: nat, hdrLen: U16, gsoSize: U16, csumStart: U16,
        csumOffset: U16)

  predicate IsTcp(hdr: VirtioNetHdr) {
    hdr.gsoType == GSO_TCPV4 || hdr.gsoType == GSO_TCPV6
  }

  /** A packet of `len` bytes whose header fields lie where the protocol puts them. */
  predicate WellFormed(len: nat, hdr: VirtioNetHdr, isV6: bool) {
    && len <= MAX_UINT16 && IpLen(isV6) <= hdr.csumStart && hdr.hdrLen <= len
    && hdr.csumStart as int + (if IsTcp(hdr) then 20 else 8) <= hdr.hdrLen
    && hdr.csumOffset == (if IsTcp(hdr) then 16 else 6)
  }

  // ---------- what a segment is ----------

  function CsumAt(hdr: VirtioNetHdr): nat {
    hdr.csumStart as int + hdr.csumOffset as int
  }

  /** The checksum fields are summed as zero. */
  function Zeroed(input: seq<Byte>, hdr: VirtioNetHdr, isV6: bool): (data: seq<Byte>)
    requires WellFormed(|input|, hdr, isV6)
    ensures |data| == |input|
  {
    var data := if isV6 then input else Patch16(input, 10, 0);
    Patch16(data, CsumAt(hdr), 0)
  }

  function Start(hdr: VirtioNetHdr, i: nat): nat {
    hdr.hdrLen as int + Times(i, hdr.gsoSize)
  }

  function End(len: nat, hdr: VirtioNetHdr, i: nat): nat {
    if Start(hdr, i) + hdr.gsoSize as int > len then len else Start(hdr, i) + hdr.gsoSize as int
  }

  /** The ones' complement of the checksum. */
  function Complement(b: seq<Byte>, initial: nat): U16 {
    FoldIsResidue(initial + WordSum(b));
    0xFFFF - Reference(b, initial)
  }

  function Patch32(b: seq<Byte>, at: nat, x: U32): (r: seq<Byte>)
    requires at + 4 <= |b|
    ensures |r| == |b| && r[at..at + 4] == PutBE32(x)
    ensures r[..at] == b[..at] && r[at + 4..] == b[at + 4..]
  {
    b[..at] + PutBE32(x) + b[at + 4..]
  }

  /** Bits 0 (FIN) and 3 (PSH) cleared, the others kept. */
  function ClearFinPsh(flags: Byte): Byte {
    flags / 16 * 16 + flags / 2 % 4 * 2
  }

  /** The IP header of segment i, of `total` bytes with its headers. */
  function IpHeader(ip: seq<Byte>, i: nat, total: U16, isV6: bool): (r: seq<Byte>)
    requires |ip| >= IpLen(isV6) && total >= |ip|
    ensures |r| == |ip|
  {
    if isV6 then Patch16(ip, 4, total - |ip|) else
    var h := Patch16(ip, 4, (BE16(ip[4..6]) as int + i) % 0x1_0000);
    var h := Patch16(h, 2, total);
    Patch16(h, 10, Complement(h, 0))
  }

  function TransportHeader(t: seq<Byte>, hdr: VirtioNetHdr, i: nat, len: U16, last: bool): (r: seq<Byte>)
    requires |t| >= if IsTcp(hdr) then 20 else 8
    ensures |r| == |t|
  {
    if IsTcp(hdr) then
      var h := Patch32(t, 4, (BE32(t[4..8]) as int + Times(i, hdr.gsoSize)) % TWO32);
      if last then h else h[FLAGS_AT := ClearFinPsh(h[FLAGS_AT])]
    else
      Patch16(t, 4, len)
  }

  function Proto(hdr: VirtioNetHdr): Byte { if IsTcp(hdr) then TCP else UDP }

  /** Transport header and payload of segment i, before its checksum is stored. */
  function Unsummed(data: seq<Byte>, hdr: VirtioNetHdr, i: nat, isV6: bool): (r: seq<Byte>)
    requires WellFormed(|data|, hdr, isV6) && Start(hdr, i) <= |data|
    ensures |r| == hdr.hdrLen as int - hdr.csumStart as int + End(|data|, hdr, i) - Start(hdr, i)
  {
    var payload := data[Start(hdr, i)..End(|data|, hdr, i)];
    var t := data[hdr.csumStart..hdr.hdrLen];
    TransportHeader(t, hdr, i, |t| + |payload|, End(|data|, hdr, i) == |data|) + payload
  }

  function Head(data: seq<Byte>, hdr: VirtioNetHdr, i: nat, isV6: bool): (r: seq<Byte>)
    requires WellFormed(|data|, hdr, isV6) && Start(hdr, i) <= |data|
    ensures |r| == hdr.csumStart
  {
    IpHeader(data[..hdr.csumStart], i, hdr.hdrLen as int + End(|data|, hdr, i) - Start(hdr, i), isV6)
  }

  /** The transport bytes with their checksum stored. */
  function Summed(u: seq<Byte>, data: seq<Byte>, hdr: VirtioNetHdr, isV6: bool): (r: seq<Byte>)
    requires |data| >= IpLen(isV6) && hdr.csumOffset as int + 2 <= |u|
    ensures |r| == |u|
  {
    Patch16(u, hdr.csumOffset, Complement(u, Pseudo(data, Proto(hdr), isV6, |u|)))
  }

  function Segment(data: seq<Byte>, hdr: VirtioNetHdr, i: nat, isV6: bool): (r: seq<Byte>)
    requires WellFormed(|data|, hdr, isV6) && Start(hdr, i) <= |data|
    ensures |r| == hdr.hdrLen as int + End(|data|, hdr, i) - Start(hdr, i)
  {
    var u := Unsummed(data, hdr, i, isV6);
    Head(data, hdr, i, isV6) + Summed(u, data, hdr, isV6)
  }

  // ---------- the loop ----------

  lemma PatchLeft(a: seq<Byte>, b: seq<Byte>, at: nat, x: U16)
    requires at + 2 <= |a|
    ensures Patch16(a + b, at, x) == Patch16(a, at, x) + b
  {
  }

  lemma PatchRight(a: seq<Byte>, b: seq<Byte>, at: nat, x: U16)
    requires at + 2 <= |b|
    ensures Patch16(a + b, |a| + at, x) == a + Patch16(b, at, x)
  {
  }

  lemma Patch32Left(a: seq<Byte>, b: seq<Byte>, at: nat, x: U32)
    requires at + 4 <= |a|
    ensures Patch32(a + b, at, x) == Patch32(a, at, x) + b
  {
  }

  lemma Patch32Right(a: seq<Byte>, b: seq<Byte>, at: nat, x: U32)
    requires at + 4 <= |b|
    ensures Patch32(a + b, |a| + at, x) == a + Patch32(b, at, x)
  {
  }

  /** `binary.BigEndian.PutUint16(out[at:], x)` within the first part of `out`. */
  method Put16(out0: seq<Byte>, at: nat, x: U16, ghost a: seq<Byte>, ghost b: seq<Byte>) returns (out: seq<Byte>)
    requires out0 == a + b && at + 2 <= |a|
    ensures out == Patch16(a, at, x) + b
  {
    PatchLeft(a, b, at, x);
    out := Patch16(out0, at, x);
  }

  /** `copy(out, ip)` and the IP fields. */
  method WriteIpHeader(out0: seq<Byte>, ip: seq<Byte>, i: nat, total: U16, isV6: bool, little: bool)
    returns (out: seq<Byte>)
    requires IpLen(isV6) <= |ip| <= |out0| && total >= |ip|
    ensures out == IpHeader(ip, i, total, isV6) + out0[|ip|..]
  {
    ghost var rest := out0[|ip|..];
    out := ip + out0[|ip|..];
    if !isV6 {
      out := WriteIpv4Fields(out, ip, i, total, little, rest);
    } else {
      out := Put16(out, 4, total - |ip|, ip, rest);
    }
  }

  method WriteIpv4Fields(out0: seq<Byte>, ip: seq<Byte>, i: nat, total: U16, little: bool, ghost rest: seq<Byte>)
    returns (out: seq<Byte>)
    requires out0 == ip + rest && 20 <= |ip| <= total
    ensures out == IpHeader(ip, i, total, false) + rest
  {
    ghost var h := Patch16(ip, 4, (BE16(ip[4..6]) as int + i) % 0x1_0000);
    out := WriteId(out0, ip, i, rest);
    out := Put16(out, 2, total, h, rest);
    out := WriteIpv4Checksum(out, |ip|, little, Patch16(h, 2, total), rest);
  }

  method WriteId(out0: seq<Byte>, ip: seq<Byte>, i: nat, ghost rest: seq<Byte>) returns (out: seq<Byte>)
    requires out0 == ip + rest && 20 <= |ip|
    ensures out == Patch16(ip, 4, (BE16(ip[4..6]) as int + i) % 0x1_0000) + rest
  {
    out := out0;
    if i > 0 {
      assert out[4..6] == ip[4..6];
      var id := AddWrapping(BE16(out[4..6]), i);
      out := Put16(out, 4, id, ip, rest);
    } else {
      SameWord(ip, 4);
    }
  }

  /** `id += uint16(i)`. */
  method AddWrapping(id: U16, i: nat) returns (r: U16)
    ensures r == (id as int + i) % 0x1_0000
  {
    r := (id as int + i % 0x1_0000) % 0x1_0000;
  }

  method WriteIpv4Checksum(out0: seq<Byte>, iphLen: nat, little: bool, ghost h: seq<Byte>, ghost rest: seq<Byte>)
    returns (out: seq<Byte>)
    requires out0 == h + rest && 20 <= |h| == iphLen
    ensures out == Patch16(h, 10, Complement(h, 0)) + rest
  {
    assert out0[..iphLen] == h;
    var sum := Compute(out0[..iphLen], 0, little);
    out := Put16(out0, 10, 0xFFFF - sum, h, rest);
  }

  lemma SameWord(b: seq<Byte>, at: nat)
    requires at + 2 <= |b|
    ensures Patch16(b, at, BE16(b[at..at + 2])) == b
  {
    var x: nat := BE16(b[at..at + 2]);
    assert PutBE16(x) == b[at..at + 2];
    assert b == b[..at] + b[at..at + 2] + b[at + 2..];
  }

  /** The offset added to the sequence number does not wrap at 2^16. */
  lemma SequenceFits(len: nat, hdr: VirtioNetHdr, i: nat)
    requires len <= MAX_UINT16 && Start(hdr, i) < len
    ensures hdr.gsoSize as int * (i % 0x1_0000) % 0x1_0000 == Times(i, hdr.gsoSize)
  {
    var g: nat := hdr.gsoSize;
    assert Times(i, g) == i * g;
    if g == 0 {
      assert g * (i % 0x1_0000) == 0;
    } else {
      TimesAtLeast(i, g);
      Unreduced(i);
      Unreduced(Times(i, g));
    }
  }

  lemma Unreduced(x: nat)
    requires x < 0x1_0000
    ensures x % 0x1_0000 == x
  {
  }

  method WriteTransportHeader(out0: seq<Byte>, ghost ip: seq<Byte>, ghost rest0: seq<Byte>, t: seq<Byte>,
        hdr: VirtioNetHdr, i: nat, len: U16, last: bool) returns (out: seq<Byte>)
    requires |ip| == hdr.csumStart && |t| <= |rest0| && out0 == ip + rest0
    requires |t| >= if IsTcp(hdr) then 20 else 8
    requires hdr.gsoSize as int * (i % 0x1_0000) % 0x1_0000 == Times(i, hdr.gsoSize)
    ensures out == ip + TransportHeader(t, hdr, i, len, last) + rest0[|t|..]
  {
    var at: nat := hdr.csumStart;
    ghost var rest := rest0[|t|..];
    out := out0[..at] + t + out0[at + |t|..];
    assert out == ip + (t + rest);
    if IsTcp(hdr) {
      out := WriteTcpFields(out, at, t, hdr, i, last, ip, rest);
    } else {
      PatchRight(ip, t + rest, 4, len);
      PatchLeft(t, rest, 4, len);
      out := Patch16(out, at + 4, len);
    }
  }

  /** The sequence number, and no FIN or PSH but on the last segment. */
  method WriteTcpFields(out0: seq<Byte>, at: nat, t: seq<Byte>, hdr: VirtioNetHdr, i: nat, last: bool,
        ghost ip: seq<Byte>, ghost rest: seq<Byte>) returns (out: seq<Byte>)
    requires |ip| == at && out0 == ip + (t + rest) && |t| >= 20 && IsTcp(hdr)
    requires hdr.gsoSize as int * (i % 0x1_0000) % 0x1_0000 == Times(i, hdr.gsoSize)
    ensures out == ip + (TransportHeader(t, hdr, i, 0, last) + rest)
  {
    var first: nat := BE32(t[4..8]);
    var tcpSeq := (first + hdr.gsoSize as int * (i % 0x1_0000) % 0x1_0000) % TWO32;
    out := Put32(out0, at, tcpSeq, ip, t, rest);
    if !last {
      out := ClearFlags(out, at, ip, Patch32(t, 4, tcpSeq), rest);
    }
  }

  method Put32(out0: seq<Byte>, at: nat, x: U32, ghost ip: seq<Byte>, ghost t: seq<Byte>, ghost rest: seq<Byte>)
    returns (out: seq<Byte>)
    requires |ip| == at && out0 == ip + (t + rest) && |t| >= 20
    ensures out == ip + (Patch32(t, 4, x) + rest)
  {
    Patch32Right(ip, t + rest, 4, x);
    Patch32Left(t, rest, 4, x);
    out := Patch32(out0, at + 4, x);
  }

  method ClearFlags(out0: seq<Byte>, at: nat, ghost ip: seq<Byte>, ghost h: seq<Byte>, ghost rest: seq<Byte>)
    returns (out: seq<Byte>)
    requires |ip| == at && out0 == ip + (h + rest) && |h| >= 20
    ensures out == ip + (h[FLAGS_AT := ClearFinPsh(h[FLAGS_AT])] + rest)
  {
    assert out0[at + FLAGS_AT] == h[FLAGS_AT];
    out := out0[at + FLAGS_AT := ClearFinPsh(out0[at + FLAGS_AT])];
  }

  method WriteSegment(out0: seq<Byte>, data: seq<Byte>, hdr: VirtioNetHdr, i: nat, isV6: bool, little: bool)
    returns (out: seq<Byte>)
    requires WellFormed(|data|, hdr, isV6) && Start(hdr, i) < |data|
    requires |out0| >= hdr.hdrLen as int + End(|data|, hdr, i) - Start(hdr, i)
    ensures var s := Segment(data, hdr, i, isV6);
            out == s + out0[|s|..]
  {
    var total := hdr.hdrLen as int + End(|data|, hdr, i) - Start(hdr, i);
    out := WriteHeaders(out0, data, hdr, i, isV6, little);
    out := StoreChecksum(out, total, Head(data, hdr, i, isV6), Unsummed(data, hdr, i, isV6), out0[total..], data, hdr,
        isV6, little);
  }

  /** Everything but the transport checksum. */
  method WriteHeaders(out0: seq<Byte>, data: seq<Byte>, hdr: VirtioNetHdr, i: nat, isV6: bool, little: bool)
    returns (out: seq<Byte>)
    requires WellFormed(|data|, hdr, isV6) && Start(hdr, i) < |data|
    requires |out0| >= hdr.hdrLen as int + End(|data|, hdr, i) - Start(hdr, i)
    ensures var total := hdr.hdrLen as int + End(|data|, hdr, i) - Start(hdr, i);
            out == Head(data, hdr, i, isV6) + (Unsummed(data, hdr, i, isV6) + out0[total..])
  {
    var total := hdr.hdrLen as int + End(|data|, hdr, i) - Start(hdr, i);
    out := WriteIpHeader(out0, data[..hdr.csumStart], i, total, isV6, little);
    out := WriteBody(out, data, hdr, i, isV6, Head(data, hdr, i, isV6), out0);
  }

  method WriteBody(out0: seq<Byte>, data: seq<Byte>, hdr: VirtioNetHdr, i: nat, isV6: bool, ghost head: seq<Byte>,
        ghost old0: seq<Byte>) returns (out: seq<Byte>)
    requires WellFormed(|data|, hdr, isV6) && Start(hdr, i) < |data|
    requires hdr.hdrLen as int + End(|data|, hdr, i) - Start(hdr, i) <= |old0|
    requires |head| == hdr.csumStart && out0 == head + old0[hdr.csumStart..]
    ensures out == head + (Unsummed(data, hdr, i, isV6) + old0[hdr.hdrLen as int + End(|data|, hdr, i) - Start(hdr,
        i)..])
  {
    var payload := data[Start(hdr, i)..End(|data|, hdr, i)];
    var t := data[hdr.csumStart..hdr.hdrLen];
    var len, last := |t| + |payload|, End(|data|, hdr, i) == |data|;
    SequenceFits(|data|, hdr, i);
    out := WriteTransportHeader(out0, head, old0[hdr.csumStart..], t, hdr, i, len, last);
    out := WritePayload(out, hdr.hdrLen, payload, head, TransportHeader(t, hdr, i, len, last), old0);
  }

  method WritePayload(out0: seq<Byte>, at: nat, payload: seq<Byte>, ghost head: seq<Byte>, ghost t: seq<Byte>,
        ghost old0: seq<Byte>) returns (out: seq<Byte>)
    requires at == |head| + |t| && at + |payload| <= |old0| && out0 == head + t + old0[|head|..][|t|..]
    ensures out == head + ((t + payload) + old0[at + |payload|..])
  {
    PutPayload(head, t, payload, old0, at + |payload|);
    out := out0[..at] + payload + out0[at + |payload|..];
  }

  lemma PutPayload(head: seq<Byte>, t: seq<Byte>, payload: seq<Byte>, out0: seq<Byte>, total: nat)
    requires |head| + |t| + |payload| == total <= |out0|
    ensures var out := head + t + out0[|head|..][|t|..];
            out[..|head| + |t|] + payload + out[total..] == head + ((t + payload) + out0[total..])
  {
  }

  /** Checksum the transport bytes in place. */
  method StoreChecksum(out0: seq<Byte>, total: nat, ghost head: seq<Byte>, ghost u: seq<Byte>, ghost rest: seq<Byte>,
        data: seq<Byte>, hdr: VirtioNetHdr, isV6: bool, little: bool) returns (out: seq<Byte>)
    requires |data| >= IpLen(isV6) && |head| == hdr.csumStart && total == |head| + |u| && out0 == head + (u + rest)
        && hdr.csumOffset as int + 2 <= |u|
    ensures out == head + Summed(u, data, hdr, isV6) + rest
  {
    Middle(head, u, rest);
    var sum := TransportChecksum(out0[hdr.csumStart..total], data, hdr, isV6, little);
    PatchMiddle(head, u, rest, hdr.csumOffset, sum);
    out := Patch16(out0, CsumAt(hdr), sum);
  }

  lemma Middle(head: seq<Byte>, u: seq<Byte>, rest: seq<Byte>)
    ensures (head + (u + rest))[|head|..|head| + |u|] == u
  {
  }

  lemma PatchMiddle(head: seq<Byte>, u: seq<Byte>, rest: seq<Byte>, at: nat, x: U16)
    requires at + 2 <= |u|
    ensures Patch16(head + (u + rest), |head| + at, x) == head + Patch16(u, at, x) + rest
  {
    PatchRight(head, u + rest, at, x);
    PatchLeft(u, rest, at, x);
  }

  method TransportChecksum(u: seq<Byte>, data: seq<Byte>, hdr: VirtioNetHdr, isV6: bool, little: bool)
    returns (sum: U16)
    requires |data| >= IpLen(isV6)
    ensures sum == Complement(u, Pseudo(data, Proto(hdr), isV6, |u|))
  {
    var noFold := PseudoHeaderNoFold(Proto(hdr), Src(data, isV6), Dst(data, isV6), |u| % 0x1_0000, little);
    assert Reference(u, noFold) == Reference(u, Pseudo(data, Proto(hdr), isV6, |u|));
    var r := Compute(u, noFold, little);
    sum := 0xFFFF - r;
  }

  /** Output i holds segment i, and is untouched after it. */
  ghost predicate Holds(outs: seq<seq<Byte>>, before: seq<seq<Byte>>, sizes: seq<nat>, data: seq<Byte>,
        hdr: VirtioNetHdr, isV6: bool, i: nat) {
    && WellFormed(|data|, hdr, isV6) && Start(hdr, i) < |data| && i < |outs| == |before| && i < |sizes|
    && var s := Segment(data, hdr, i, isV6);
       |s| <= |before[i]| && sizes[i] == |s| && outs[i] == s + before[i][|s|..]
  }

  ghost predicate AllHold(outs: seq<seq<Byte>>, before: seq<seq<Byte>>, sizes: seq<nat>, data: seq<Byte>,
        hdr: VirtioNetHdr, isV6: bool, n: nat) {
    forall i :: 0 <= i < n ==> Holds(outs, before, sizes, data, hdr, isV6, i)
  }

  lemma HoldsStays(outs: seq<seq<Byte>>, outs': seq<seq<Byte>>, before: seq<seq<Byte>>, sizes: seq<nat>,
        sizes': seq<nat>, data: seq<Byte>, hdr: VirtioNetHdr, isV6: bool, i: nat, n: nat)
    requires i < n < |outs| == |outs'| && n < |sizes| == |sizes'| && outs'[i] == outs[i] && sizes'[i] == sizes[i]
    requires Holds(outs, before, sizes, data, hdr, isV6, i)
    ensures Holds(outs', before, sizes', data, hdr, isV6, i)
  {
  }

  /**
   * Succeeds exactly when the outputs suffice (with gsoSize 0: when there is no payload).
   * On failure the count is one less than the number of outputs, all of which are written.
   */
  method Split(input: array<Byte>, hdr: VirtioNetHdr, outs: array<seq<Byte>>, sizes: array<nat>, isV6: bool,
        little: bool) returns (n: int, ok: bool)
    requires WellFormed(input.Length, hdr, isV6) && outs.Length <= sizes.Length
    requires forall i :: 0 <= i < outs.Length ==> |outs[i]| >= hdr.hdrLen as int + hdr.gsoSize as int
                                                  || |outs[i]| >= input.Length
    modifies input, outs, sizes
    ensures input[..] == Zeroed(old(input[..]), hdr, isV6)
    ensures ok <==> input.Length <= Start(hdr, outs.Length)
    ensures ok ==> 0 <= n <= outs.Length && input.Length <= Start(hdr, n)
                   && (n > 0 ==> Start(hdr, n - 1) < input.Length)
    ensures !ok ==> n == outs.Length - 1
    ensures AllHold(outs[..], old(outs[..]), sizes[..], input[..], hdr, isV6, if ok then n else outs.Length)
    ensures forall i :: (if ok then n else outs.Length) <= i < outs.Length ==> outs[i] == old(outs[i])
  {
    ghost var before := outs[..];
    ClearChecksums(input, hdr, isV6);
    ghost var data := input[..];
    ghost var now, nowSizes := outs[..], sizes[..];
    var i, at := 0, hdr.hdrLen as nat;
    while at < input.Length
      invariant 0 <= i <= outs.Length && at == Start(hdr, i) && input[..] == data
      invariant i > 0 ==> Start(hdr, i - 1) < input.Length
      invariant outs[..] == now && sizes[..] == nowSizes && |now| == |before|
      invariant AllHold(now, before, nowSizes, data, hdr, isV6, i)
      invariant forall j :: i <= j < outs.Length ==> outs[j] == before[j]
      decreases outs.Length - i
    {
      if i == outs.Length {
        return i - 1, false;
      }
      TimesNext(i, hdr.gsoSize);
      var end := End(input.Length, hdr, i);
      var out: seq<Byte>;
      out, now, nowSizes := NextSegment(outs[i], input[..], hdr, i, isV6, little, now, before, nowSizes);
      Store(outs, sizes, i, out, hdr.hdrLen as int + end - at);
      at := at + hdr.gsoSize as int;
      i := i + 1;
    }
    TimesGrows(i, outs.Length, hdr.gsoSize);
    return i, true;
  }

  method ClearChecksums(input: array<Byte>, hdr: VirtioNetHdr, isV6: bool)
    requires WellFormed(input.Length, hdr, isV6)
    modifies input
    ensures input[..] == Zeroed(old(input[..]), hdr, isV6)
  {
    ghost var data := input[..];
    if !isV6 {
      ClearWord(input, 10);
    }
    ClearWord(input, CsumAt(hdr));
  }

  method ClearWord(input: array<Byte>, at: nat)
    requires at + 2 <= input.Length
    modifies input
    ensures input[..] == Patch16(old(input[..]), at, 0)
  {
    input[at], input[at + 1] := 0, 0;
  }

  lemma SegmentFits(len: nat, hdr: VirtioNetHdr, i: nat, room: nat)
    requires hdr.hdrLen as int <= Start(hdr, i) < len && (room >= hdr.hdrLen as int + hdr.gsoSize as int || room >= len)
    ensures hdr.hdrLen as int + End(len, hdr, i) - Start(hdr, i) <= room
  {
  }

  method NextSegment(out0: seq<Byte>, data: seq<Byte>, hdr: VirtioNetHdr, i: nat, isV6: bool, little: bool,
        ghost outs: seq<seq<Byte>>, ghost before: seq<seq<Byte>>, ghost sizes: seq<nat>)
    returns (out: seq<Byte>, ghost outs': seq<seq<Byte>>, ghost sizes': seq<nat>)
    requires WellFormed(|data|, hdr, isV6) && Start(hdr, i) < |data| && i < |outs| == |before| && |outs| <= |sizes|
    requires out0 == before[i] && (|out0| >= hdr.hdrLen as int + hdr.gsoSize as int || |out0| >= |data|)
    requires AllHold(outs, before, sizes, data, hdr, isV6, i)
    ensures outs' == outs[i := out] && sizes' == sizes[i := hdr.hdrLen as int + End(|data|, hdr, i) - Start(hdr, i)]
    ensures AllHold(outs', before, sizes', data, hdr, isV6, i + 1)
  {
    SegmentFits(|data|, hdr, i, |out0|);
    out := WriteSegment(out0, data, hdr, i, isV6, little);
    ghost var s := Segment(data, hdr, i, isV6);
    assert out == s + before[i][|s|..];
    outs', sizes' := outs[i := out], sizes[i := |s|];
    AllHoldNext(outs, outs', before, sizes, sizes', data, hdr, isV6, i);
  }

  method Store(outs: array<seq<Byte>>, sizes: array<nat>, i: nat, out: seq<Byte>, size: nat)
    requires i < outs.Length && i < sizes.Length
    modifies outs, sizes
    ensures outs[..] == old(outs[..])[i := out] && sizes[..] == old(sizes[..])[i := size]
  {
    sizes[i] := size;
    outs[i] := out;
  }

  lemma AllHoldNext(outs: seq<seq<Byte>>, outs': seq<seq<Byte>>, before: seq<seq<Byte>>, sizes: seq<nat>,
        sizes': seq<nat>, data: seq<Byte>, hdr: VirtioNetHdr, isV6: bool, n: nat)
    requires n < |outs| == |before| && n < |sizes| && WellFormed(|data|, hdr, isV6) && Start(hdr, n) < |data|
    requires var s := Segment(data, hdr, n, isV6);
             |s| <= |before[n]| && outs' == outs[n := s + before[n][|s|..]] && sizes' == sizes[n := |s|]
    requires AllHold(outs, before, sizes, data, hdr, isV6, n)
    ensures AllHold(outs', before, sizes', data, hdr, isV6, n + 1)
  {
    assert Holds(outs', before, sizes', data, hdr, isV6, n);
    forall j | 0 <= j < n ensures Holds(outs', before, sizes', data, hdr, isV6, j) {
      HoldsStays(outs, outs', before, sizes, sizes', data, hdr, isV6, j, n);
    }
  }
}
