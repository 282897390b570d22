/**
 * Where IPv4, IPv6, TCP and UDP put their fields (sections 3.1 of RFC 791, 3 of RFC 8200, 3.1
 * of RFC 9293 and the format in RFC 768), byte by byte, and that what Headers.dfy reads
 * from a packet is what lies there.
 */
module Wire {
  import opened Bytes
  import opened Checksum
  import opened Headers
  import opened Options

  // ---------- the layout ----------

  function Word(b: seq<Byte>, at: nat): nat
    requires at + 2 <= |b|
  {
    b[at] as int * 0x100 + b[at + 1] as int
  }

  function Long(b: seq<Byte>, at: nat): nat
    requires at + 4 <= |b|
  {
    Word(b, at) * 0x1_0000 + Word(b, at + 2)
  }

  predicate IsV6(b: seq<Byte>)
    requires b != []
  {
    b[0] / 16 == 6
  }

  /** The protocol, or next header. */
  function ProtoOf(b: seq<Byte>): Byte
    requires |b| >= 20
  {
    if IsV6(b) then b[6] else b[9]
  }

  predicate HasTcp(b: seq<Byte>)
    requires |b| >= 20
  {
    ProtoOf(b) == 6
  }

  /** Where the transport header starts. */
  function TransportAt(b: seq<Byte>): nat
    requires b != []
  {
    if IsV6(b) then 40 else 20
  }

  /** Both headers are there, without IPv4 options. */
  predicate Whole(b: seq<Byte>) {
    && |b| >= 28 && (b[0] == 0x45 || b[0] / 16 == 6)
    && |b| >= TransportAt(b) + if HasTcp(b) then 20 else 8
  }

  /** Where the payload starts: a TCP header says how long it is. */
  function BodyAt(b: seq<Byte>): nat
    requires Whole(b)
  {
    TransportAt(b) + if HasTcp(b) then b[TransportAt(b) + 12] / 16 * 4 else 8
  }

  /** Sequence and acknowledgement number, and the flags. */
  function SeqNum(b: seq<Byte>): nat
    requires Whole(b) && HasTcp(b)
  {
    Long(b, TransportAt(b) + 4)
  }

  predicate Pushed(b: seq<Byte>)
    requires Whole(b) && HasTcp(b)
  {
    b[TransportAt(b) + 13] / 8 % 2 == 1
  }

  // ---------- which packets may merge ----------

  /** The length in the header is that of the packet, which is no fragment. */
  predicate Unfragmented(b: seq<Byte>)
    requires Whole(b)
  {
    |b| <= 0xFFFF && if IsV6(b) then Word(b, 4) == |b| - 40 else Word(b, 2) == |b| && b[6] % 64 == 0 && b[7] == 0
  }

  /** TCP with ACK, and maybe PSH, and no other flag; or UDP; with a payload. */
  predicate Joinable(b: seq<Byte>, udp: bool) {
    && Whole(b) && Unfragmented(b) && BodyAt(b) < |b|
    && if HasTcp(b) then
         BodyAt(b) >= TransportAt(b) + 20 && b[TransportAt(b) + 13] in {0x10, 0x18}
       else
         udp && ProtoOf(b) == 17
  }

  function Size(b: seq<Byte>): nat
    requires Whole(b) && BodyAt(b) <= |b|
  {
    |b| - BodyAt(b)
  }

  /** One flow: version, protocol, addresses and ports, and for TCP the acknowledgement number. */
  predicate SameFlow(a: seq<Byte>, b: seq<Byte>)
    requires Whole(a) && Whole(b)
  {
    var t := TransportAt(a);
    && IsV6(a) == IsV6(b) && HasTcp(a) == HasTcp(b)
    && (if IsV6(a) then a[8..40] == b[8..40] else a[12..20] == b[12..20])
    && a[t..t + 4] == b[t..t + 4]
    && (HasTcp(a) ==> a[t + 8..t + 12] == b[t + 8..t + 12])
  }

  /** Equal traffic class and hop limit, or TOS, TTL and the flags. */
  predicate SameClass(a: seq<Byte>, b: seq<Byte>)
    requires Whole(a) && Whole(b)
  {
    if IsV6(a) then a[0] == b[0] && a[1] / 16 == b[1] / 16 && a[7] == b[7]
    else a[1] == b[1] && a[6] / 32 == b[6] / 32 && a[8] == b[8]
  }

  /** Equal header lengths and TCP options. */
  predicate SameOptions(a: seq<Byte>, b: seq<Byte>)
    requires Joinable(a, true) && Joinable(b, true)
  {
    var t, h := TransportAt(a), BodyAt(a);
    BodyAt(b) == h && (HasTcp(a) ==> a[t + 20..h] == b[t + 20..h])
  }

  // ---------- checksums ----------

  /** The pseudo header (sections 3.1 of RFC 9293 and 8.1 of RFC 8200). */
  function PseudoHeader(b: seq<Byte>): seq<Byte>
    requires Whole(b) && |b| <= 0xFFFF
  {
    if IsV6(b) then b[8..40] + PutBE32(|b| - 40) + [0, 0, 0, b[6]]
    else b[12..20] + [0, b[9]] + PutBE16(|b| - 20)
  }

  /** Pseudo header, transport header and payload sum to all ones. */
  predicate TransportSumHolds(b: seq<Byte>)
    requires Whole(b) && |b| <= 0xFFFF
  {
    OnesSum(PseudoHeader(b) + b[TransportAt(b)..], 0) == 0xFFFF
  }

  predicate HeaderSumHolds(b: seq<Byte>)
    requires Whole(b)
  {
    !IsV6(b) ==> OnesSum(b[..20], 0) == 0xFFFF
  }

  // ---------- the parser reads this layout ----------

  lemma Words(b: seq<Byte>, at: nat)
    requires at + 2 <= |b|
    ensures BE16(b[at..at + 2]) == Word(b, at)
  {
  }

  lemma Longs(b: seq<Byte>, at: nat)
    requires at + 4 <= |b|
    ensures BE32(b[at..at + 4]) == Long(b, at)
  {
    assert b[at..at + 4][..2] == b[at..at + 2] && b[at..at + 4][2..] == b[at + 2..at + 4];
    Words(b, at);
    Words(b, at + 2);
  }

  lemma Fragments(b: seq<Byte>)
    requires |b| >= 20
    ensures Fragmented(b) <==> !(b[6] % 64 == 0 && b[7] == 0)
  {
  }

  lemma TcpFlags(f: Byte)
    ensures f in {0x10, 0x18} <==> f == ACK || f == ACK + PSH
    ensures f in {0x10, 0x18} ==> (f != ACK <==> f / 8 % 2 == 1)
  {
  }

  lemma TcpLength(x: Byte)
    ensures 0 <= x as int / 16 * 4 <= 60 && (x / 16 * 4) as int == x as int / 16 * 4
  {
  }

  lemma TcpParses(b: seq<Byte>, v6: bool)
    requires Whole(b) && HasTcp(b) && IsV6(b) == v6 && |b| >= IpLen(v6) + 20
    ensures var r := ParseTcp(b, v6);
            && (r.Some? <==> Joinable(b, true))
            && (r.Some? ==>
                  && r.value.key == TcpKeyOf(b, v6) && r.value.iphLen == TransportAt(b)
                  && r.value.headersLen == BodyAt(b) && r.value.gsoSize == Size(b)
                  && r.value.seqNum == SeqNum(b) && r.value.psh == Pushed(b))
  {
    Words(b, if v6 then 4 else 2);
    Longs(b, TransportAt(b) + 4);
    Fragments(b);
    TcpFlags(b[TransportAt(b) + 13]);
    TcpLength(b[TransportAt(b) + 12]);
  }

  lemma UdpParses(b: seq<Byte>, v6: bool)
    requires Whole(b) && !HasTcp(b) && IsV6(b) == v6 && (if v6 then b[6] else b[9]) == 17
    ensures var r := ParseUdp(b, v6);
            && (r.Some? <==> Joinable(b, true))
            && (r.Some? ==>
                  && r.value.key == UdpKeyOf(b, v6) && r.value.iphLen == TransportAt(b)
                  && r.value.headersLen == BodyAt(b) && r.value.gsoSize == Size(b)
                  && r.value.seqNum == 0 && !r.value.psh)
  {
    Words(b, if v6 then 4 else 2);
    Fragments(b);
  }

  /** The parser takes exactly the joinable packets, and reads their fields. */
  lemma ParsesIff(b: seq<Byte>, udp: bool)
    ensures Parse(b, udp).Some? <==> Joinable(b, udp)
    ensures Joinable(b, udp) ==>
              var r := Parse(b, udp).value;
              && r.key == (if HasTcp(b) then TcpKeyOf(b, IsV6(b)) else UdpKeyOf(b, IsV6(b)))
              && r.iphLen == TransportAt(b) && r.headersLen == BodyAt(b) && r.gsoSize == Size(b)
              && (HasTcp(b) ==> r.seqNum == SeqNum(b) && r.psh == Pushed(b))
              && (!HasTcp(b) ==> !r.psh)
  {
    if |b| >= 28 && b[0] / 16 == 4 && b[0] % 16 == 5 {
      if b[9] == 6 && |b| >= 40 { TcpParses(b, false); }
      if b[9] == 17 { UdpParses(b, false); }
    } else if |b| >= 28 && b[0] / 16 == 6 {
      if b[6] == 6 && |b| >= 60 { TcpParses(b, true); }
      if b[6] == 17 && |b| >= 48 { UdpParses(b, true); }
    }
  }

  lemma WordsTell(a: seq<Byte>, b: seq<Byte>, at: nat)
    requires at + 2 <= |a| && at + 2 <= |b|
    ensures BE16(a[at..at + 2]) == BE16(b[at..at + 2]) <==> a[at..at + 2] == b[at..at + 2]
  {
    var x, y := a[at..at + 2], b[at..at + 2];
    if BE16(x) == BE16(y) { assert x[0] == y[0] && x[1] == y[1]; }
  }

  lemma LongsTell(a: seq<Byte>, b: seq<Byte>, at: nat)
    requires at + 4 <= |a| && at + 4 <= |b|
    ensures BE32(a[at..at + 4]) == BE32(b[at..at + 4]) <==> a[at..at + 4] == b[at..at + 4]
  {
    var x, y := a[at..at + 4], b[at..at + 4];
    WordsTell(x, y, 0);
    WordsTell(x, y, 2);
    assert x == x[..2] + x[2..] && y == y[..2] + y[2..];
  }

  lemma JoinSlices(a: seq<Byte>, b: seq<Byte>, from: nat, mid: nat, to: nat)
    requires from <= mid <= to <= |a| && to <= |b|
    ensures a[from..mid] == b[from..mid] && a[mid..to] == b[mid..to] <==> a[from..to] == b[from..to]
  {
    assert a[from..to] == a[from..mid] + a[mid..to] && b[from..to] == b[from..mid] + b[mid..to];
    if a[from..to] == b[from..to] {
      assert a[from..to][..mid - from] == a[from..mid] && b[from..to][..mid - from] == b[from..mid];
      assert a[from..to][mid - from..] == a[mid..to] && b[from..to][mid - from..] == b[mid..to];
    }
  }

  /** Equal keys are equal addresses, ports, and acknowledgement numbers. */
  lemma KeysTell(a: seq<Byte>, b: seq<Byte>, v6: bool, tcp: bool)
    requires |a| >= IpLen(v6) + (if tcp then 20 else 8) && |b| >= IpLen(v6) + (if tcp then 20 else 8)
    ensures var t := IpLen(v6);
            var equal := if tcp then TcpKeyOf(a, v6) == TcpKeyOf(b, v6) else UdpKeyOf(a, v6) == UdpKeyOf(b, v6);
            equal <==>
              && (if v6 then a[8..40] == b[8..40] else a[12..20] == b[12..20]) && a[t..t + 4] == b[t..t + 4]
              && (tcp ==> a[t + 8..t + 12] == b[t + 8..t + 12])
  {
    var t := IpLen(v6);
    if v6 { JoinSlices(a, b, 8, 24, 40); } else { JoinSlices(a, b, 12, 16, 20); }
    WordsTell(a, b, t);
    WordsTell(a, b, t + 2);
    JoinSlices(a, b, t, t + 2, t + 4);
    if tcp { LongsTell(a, b, t + 8); }
  }

  lemma KeysIff(a: seq<Byte>, b: seq<Byte>, udp: bool)
    requires Joinable(a, udp) && Joinable(b, udp)
    ensures Parse(a, udp).Some? && Parse(b, udp).Some?
    ensures Parse(a, udp).value.key == Parse(b, udp).value.key <==> SameFlow(a, b)
  {
    ParsesIff(a, udp);
    ParsesIff(b, udp);
    if IsV6(a) == IsV6(b) && HasTcp(a) == HasTcp(b) { KeysTell(a, b, IsV6(a), HasTcp(a)); }
  }

  lemma ClassIff(a: seq<Byte>, b: seq<Byte>)
    requires Whole(a) && Whole(b)
    ensures IpHeadersCanCoalesce(a, b) <==> SameClass(a, b)
  {
  }

  // ---------- and its checksum ----------

  lemma ShortSum(x: Byte, n: nat)
    requires n <= 0xFFFF
    ensures WordSum([0, x]) == x && WordSum(PutBE16(n)) == n && WordSum(PutBE32(n)) == n && WordSum([0, 0, 0, x]) == x
  {
    assert PutBE16(n)[..2] == PutBE16(n) && [0, x][..2] == [0, x];
    assert [0, 0, 0, x][..2] == [0, 0] && [0, 0, 0, x][2..] == [0, x] && [0, 0][..2] == [0, 0];
    var long := PutBE32(n);
    assert long[..2] == [0, 0] && long[2..] == PutBE16(n);
  }

  lemma PseudoHeaderSum4(addresses: seq<Byte>, proto: Byte, n: nat)
    requires |addresses| == 8 && n <= 0xFFFF
    ensures WordSum(addresses + [0, proto] + PutBE16(n)) == PseudoSum(proto, addresses[..4], addresses[4..], n)
  {
    ShortSum(proto, n);
    WordSumConcat(addresses + [0, proto], PutBE16(n), 5);
    WordSumConcat(addresses, [0, proto], 4);
    WordSumCut(addresses, 2);
  }

  lemma PseudoHeaderSum6(addresses: seq<Byte>, proto: Byte, n: nat)
    requires |addresses| == 32 && n <= 0xFFFF
    ensures WordSum(addresses + PutBE32(n) + [0, 0, 0, proto]) == PseudoSum(proto, addresses[..16], addresses[16..], n)
  {
    ShortSum(proto, n);
    WordSumConcat(addresses + PutBE32(n), [0, 0, 0, proto], 18);
    WordSumConcat(addresses, PutBE32(n), 16);
    WordSumCut(addresses, 8);
  }

  lemma CutSlice(b: seq<Byte>, from: nat, mid: nat, to: nat)
    requires from <= mid <= to <= |b|
    ensures b[from..to][..mid - from] == b[from..mid] && b[from..to][mid - from..] == b[mid..to]
  {
  }

  lemma Pseudo4(b: seq<Byte>)
    requires Whole(b) && |b| <= 0xFFFF && !IsV6(b)
    ensures |PseudoHeader(b)| == 12 && WordSum(PseudoHeader(b)) == Pseudo(b, b[9], false, |b| - 20)
  {
    PseudoHeaderSum4(b[12..20], b[9], |b| - 20);
    CutSlice(b, 12, 16, 20);
    assert PseudoHeader(b) == b[12..20] + [0, b[9]] + PutBE16(|b| - 20);
  }

  lemma Pseudo6(b: seq<Byte>)
    requires Whole(b) && |b| <= 0xFFFF && IsV6(b)
    ensures |PseudoHeader(b)| == 40 && WordSum(PseudoHeader(b)) == Pseudo(b, b[6], true, |b| - 40)
  {
    PseudoHeaderSum6(b[8..40], b[6], |b| - 40);
    CutSlice(b, 8, 24, 40);
    assert PseudoHeader(b) == b[8..40] + PutBE32(|b| - 40) + [0, 0, 0, b[6]];
  }

  /** What the code checks is the checksum of the standards. */
  lemma SumsAgree(b: seq<Byte>)
    requires Whole(b) && |b| <= 0xFFFF
    ensures ChecksumValid(b, TransportAt(b), ProtoOf(b), IsV6(b)) <==> TransportSumHolds(b)
  {
    var head, rest := PseudoHeader(b), b[TransportAt(b)..];
    if IsV6(b) { Pseudo6(b); } else { Pseudo4(b); }
    OnesSumIsReference(head + rest, 0);
    WordSumConcat(head, rest, |head| / 2);
  }
}
