/**
 * What tun/offload_linux.go reads from a packet before it merges it: whether the packet is
 * a candidate, its flow, its header and payload lengths, and whether its checksum is valid.
 */
module Headers {
  import opened Bytes
  import opened Checksum
  import opened Options

  const TCP: Byte := 6
  const UDP: Byte := 17
  const UDP_HEADER_LEN: nat := 8
  const ACK: Byte := 0x10
  const PSH: Byte := 0x08
  const FLAGS_AT: nat := 13
  const MAX_UINT16: nat := 0xFFFF

  // ---------- candidates ----------

  datatype Candidate = NotGro | Tcp4 | Tcp6 | Udp4 | Udp6

  function PacketIsGroCandidate(b: seq<Byte>, canUdp: bool): Candidate {
    if |b| < 28 then NotGro
    else if b[0] / 16 == 4 then
      if b[0] % 16 != 5 then NotGro
      else if b[9] == TCP && |b| >= 40 then Tcp4
      else if b[9] == UDP && canUdp then Udp4
      else NotGro
    else if b[0] / 16 == 6 then
      if b[6] == TCP && |b| >= 60 then Tcp6
      else if b[6] == UDP && |b| >= 48 && canUdp then Udp6
      else NotGro
    else NotGro
  }

  // ---------- flows ----------

  function AddrAt(isV6: bool): nat { if isV6 then 8 else 12 }

  function AddrLen(isV6: bool): nat { if isV6 then 16 else 4 }

  function IpLen(isV6: bool): nat { if isV6 then 40 else 20 }

  function Src(b: seq<Byte>, isV6: bool): seq<Byte>
    requires |b| >= IpLen(isV6)
  {
    b[AddrAt(isV6)..AddrAt(isV6) + AddrLen(isV6)]
  }

  function Dst(b: seq<Byte>, isV6: bool): seq<Byte>
    requires |b| >= IpLen(isV6)
  {
    b[AddrAt(isV6) + AddrLen(isV6)..AddrAt(isV6) + 2 * AddrLen(isV6)]
  }

  datatype FlowKey =
    | TcpKey(src: seq<Byte>, dst: seq<Byte>, srcPort: U16, dstPort: U16, rxAck: U32, isV6: bool)
    | UdpKey(src: seq<Byte>, dst: seq<Byte>, srcPort: U16, dstPort: U16, isV6: bool)

  function TcpKeyOf(b: seq<Byte>, isV6: bool): FlowKey
    requires |b| >= IpLen(isV6) + 20
  {
    var h := IpLen(isV6);
    TcpKey(Src(b, isV6), Dst(b, isV6), BE16(b[h..h + 2]), BE16(b[h + 2..h + 4]), BE32(b[h + 8..h + 12]), isV6)
  }

  function UdpKeyOf(b: seq<Byte>, isV6: bool): FlowKey
    requires |b| >= IpLen(isV6) + UDP_HEADER_LEN
  {
    var h := IpLen(isV6);
    UdpKey(Src(b, isV6), Dst(b, isV6), BE16(b[h..h + 2]), BE16(b[h + 2..h + 4]), isV6)
  }

  // ---------- what tcpGRO and udpGRO read before they look into their table ----------

  /** `headersLen` counts both headers; `seqNum` and `psh` stay 0 and false for UDP. */
  datatype Info = Info(key: FlowKey, iphLen: nat, headersLen: nat, gsoSize: nat, seqNum: U32, psh: bool)

  /** The length in the IP header is that of the packet. */
  predicate LengthAgrees(b: seq<Byte>, isV6: bool)
    requires |b| >= IpLen(isV6)
  {
    if isV6 then BE16(b[4..6]) == |b| - 40 else BE16(b[2..4]) == |b|
  }

  /** More-fragments set, or a fragment offset. */
  predicate Fragmented(b: seq<Byte>)
    requires |b| >= 20
  {
    b[6] / 0x20 % 2 != 0 || b[6] as int * 8 % 0x100 != 0 || b[7] != 0
  }

  function ParseTcp(b: seq<Byte>, isV6: bool): Option<Info>
    requires |b| >= IpLen(isV6) + 20 && (!isV6 ==> b[0] % 16 == 5)
  {
    if |b| > MAX_UINT16 then None else
    var iphLen := if isV6 then 40 else b[0] % 16 * 4;
    if !LengthAgrees(b, isV6) then None else
    var tcphLen := b[iphLen + 12] / 16 * 4;
    if tcphLen < 20 || tcphLen > 60 then None else
    if |b| < iphLen + tcphLen then None else
    if !isV6 && Fragmented(b) then None else
    var flags := b[iphLen + FLAGS_AT];
    if flags != ACK && flags != ACK + PSH then None else
    var gsoSize := |b| - tcphLen - iphLen;
    if gsoSize < 1 then None else
    Some(Info(TcpKeyOf(b, isV6), iphLen, iphLen + tcphLen, gsoSize, BE32(b[iphLen + 4..iphLen + 8]), flags != ACK))
  }

  function ParseUdp(b: seq<Byte>, isV6: bool): Option<Info>
    requires |b| >= IpLen(isV6) + UDP_HEADER_LEN && (!isV6 ==> b[0] % 16 == 5)
  {
    if |b| > MAX_UINT16 then None else
    var iphLen := if isV6 then 40 else b[0] % 16 * 4;
    if !LengthAgrees(b, isV6) then None else
    if !isV6 && Fragmented(b) then None else
    var gsoSize := |b| - UDP_HEADER_LEN - iphLen;
    if gsoSize < 1 then None else
    Some(Info(UdpKeyOf(b, isV6), iphLen, iphLen + UDP_HEADER_LEN, gsoSize, 0, false))
  }

  /** Some exactly for the packets that reach a table. */
  function Parse(b: seq<Byte>, canUdp: bool): Option<Info> {
    match PacketIsGroCandidate(b, canUdp)
    case NotGro => None
    case Tcp4 => ParseTcp(b, false)
    case Tcp6 => ParseTcp(b, true)
    case Udp4 => ParseUdp(b, false)
    case Udp6 => ParseUdp(b, true)
  }

  lemma ParseBounds(b: seq<Byte>, canUdp: bool)
    requires Parse(b, canUdp).Some?
    ensures var r := Parse(b, canUdp).value;
            && r.iphLen == IpLen(r.key.isV6) && |b| == r.headersLen + r.gsoSize <= MAX_UINT16 && r.gsoSize >= 1
            && (r.key.TcpKey? ==> r.iphLen + 20 <= r.headersLen <= r.iphLen + 60)
            && (r.key.UdpKey? ==> r.headersLen == r.iphLen + UDP_HEADER_LEN)
  {
  }

  // ---------- may two packets be merged ----------

  function IpHeadersCanCoalesce(a: seq<Byte>, b: seq<Byte>): bool {
    if |a| < 9 || |b| < 9 then false
    else if a[0] / 16 == 6 then
      a[0] == b[0] && a[1] / 16 == b[1] / 16 && a[7] == b[7]
    else
      a[1] == b[1] && a[6] / 32 == b[6] / 32 && a[8] == b[8]
  }

  // ---------- checksums ----------

  function Protocol(key: FlowKey): Byte { if key.TcpKey? then TCP else UDP }

  /** The sum of the packet's pseudo header for `len` transport bytes. */
  function Pseudo(b: seq<Byte>, proto: Byte, isV6: bool, len: nat): nat
    requires |b| >= IpLen(isV6)
  {
    PseudoSum(proto, Src(b, isV6), Dst(b, isV6), len % 0x1_0000)
  }

  predicate ChecksumValid(b: seq<Byte>, iphLen: nat, proto: Byte, isV6: bool)
    requires IpLen(isV6) <= |b| && iphLen <= |b|
  {
    Reference(b[iphLen..], Pseudo(b, proto, isV6, |b| - iphLen)) == 0xFFFF
  }

  method CheckChecksum(b: seq<Byte>, iphLen: nat, proto: Byte, isV6: bool, little: bool) returns (ok: bool)
    requires IpLen(isV6) <= |b| && iphLen <= |b|
    ensures ok == ChecksumValid(b, iphLen, proto, isV6)
  {
    var sum := PseudoHeaderNoFold(proto, Src(b, isV6), Dst(b, isV6), (|b| - iphLen) % 0x1_0000, little);
    assert Reference(b[iphLen..], sum) == Reference(b[iphLen..], Pseudo(b, proto, isV6, |b| - iphLen));
    var r := Compute(b[iphLen..], sum, little);
    ok := 0xFFFF - r == 0;
  }
}
