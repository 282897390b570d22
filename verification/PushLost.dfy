/**
 * Two TCP packets of one flow that lose a PSH flag in tcpGRO of tun/offload_linux.go: the
 * later one in the stream arrives first and pushes, the earlier one is then prepended.
 */
module PushLost {
  import opened Bytes
  import opened Checksum
  import opened GroAccounting
  import opened GroItems
  import opened GsoSplit
  import opened Headers
  import opened Options
  import opened SplitUndoesMerge

  const IP_HEADER: seq<Byte> := [0x45, 0, 0, 41, 0, 0, 0, 0, 64, 6, 0, 0, 10, 0, 0, 1, 10, 0, 0, 2]

  /** One byte of payload from 10.0.0.1 port 1 to 10.0.0.2 port 2, without its checksum. */
  function Transport(seqNum: Byte, flags: Byte): (t: seq<Byte>)
    ensures |t| == 21
  {
    [0, 1, 0, 2, 0, 0, 0, seqNum, 0, 0, 0, 0, 0x50, flags, 0, 0, 0, 0, 0, 0, 7]
  }

  function Initial(): nat {
    PseudoSum(TCP, [10, 0, 0, 1], [10, 0, 0, 2], 21)
  }

  function Packet(seqNum: Byte, flags: Byte): (p: seq<Byte>)
    ensures |p| == 41
  {
    var t := Transport(seqNum, flags);
    FoldIsResidue(Initial() + WordSum(t));
    IP_HEADER + Patch16(t, 16, 0xFFFF - Reference(t, Initial()))
  }

  /** Everything but the checksum is as written. */
  lemma PacketBytes(seqNum: Byte, flags: Byte)
    ensures var p := Packet(seqNum, flags);
            && (forall k :: 0 <= k < 20 ==> p[k] == IP_HEADER[k])
            && (forall k :: 0 <= k < 21 && k != 16 && k != 17 ==> p[20 + k] == Transport(seqNum, flags)[k])
  {
    var t := Transport(seqNum, flags);
    FoldIsResidue(Initial() + WordSum(t));
    var q := Patch16(t, 16, 0xFFFF - Reference(t, Initial()));
    forall k | 0 <= k < 21 && k != 16 && k != 17 ensures q[k] == t[k] {
      if k < 16 { assert q[k] == q[..16][k]; } else { assert q[k] == q[18..][k - 18]; }
    }
  }

  function Key(): FlowKey { TcpKey([10, 0, 0, 1], [10, 0, 0, 2], 1, 2, 0, false) }

  /** What the parser reads from it. */
  function Facts(seqNum: Byte, flags: Byte): Info { Info(Key(), 20, 40, 1, seqNum, flags != ACK) }

  predicate IpFields(p: seq<Byte>) {
    && |p| == 41 && p[0] == 0x45 && p[1] == 0 && p[6] == 0 && p[7] == 0 && p[8] == 64 && p[9] == 6
    && p[2..4] == [0, 41] && p[12..16] == [10, 0, 0, 1] && p[16..20] == [10, 0, 0, 2]
  }

  predicate TcpFields(p: seq<Byte>, seqNum: Byte, flags: Byte) {
    && |p| == 41 && p[20..22] == [0, 1] && p[22..24] == [0, 2] && p[24..28] == [0, 0, 0, seqNum]
    && p[28..32] == [0, 0, 0, 0] && p[32] == 0x50 && p[33] == flags
  }

  lemma PacketIp(seqNum: Byte, flags: Byte)
    ensures IpFields(Packet(seqNum, flags))
  {
    PacketBytes(seqNum, flags);
  }

  lemma PacketTcp(seqNum: Byte, flags: Byte)
    ensures TcpFields(Packet(seqNum, flags), seqNum, flags)
  {
    var p, t := Packet(seqNum, flags), Transport(seqNum, flags);
    PacketBytes(seqNum, flags);
    assert p[20 + 0] == t[0] && p[20 + 1] == t[1] && p[20 + 2] == t[2] && p[20 + 3] == t[3];
    assert p[20 + 4] == t[4] && p[20 + 5] == t[5] && p[20 + 6] == t[6] && p[20 + 7] == t[7];
    assert p[20 + 8] == t[8] && p[20 + 9] == t[9] && p[20 + 10] == t[10] && p[20 + 11] == t[11];
    assert p[20 + 12] == t[12] && p[20 + 13] == t[13];
  }

  lemma FieldsParse(p: seq<Byte>, seqNum: Byte, flags: Byte)
    requires IpFields(p) && TcpFields(p, seqNum, flags) && flags in {ACK, ACK + PSH}
    ensures Parse(p, true) == Some(Facts(seqNum, flags))
  {
    SmallWord(0);
    SmallWord(seqNum);
  }

  lemma SmallWord(x: Byte)
    ensures BE32([0, 0, 0, x]) == x
  {
    assert [0, 0, 0, x][..2] == [0, 0] && [0, 0, 0, x][2..] == [0, x];
  }

  /** Whatever the transport bytes, with their checksum stored they are valid. */
  lemma StoredIsValid(t: seq<Byte>)
    requires |t| == 21 && t[16] == 0 && t[17] == 0
    ensures Reference(t, Initial()) < 0x1_0000
    ensures TransportValid(IP_HEADER + Patch16(t, 16, 0xFFFF - Reference(t, Initial())), Key())
  {
    StoredChecksumValidates(t, 16, Initial());
    Framed(Patch16(t, 16, 0xFFFF - Reference(t, Initial())));
  }

  lemma Framed(u: seq<Byte>)
    requires |u| == 21
    ensures var p := IP_HEADER + u;
            p[20..] == u && Src(p, false) == [10, 0, 0, 1] && Dst(p, false) == [10, 0, 0, 2]
  {
    var p := IP_HEADER + u;
    assert forall k :: 12 <= k < 20 ==> p[k] == IP_HEADER[k];
    assert p[12] == 10 && p[13] == 0 && p[14] == 0 && p[15] == 1;
    assert p[16] == 10 && p[17] == 0 && p[18] == 0 && p[19] == 2;
  }

  lemma PacketValid(seqNum: Byte, flags: Byte)
    ensures TransportValid(Packet(seqNum, flags), Key())
  {
    StoredIsValid(Transport(seqNum, flags));
  }

  /** The earlier packet is prepended although the later one pushes. */
  lemma PrependsToPush(x: seq<Byte>, y: seq<Byte>)
    requires IpFields(x) && IpFields(y)
    ensures TcpPacketsCanCoalesce(x, Facts(0, ACK), NewItem(Facts(1, ACK + PSH), 0, false), y) == Prepend
  {
  }

  /** The two are merged, and cut again the later packet comes back without its PSH. */
  lemma PushIsLost() returns (x: seq<Byte>, y: seq<Byte>, item: Item, pkt: seq<Byte>)
    ensures Parse(x, true) == Some(Facts(0, ACK)) && Parse(y, true) == Some(Facts(1, ACK + PSH))
    ensures IpFields(x) && IpFields(y) && TransportValid(x, Key()) && TransportValid(y, Key())
    ensures TcpPacketsCanCoalesce(x, Facts(0, ACK), NewItem(Facts(1, ACK + PSH), 0, false), y) == Prepend
    ensures item == PrependItem(NewItem(Facts(1, ACK + PSH), 0, false), Facts(0, ACK))
    ensures pkt == PrependBytes(NewItem(Facts(1, ACK + PSH), 0, false), y, x) && Kept(item, pkt, [x, y], [1, 0])
    ensures Fits(item, |pkt|) && WellFormed(|pkt|, HdrOf(item), false) && Start(HdrOf(item), 1) < |pkt|
    ensures Pushes(y) && !Pushes(Segment(SplitInput(item, pkt), HdrOf(item), 1, false))
  {
    x, y := Packet(0, ACK), Packet(1, ACK + PSH);
    PacketIp(0, ACK);
    PacketTcp(0, ACK);
    PacketIp(1, ACK + PSH);
    PacketTcp(1, ACK + PSH);
    FieldsParse(x, 0, ACK);
    FieldsParse(y, 1, ACK + PSH);
    PacketValid(0, ACK);
    PacketValid(1, ACK + PSH);
    PrependsToPush(x, y);
    item, pkt := Prepending(x, y);
    NotLatest();
    SegmentPushesIff(item, pkt, [x, y], [1, 0], 1);
  }

  lemma NotLatest()
    ensures !ArrivedLast([1, 0])
  {
    assert 1 in [1, 0];
  }

  lemma Prepending(x: seq<Byte>, y: seq<Byte>) returns (item: Item, pkt: seq<Byte>)
    requires IpFields(x) && IpFields(y) && TransportValid(x, Key()) && TransportValid(y, Key())
    requires Parse(x, true) == Some(Facts(0, ACK)) && Parse(y, true) == Some(Facts(1, ACK + PSH))
    requires TcpPacketsCanCoalesce(x, Facts(0, ACK), NewItem(Facts(1, ACK + PSH), 0, false), y) == Prepend
    ensures item == PrependItem(NewItem(Facts(1, ACK + PSH), 0, false), Facts(0, ACK))
    ensures pkt == PrependBytes(NewItem(Facts(1, ACK + PSH), 0, false), y, x) && Kept(item, pkt, [x, y], [1, 0])
  {
    var info, first := Facts(0, ACK), NewItem(Facts(1, ACK + PSH), 0, false);
    item, pkt := PrependItem(first, info), PrependBytes(first, y, x);
    NewItemIsMerged(y, 0, false);
    TcpPrependMeans(first, y, [y], x, info);
    PrependBounds(first, [y], x, info);
    PrependKeeps(first, y, [y], x, info);
    PrependIsFlagged(first, y, [0], x, info, 1);
    assert [x] + [y] == [x, y] && [1] + [0] == [1, 0];
  }
}
