/**
 * A segment of a merged packet against the packet it stands for, byte by byte (Wire.dfy):
 * which header fields it has back, and which it has from the first packet of the merge.
 */
module RestoredBytes {
  import opened Bytes
  import opened Checksum
  import opened GroItems
  import opened Headers
  import opened Wire

  /** All that identifies a packet and its content: the bytes are equal, and the checksums hold. */
  predicate SameBytes(s: seq<Byte>, p: seq<Byte>) {
    && Joinable(s, true) && Joinable(p, true) && |s| == |p|
    && IsV6(s) == IsV6(p) && ProtoOf(s) == ProtoOf(p) && BodyAt(s) == BodyAt(p)
    && (if IsV6(p) then
          // version, traffic class, next header, hop limit, addresses
          s[0] == p[0] && s[1] / 16 == p[1] / 16 && s[6..8] == p[6..8] && s[8..40] == p[8..40]
        else
          // version, TOS; flags, fragment, TTL, protocol; addresses
          s[..2] == p[..2] && s[6..10] == p[6..10] && s[12..20] == p[12..20])
    // ports; sequence and acknowledgement number; header length and options; payload
    && (var t, h := TransportAt(p), BodyAt(p);
        && s[t..t + 4] == p[t..t + 4]
        && (HasTcp(p) ==> s[t + 4..t + 12] == p[t + 4..t + 12] && s[t + 20..h] == p[t + 20..h])
        && s[h..] == p[h..])
    && HeaderSumHolds(s) && TransportSumHolds(s)
  }

  /** What no merge compares, and the IPv4 identification: from the first packet, which is `head`. */
  predicate Borrowed(s: seq<Byte>, head: seq<Byte>, j: nat) {
    && Joinable(s, true) && Joinable(head, true) && TransportAt(s) == TransportAt(head) && HasTcp(s) == HasTcp(head)
    && (if IsV6(s) then
          // flow label
          s[1] % 16 == head[1] % 16 && s[2..4] == head[2..4]
        else
          Word(s, 4) == (Word(head, 4) + j) % 0x1_0000)
    // reserved bits, window, urgent pointer
    && var t := TransportAt(s);
       HasTcp(s) ==> s[t + 12] % 16 == head[t + 12] % 16 && s[t + 14..t + 16] == head[t + 14..t + 16]
                     && s[t + 18..t + 20] == head[t + 18..t + 20]
  }

  /** The flags: PSH is lost exactly on the last segment, when something was put in front after it. */
  predicate Flags(s: seq<Byte>, parts: seq<seq<Byte>>, idx: seq<nat>, j: nat)
    requires j < |parts|
  {
    && Joinable(s, true) && Joinable(parts[j], true)
    && TransportAt(s) == TransportAt(parts[j]) && HasTcp(s) == HasTcp(parts[j])
    && (HasTcp(s) ==> s[TransportAt(s) + 13]
                      == if j < |parts| - 1 || ArrivedLast(idx) then parts[j][TransportAt(s) + 13] else 0x10)
  }

  /** Every header byte of segment j. */
  predicate Rebuilt(s: seq<Byte>, parts: seq<seq<Byte>>, idx: seq<nat>, j: nat) {
    j < |parts| && SameBytes(s, parts[j]) && Borrowed(s, parts[0], j) && Flags(s, parts, idx, j)
  }

  // ---------- from the flow, the class and the options ----------

  lemma SameIp(s: seq<Byte>, p: seq<Byte>)
    requires Joinable(s, true) && Joinable(p, true) && SameFlow(s, p) && SameClass(s, p)
    ensures if IsV6(p) then s[0] == p[0] && s[1] / 16 == p[1] / 16 && s[6..8] == p[6..8] && s[8..40] == p[8..40]
            else s[..2] == p[..2] && s[6..10] == p[6..10] && s[12..20] == p[12..20]
  {
    if IsV6(p) {
      assert s[6] == p[6] && s[7] == p[7];
    } else {
      assert s[0] == p[0] && s[1] == p[1] && s[6] == p[6] && s[7] == p[7] && s[8] == p[8] && s[9] == p[9];
    }
  }

  lemma SameSeqNum(s: seq<Byte>, p: seq<Byte>)
    requires Joinable(s, true) && Joinable(p, true) && SameFlow(s, p) && HasTcp(p) && SeqNum(s) == SeqNum(p)
    ensures s[TransportAt(p) + 4..TransportAt(p) + 12] == p[TransportAt(p) + 4..TransportAt(p) + 12]
  {
    var t := TransportAt(p);
    Longs(s, t + 4);
    Longs(p, t + 4);
    LongsTell(s, p, t + 4);
    JoinSlices(s, p, t + 4, t + 8, t + 12);
  }

  /** What it means to be in a flow, on the wire. */
  lemma FlowOnWire(s: seq<Byte>, p: seq<Byte>, key: FlowKey, h: nat, seqNum: U32)
    requires InFlow(s, key, h, seqNum) && InFlow(p, key, h, seqNum)
    ensures Joinable(s, true) && Joinable(p, true) && SameFlow(s, p) && BodyAt(s) == BodyAt(p) == h
    ensures IsV6(p) == key.isV6 && HasTcp(p) == key.TcpKey? && TransportAt(p) == IpLen(key.isV6)
    ensures HasTcp(p) ==> SeqNum(s) == SeqNum(p)
  {
    ParsesIff(s, true);
    ParsesIff(p, true);
    KeysIff(s, p, true);
  }

  lemma BytesFrom(s: seq<Byte>, p: seq<Byte>)
    requires Joinable(s, true) && Joinable(p, true) && SameFlow(s, p) && SameClass(s, p) && BodyAt(s) == BodyAt(p)
    requires HasTcp(p) ==> SeqNum(s) == SeqNum(p)
                           && s[TransportAt(p) + 20..BodyAt(p)] == p[TransportAt(p) + 20..BodyAt(p)]
    requires |s| == |p| && s[BodyAt(p)..] == p[BodyAt(p)..] && HeaderSumHolds(s) && TransportSumHolds(s)
    ensures SameBytes(s, p)
  {
    SameIp(s, p);
    if HasTcp(p) { SameSeqNum(s, p); }
  }

  /** Two packets of a flow with equal class, options, sequence number and payload. */
  lemma SameInFlow(s: seq<Byte>, p: seq<Byte>, key: FlowKey, h: nat, seqNum: U32)
    requires InFlow(s, key, h, seqNum) && InFlow(p, key, h, seqNum) && Like(s, p, key, h)
    requires |s| == |p| && s[h..] == p[h..] && TransportValid(s, key)
    requires !key.isV6 ==> Reference(s[..20], 0) == 0xFFFF
    ensures SameBytes(s, p)
  {
    FlowOnWire(s, p, key, h, seqNum);
    ClassIff(s, p);
    SumsAgree(s);
    OnesSumIsReference(s[..20], 0);
    BytesFrom(s, p);
  }
}
