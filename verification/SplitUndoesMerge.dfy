/**
 * Splitting undoes merging: segment j of an accounted item is, in length, payload, flow,
 * sequence number and compared header fields, the j-th packet that went into the item, and
 * its checksums hold.
 */
module SplitUndoesMerge {
  import opened Bytes
  import opened Checksum
  import opened Gro
  import opened GroAccounting
  import opened GroItems
  import opened GroState
  import opened GsoSplit
  import opened Headers
  import opened RestoredBytes
  import opened Segments
  import opened SplitProperties
  import opened Wire

  /** All that splitting promises of a segment `s` about the packet `part` it stands for. */
  predicate Restores(s: seq<Byte>, part: seq<Byte>, item: Item, j: nat) {
    var h := HeadersLen(item);
    && h <= |s| == |part| && s[h..] == part[h..]
    && InFlow(s, item.key, h, SeqOf(item, j))
    && Like(s, part, item.key, h)
    && TransportValid(s, item.key)
    && (!item.key.isV6 ==> Reference(s[..20], 0) == 0xFFFF)
  }

  // ---------- number, length and payload ----------

  /** There are as many segments as parts. */
  lemma SameCount(item: Item, pkt: seq<Byte>, parts: seq<seq<Byte>>)
    requires Merged(item, pkt, parts) && Fits(item, |pkt|)
    ensures Reaches(|pkt|, HdrOf(item), |parts|) && |pkt| <= Start(HdrOf(item), |parts|)
  {
    FullLength(item, pkt, parts);
    TimesNext(|parts| - 1, item.gsoSize);
  }

  lemma PartBounds(item: Item, pkt: seq<Byte>, parts: seq<seq<Byte>>, j: nat)
    requires Merged(item, pkt, parts) && Fits(item, |pkt|) && j < |parts|
    ensures Start(HdrOf(item), j) < |pkt| && End(|pkt|, HdrOf(item), j)
        == Start(HdrOf(item), j) + |parts[j]| - HeadersLen(item)
    ensures End(|pkt|, HdrOf(item), j) == |pkt| <==> j == |parts| - 1
  {
    FullLength(item, pkt, parts);
    TimesNext(j, item.gsoSize);
    if j < |parts| - 1 { TimesGrows(j + 1, |parts| - 1, item.gsoSize); }
  }

  lemma InputPayload(item: Item, pkt: seq<Byte>)
    requires Fits(item, |pkt|)
    ensures SplitInput(item, pkt)[HeadersLen(item)..] == pkt[HeadersLen(item)..]
  {
    SplitInputKeeps(item, pkt);
    PayloadKept(item, SplitInput(item, pkt), pkt);
  }

  lemma PayloadKept(item: Item, d: seq<Byte>, pkt: seq<Byte>)
    requires Fits(item, |pkt|) && |d| == |pkt| && forall k :: 0 <= k < |pkt| && !Rewritten(item, k) ==> d[k] == pkt[k]
    ensures d[HeadersLen(item)..] == pkt[HeadersLen(item)..]
  {
  }

  lemma SubSlice(a: seq<Byte>, from: nat, to: nat, at: nat, end: nat)
    requires from <= to <= |a| && at <= end <= to - from
    ensures a[from..to][at..end] == a[from + at..from + end]
  {
    var x, y := a[from..to][at..end], a[from + at..from + end];
    assert forall k :: 0 <= k < end - at ==> x[k] == y[k];
  }

  lemma Slice(a: seq<Byte>, b: seq<Byte>, h: nat, at: nat, end: nat)
    requires h <= |a| == |b| && a[h..] == b[h..] && at <= end <= |a| - h
    ensures a[h + at..h + end] == b[h..][at..end]
  {
    SubSlice(a, h, |a|, at, end);
    assert a[h..|a|] == a[h..];
  }

  /** The j-th cut of the input is the payload of part j. */
  lemma CutIsPart(item: Item, pkt: seq<Byte>, parts: seq<seq<Byte>>, j: nat, d: seq<Byte>)
    requires Merged(item, pkt, parts) && Fits(item, |pkt|) && j < |parts|
    requires |d| == |pkt| && d[HeadersLen(item)..] == pkt[HeadersLen(item)..]
    ensures var hdr := HdrOf(item);
            Start(hdr, j) < End(|d|, hdr, j) <= |d| && d[Start(hdr, j)..End(|d|, hdr, j)]
                == parts[j][HeadersLen(item)..]
  {
    PartBounds(item, pkt, parts, j);
    PayloadAt(parts, HeadersLen(item), item.gsoSize, j);
    Slice(d, pkt, HeadersLen(item), Times(j, item.gsoSize), Times(j, item.gsoSize) + |parts[j]| - HeadersLen(item));
  }

  // ---------- headers ----------

  /** The header bytes that all segments have in common. */
  predicate Common(item: Item, k: nat) {
    if k < item.iphLen then !OwnIpField(k, item.key.isV6)
    else k < HeadersLen(item) && !OwnTransportField(k - item.iphLen, item.TcpItem?)
  }

  predicate Agree(s: seq<Byte>, head: seq<Byte>, item: Item) {
    && HeadersLen(item) <= |s| && HeadersLen(item) <= |head|
    && forall k :: 0 <= k < HeadersLen(item) && Common(item, k) ==> s[k] == head[k]
  }

  lemma CommonIsKept(item: Item, k: nat)
    requires Fits(item, MAX_UINT16) && Common(item, k)
    ensures !Rewritten(item, k) && k != FlagsAt(item) && k < HeadersLen(item)
  {
  }

  lemma SegmentAgrees(item: Item, s: seq<Byte>, d: seq<Byte>, offset: nat, len: nat, last: bool)
    requires Fits(item, |d|) && HeadersLen(item) <= |s| && SharedIp(s, d, item.iphLen, item.key.isV6)
    requires TransportOf(s[item.iphLen..HeadersLen(item)], d[item.iphLen..HeadersLen(item)], item.TcpItem?, offset, len,
        last)
    ensures Agree(s, d, item)
  {
    var r, t := s[item.iphLen..HeadersLen(item)], d[item.iphLen..HeadersLen(item)];
    forall k | 0 <= k < HeadersLen(item) && Common(item, k) ensures s[k] == d[k] {
      if k >= item.iphLen { assert r[k - item.iphLen] == t[k - item.iphLen]; }
    }
  }

  /** What the split reads agrees with the first part. */
  lemma InputAgrees(item: Item, pkt: seq<Byte>, parts: seq<seq<Byte>>)
    requires Merged(item, pkt, parts) && Fits(item, |pkt|)
    ensures Agree(SplitInput(item, pkt), parts[0], item)
  {
    SplitInputKeeps(item, pkt);
    forall k | 0 <= k < HeadersLen(item) && Common(item, k) ensures SplitInput(item, pkt)[k] == parts[0][k] {
      CommonIsKept(item, k);
    }
  }

  /** The sequence number and flags that the segments' own ones are computed from. */
  predicate TcpBase(d: seq<Byte>, item: Item) {
    && item.iphLen + 20 <= HeadersLen(item) <= |d|
    && BE32(d[item.iphLen + 4..item.iphLen + 8]) == item.sentSeq
    && (d[FlagsAt(item)] == ACK || d[FlagsAt(item)] == ACK + PSH)
  }

  lemma InputBase(item: Item, pkt: seq<Byte>, parts: seq<seq<Byte>>)
    requires Merged(item, pkt, parts) && Fits(item, |pkt|) && item.TcpItem?
    ensures TcpBase(SplitInput(item, pkt), item)
  {
    SplitInputKeeps(item, pkt);
    assert PartOk(item, parts, 0);
    HeadSeq(item, parts);
    BaseOf(item, SplitInput(item, pkt), pkt, parts[0]);
  }

  lemma HeadSeq(item: Item, parts: seq<seq<Byte>>)
    requires PartOk(item, parts, 0) && |parts| > 0 && item.TcpItem? && item.key.TcpKey?
        && item.iphLen == IpLen(item.key.isV6)
    ensures item.iphLen + 8 <= |parts[0]| && BE32(parts[0][item.iphLen + 4..item.iphLen + 8]) == item.sentSeq
  {
    TimesNext(0, item.gsoSize);
  }

  lemma BaseOf(item: Item, d: seq<Byte>, pkt: seq<Byte>, head: seq<Byte>)
    requires Fits(item, |pkt|) && item.TcpItem? && |d| == |pkt|
        && SameHeader(pkt, head, HeadersLen(item), FlagsAt(item))
    requires forall k :: 0 <= k < |pkt| && !Rewritten(item, k) ==> d[k] == pkt[k]
    requires BE32(head[item.iphLen + 4..item.iphLen + 8]) == item.sentSeq
    requires pkt[FlagsAt(item)] == ACK || pkt[FlagsAt(item)] == ACK + PSH
    ensures TcpBase(d, item)
  {
    var at := item.iphLen;
    assert d[at + 4..at + 8] == head[at + 4..at + 8];
  }

  lemma OnlyAckLeft(r: Byte, t: Byte)
    requires OnlyFinPshCleared(r, t) && (t == ACK || t == ACK + PSH)
    ensures r == ACK
  {
    var high, mid := r as int / 16, r as int / 2 % 4;
    assert r as int == high * 16 + r as int / 8 % 2 * 8 + mid * 2 + r as int % 2 && high == 1 && mid == 0;
  }

  lemma SegmentBase(item: Item, s: seq<Byte>, d: seq<Byte>, j: nat, len: nat, last: bool)
    requires Fits(item, |d|) && item.TcpItem? && HeadersLen(item) <= |s| && TcpBase(d, item)
    requires TransportOf(s[item.iphLen..HeadersLen(item)], d[item.iphLen..HeadersLen(item)], true,
        Times(j, item.gsoSize), len, last)
    ensures BE32(s[item.iphLen + 4..item.iphLen + 8]) == SeqOf(item, j)
    ensures s[FlagsAt(item)] == ACK || s[FlagsAt(item)] == ACK + PSH
  {
    var r, t := s[item.iphLen..HeadersLen(item)], d[item.iphLen..HeadersLen(item)];
    SubSlice(s, item.iphLen, HeadersLen(item), 4, 8);
    SubSlice(d, item.iphLen, HeadersLen(item), 4, 8);
    assert r[FLAGS_AT] == s[FlagsAt(item)] && t[FLAGS_AT] == d[FlagsAt(item)];
    if !last { OnlyAckLeft(r[FLAGS_AT], t[FLAGS_AT]); }
  }

  // ---------- the segment parses like its part ----------

  /** The fields a segment does not share: the length, and for TCP the sequence number and flags. */
  predicate OwnFields(s: seq<Byte>, item: Item, seqNum: U32) {
    && HeadersLen(item) < |s| <= MAX_UINT16 && IpLen(item.key.isV6) + 8 <= HeadersLen(item)
        && LengthAgrees(s, item.key.isV6)
    && (item.TcpItem? ==>
          && item.iphLen + 20 <= HeadersLen(item) && BE32(s[item.iphLen + 4..item.iphLen + 8]) == seqNum
          && (s[FlagsAt(item)] == ACK || s[FlagsAt(item)] == ACK + PSH))
  }

  lemma SameCandidate(item: Item, s: seq<Byte>, head: seq<Byte>, was: U32)
    requires Fits(item, MAX_UINT16) && Agree(s, head, item) && HeadersLen(item) < |s|
        && InFlow(head, item.key, HeadersLen(item), was)
    ensures PacketIsGroCandidate(s, true) == PacketIsGroCandidate(head, true)
    ensures PacketIsGroCandidate(s, true) == if item.TcpItem? then (if item.key.isV6 then Tcp6 else Tcp4)
                                             else if item.key.isV6 then Udp6 else Udp4
  {
    var v6 := item.key.isV6;
    assert Common(item, 0) && (if v6 then Common(item, 6) else Common(item, 9));
  }

  lemma SameKey(item: Item, s: seq<Byte>, head: seq<Byte>)
    requires Fits(item, MAX_UINT16) && Agree(s, head, item)
    ensures Src(s, item.key.isV6) == Src(head, item.key.isV6) && Dst(s, item.key.isV6) == Dst(head, item.key.isV6)
    ensures s[item.iphLen..item.iphLen + 2] == head[item.iphLen..item.iphLen + 2]
    ensures s[item.iphLen + 2..item.iphLen + 4] == head[item.iphLen + 2..item.iphLen + 4]
    ensures item.TcpItem? ==> s[item.iphLen + 8..item.iphLen + 12] == head[item.iphLen + 8..item.iphLen + 12]
  {
    var iph := item.iphLen;
    forall k | AddrAt(item.key.isV6) <= k < IpLen(item.key.isV6) ensures s[k] == head[k] { assert Common(item, k); }
    SameAddresses(s, head, item.key.isV6);
    assert Common(item, iph) && Common(item, iph + 1) && Common(item, iph + 2) && Common(item, iph + 3);
    if item.TcpItem? {
      assert Common(item, iph + 8) && Common(item, iph + 9) && Common(item, iph + 10) && Common(item, iph + 11);
    }
  }

  lemma TcpParsesAgain(item: Item, s: seq<Byte>, head: seq<Byte>, was: U32, seqNum: U32)
    requires Fits(item, MAX_UINT16) && item.TcpItem? && Agree(s, head, item) && OwnFields(s, item, seqNum)
    requires InFlow(head, item.key, HeadersLen(item), was)
    ensures InFlow(s, item.key, HeadersLen(item), seqNum)
  {
    SameCandidate(item, s, head, was);
    SameKey(item, s, head);
    assert Common(item, 0) && Common(item, item.iphLen + 12);
    if !item.key.isV6 { assert Common(item, 6) && Common(item, 7); }
  }

  lemma UdpParsesAgain(item: Item, s: seq<Byte>, head: seq<Byte>, was: U32, seqNum: U32)
    requires Fits(item, MAX_UINT16) && item.UdpItem? && Agree(s, head, item) && OwnFields(s, item, seqNum)
    requires InFlow(head, item.key, HeadersLen(item), was)
    ensures InFlow(s, item.key, HeadersLen(item), seqNum)
  {
    SameCandidate(item, s, head, was);
    SameKey(item, s, head);
    assert Common(item, 0);
    if !item.key.isV6 { assert Common(item, 6) && Common(item, 7); }
  }

  /** It is Like every part, because the head is. */
  lemma LikeAgain(item: Item, s: seq<Byte>, head: seq<Byte>, part: seq<Byte>)
    requires Fits(item, MAX_UINT16) && Agree(s, head, item) && Like(part, head, item.key, HeadersLen(item))
    requires |part| >= 28 && |head| >= 28 && (part[0] / 16 == 6 <==> item.key.isV6)
                                                                     && (head[0] / 16 == 6 <==> item.key.isV6)
    ensures Like(s, part, item.key, HeadersLen(item))
  {
    assert Common(item, 0) && Common(item, 1) && Common(item, 6) && Common(item, 7) && Common(item, 8);
    if item.TcpItem? {
      forall k | item.iphLen + 20 <= k < HeadersLen(item) ensures s[k] == head[k] { assert Common(item, k); }
      assert s[item.iphLen + 20..HeadersLen(item)] == head[item.iphLen + 20..HeadersLen(item)];
    }
  }

  // ---------- the main theorem ----------

  /** What the description says in the item's own terms. */
  lemma DescribedFields(item: Item, j: nat, d: seq<Byte>, s: seq<Byte>)
    requires Fits(item, |d|) && |d| <= MAX_UINT16 && (item.TcpItem? ==> TcpBase(d, item))
    requires Describes(s, d, HdrOf(item), j, item.key.isV6) && Start(HdrOf(item), j) < End(|d|, HdrOf(item), j)
    ensures Agree(s, d, item) && OwnFields(s, item, SeqOf(item, j)) && TransportValid(s, item.key)
    ensures !item.key.isV6 ==> Reference(s[..20], 0) == 0xFFFF
  {
    var hdr := HdrOf(item);
    var len, last := |s| - item.iphLen, End(|d|, hdr, j) == |d|;
    SegmentAgrees(item, s, d, Times(j, item.gsoSize), len, last);
    if item.TcpItem? { SegmentBase(item, s, d, j, len, last); }
  }

  /** From the description of segment j alone. */
  lemma DescribedRestores(item: Item, pkt: seq<Byte>, parts: seq<seq<Byte>>, j: nat, d: seq<Byte>, s: seq<Byte>)
    requires Merged(item, pkt, parts) && Fits(item, |pkt|) && j < |parts| && |d| == |pkt|
    requires d[HeadersLen(item)..] == pkt[HeadersLen(item)..] && Agree(d, parts[0], item)
        && (item.TcpItem? ==> TcpBase(d, item))
    requires Describes(s, d, HdrOf(item), j, item.key.isV6)
    ensures Restores(s, parts[j], item, j)
  {
    CutIsPart(item, pkt, parts, j, d);
    DescribedFields(item, j, d, s);
    PartInFlow(item, parts, 0);
    PartInFlow(item, parts, j);
    LikeAgain(item, s, parts[0], parts[j]);
    if item.TcpItem? {
      TcpParsesAgain(item, s, parts[0], SeqOf(item, 0), SeqOf(item, j));
    } else {
      UdpParsesAgain(item, s, parts[0], SeqOf(item, 0), SeqOf(item, j));
    }
  }

  lemma PartInFlow(item: Item, parts: seq<seq<Byte>>, j: nat)
    requires PartsOk(item, parts) && j < |parts|
    ensures InFlow(parts[j], item.key, HeadersLen(item), SeqOf(item, j))
        && Like(parts[j], parts[0], item.key, HeadersLen(item))
    ensures |parts[j]| >= 28 && (parts[j][0] / 16 == 6 <==> item.key.isV6)
  {
    assert PartOk(item, parts, j);
    ParseVersion(parts[j]);
  }

  /**
   * For every item that merged packets: gsoSplit on the accounted packet and its virtio
   * header makes as many segments as packets went in, and segment j restores the j-th.
   */
  lemma SplitRestores(item: Item, pkt: seq<Byte>, parts: seq<seq<Byte>>, j: nat)
    requires Merged(item, pkt, parts) && item.numMerged > 0 && j < |parts|
    ensures Fits(item, |pkt|) && WellFormed(|pkt|, HdrOf(item), item.key.isV6)
    ensures Reaches(|pkt|, HdrOf(item), |parts|) && |pkt| <= Start(HdrOf(item), |parts|)
    ensures Start(HdrOf(item), j) < |pkt|
    ensures var d := Zeroed(Accounted(item, pkt), HdrOf(item), item.key.isV6);
            Restores(Segment(d, HdrOf(item), j, item.key.isV6), parts[j], item, j)
  {
    MergedFits(item, pkt, parts);
    AccountedWellFormed(item, |pkt|);
    SameCount(item, pkt, parts);
    PartBounds(item, pkt, parts, j);
    var d := SplitInput(item, pkt);
    SplitInputKeeps(item, pkt);
    InputPayload(item, pkt);
    InputAgrees(item, pkt, parts);
    if item.TcpItem? { InputBase(item, pkt, parts); }
    SegmentIsDescribed(d, HdrOf(item), j, item.key.isV6);
    DescribedRestores(item, pkt, parts, j, d, Segment(d, HdrOf(item), j, item.key.isV6));
  }

  // ---------- PSH ----------

  lemma FlagsOfSegment(item: Item, s: seq<Byte>, d: seq<Byte>, offset: nat, len: nat, last: bool)
    requires Fits(item, |d|) && item.TcpItem? && HeadersLen(item) <= |s| && TcpBase(d, item)
    requires TransportOf(s[item.iphLen..HeadersLen(item)], d[item.iphLen..HeadersLen(item)], true, offset, len, last)
    ensures s[FlagsAt(item)] == if last then d[FlagsAt(item)] else ACK
  {
    var r, t := s[item.iphLen..HeadersLen(item)], d[item.iphLen..HeadersLen(item)];
    assert r[FLAGS_AT] == s[FlagsAt(item)] && t[FLAGS_AT] == d[FlagsAt(item)];
    if !last { OnlyAckLeft(r[FLAGS_AT], t[FLAGS_AT]); }
  }

  /** Of a TCP packet in the flow, the flags say whether it pushes. */
  lemma FlagsPush(s: seq<Byte>, item: Item, seqNum: U32)
    requires InFlow(s, item.key, HeadersLen(item), seqNum) && item.TcpItem? && item.key.TcpKey?
        && item.iphLen == IpLen(item.key.isV6)
    ensures FlagsAt(item) < |s| && (Pushes(s) <==> s[FlagsAt(item)] == ACK + PSH)
  {
    ParseBounds(s, true);
    ParseFlags(s);
  }

  lemma InputFlags(item: Item, pkt: seq<Byte>)
    requires Fits(item, |pkt|) && item.TcpItem?
    ensures SplitInput(item, pkt)[FlagsAt(item)] == pkt[FlagsAt(item)]
  {
    SplitInputKeeps(item, pkt);
  }

  lemma NoPushBefore(item: Item, parts: seq<seq<Byte>>, j: nat)
    requires PartsOk(item, parts) && j < |parts| - 1
    ensures !Pushes(parts[j])
  {
    assert PartOk(item, parts, j);
  }

  lemma LastPush(item: Item, pkt: seq<Byte>, parts: seq<seq<Byte>>)
    requires Merged(item, pkt, parts) && item.TcpItem?
    ensures parts != [] && item.pshSet == Pushes(parts[|parts| - 1])
  {
  }

  /**
   * The segment has the PSH of the packet it stands for, unless it is the last and a packet
   * was prepended after that one: then it has none.
   */
  predicate PushKept(s: seq<Byte>, parts: seq<seq<Byte>>, idx: seq<nat>, j: nat)
    requires j < |parts|
  {
    && (Pushes(s) ==> Pushes(parts[j]))
    && (Pushes(s) == Pushes(parts[j]) <==> j < |parts| - 1 || !Pushes(parts[j]) || ArrivedLast(idx))
  }

  lemma SegmentFlags(item: Item, pkt: seq<Byte>, parts: seq<seq<Byte>>, j: nat)
    requires Merged(item, pkt, parts) && item.TcpItem? && j < |parts|
    requires Fits(item, |pkt|) && WellFormed(|pkt|, HdrOf(item), item.key.isV6) && Start(HdrOf(item), j) < |pkt|
    ensures var s := Segment(SplitInput(item, pkt), HdrOf(item), j, item.key.isV6);
            FlagsAt(item) < |s| && s[FlagsAt(item)] == if j == |parts| - 1 then pkt[FlagsAt(item)] else ACK
  {
    var d, hdr := SplitInput(item, pkt), HdrOf(item);
    var s := Segment(d, hdr, j, item.key.isV6);
    SplitInputKeeps(item, pkt);
    InputBase(item, pkt, parts);
    InputFlags(item, pkt);
    SegmentIsDescribed(d, hdr, j, item.key.isV6);
    FlagsOfSegment(item, s, d, Times(j, item.gsoSize), |s| - item.iphLen, End(|d|, hdr, j) == |d|);
    PartBounds(item, pkt, parts, j);
  }

  lemma TcpPushKept(item: Item, pkt: seq<Byte>, parts: seq<seq<Byte>>, idx: seq<nat>, j: nat)
    requires Kept(item, pkt, parts, idx) && item.numMerged > 0 && item.TcpItem? && j < |parts|
    requires Fits(item, |pkt|) && WellFormed(|pkt|, HdrOf(item), item.key.isV6) && Start(HdrOf(item), j) < |pkt|
    requires var s := Segment(SplitInput(item, pkt), HdrOf(item), j, item.key.isV6);
             InFlow(s, item.key, HeadersLen(item), SeqOf(item, j))
    ensures PushKept(Segment(SplitInput(item, pkt), HdrOf(item), j, item.key.isV6), parts, idx, j)
  {
    SegmentFlags(item, pkt, parts, j);
    FlagsPush(Segment(SplitInput(item, pkt), HdrOf(item), j, item.key.isV6), item, SeqOf(item, j));
    LastPush(item, pkt, parts);
    if j < |parts| - 1 { NoPushBefore(item, parts, j); }
  }

  /** For every item that merged packets, whatever the order in which they arrived. */
  lemma SegmentPushesIff(item: Item, pkt: seq<Byte>, parts: seq<seq<Byte>>, idx: seq<nat>, j: nat)
    requires Kept(item, pkt, parts, idx) && item.numMerged > 0 && j < |parts|
    ensures Fits(item, |pkt|) && WellFormed(|pkt|, HdrOf(item), item.key.isV6) && Start(HdrOf(item), j) < |pkt|
    ensures PushKept(Segment(SplitInput(item, pkt), HdrOf(item), j, item.key.isV6), parts, idx, j)
  {
    SplitRestores(item, pkt, parts, j);
    if item.TcpItem? {
      TcpPushKept(item, pkt, parts, idx, j);
    } else {
      PartInFlow(item, parts, j);
      UdpNeverPushes(parts[j], item.key, HeadersLen(item), SeqOf(item, j));
      var s := Segment(SplitInput(item, pkt), HdrOf(item), j, item.key.isV6);
      UdpNeverPushes(s, item.key, HeadersLen(item), SeqOf(item, j));
    }
  }

  // ---------- byte by byte ----------

  /** The header bytes that no merge compares are the first packet's. */
  lemma AgreeBorrows(item: Item, s: seq<Byte>, head: seq<Byte>, j: nat)
    requires Fits(item, MAX_UINT16) && Agree(s, head, item) && Joinable(s, true) && Joinable(head, true)
    requires IsV6(s) == IsV6(head) == item.key.isV6 && HasTcp(s) == HasTcp(head) == item.TcpItem?
    requires !item.key.isV6 ==> BE16(s[4..6]) == (BE16(head[4..6]) as int + j) % 0x1_0000
    ensures Borrowed(s, head, j)
  {
    var t := item.iphLen;
    if item.key.isV6 {
      assert Common(item, 1) && Common(item, 2) && Common(item, 3);
    } else {
      Words(s, 4);
      Words(head, 4);
    }
    if item.TcpItem? {
      assert Common(item, t + 12) && Common(item, t + 14) && Common(item, t + 15);
      assert Common(item, t + 18) && Common(item, t + 19);
    }
  }

  /** The identification of the split's input is the first packet's. */
  lemma InputIdentification(item: Item, pkt: seq<Byte>, parts: seq<seq<Byte>>)
    requires Merged(item, pkt, parts) && Fits(item, |pkt|) && !item.key.isV6
    ensures |parts[0]| >= 6 && SplitInput(item, pkt)[4..6] == parts[0][4..6]
  {
    SplitInputKeeps(item, pkt);
    var d := SplitInput(item, pkt);
    assert d[4] == pkt[4] == parts[0][4] && d[5] == pkt[5] == parts[0][5];
  }

  lemma DescribedAgrees(item: Item, d: seq<Byte>, s: seq<Byte>, j: nat)
    requires Fits(item, |d|) && Describes(s, d, HdrOf(item), j, item.key.isV6) && HeadersLen(item) <= |s|
    ensures Agree(s, d, item) && |d| >= 6 && |s| >= 6
    ensures !item.key.isV6 ==> BE16(s[4..6]) == (BE16(d[4..6]) as int + j) % 0x1_0000
  {
    SegmentAgrees(item, s, d, Times(j, item.gsoSize), |s| - item.iphLen, End(|d|, HdrOf(item), j) == |d|);
  }

  lemma FlowBorrows(item: Item, head: seq<Byte>, d: seq<Byte>, s: seq<Byte>, j: nat)
    requires Fits(item, |d|) && Agree(s, d, item) && Agree(d, head, item) && |d| >= 6 && |s| >= 6 && |head| >= 6
    requires !item.key.isV6 ==> d[4..6] == head[4..6] && BE16(s[4..6]) == (BE16(d[4..6]) as int + j) % 0x1_0000
    requires InFlow(s, item.key, HeadersLen(item), SeqOf(item, j))
    requires InFlow(head, item.key, HeadersLen(item), SeqOf(item, 0))
    ensures Borrowed(s, head, j)
  {
    ParsesIff(s, true);
    ParsesIff(head, true);
    AgreeTwice(s, d, head, item);
    AgreeBorrows(item, s, head, j);
  }

  lemma AgreeTwice(s: seq<Byte>, d: seq<Byte>, head: seq<Byte>, item: Item)
    requires Agree(s, d, item) && Agree(d, head, item)
    ensures Agree(s, head, item)
  {
  }

  lemma SplitBorrows(item: Item, pkt: seq<Byte>, parts: seq<seq<Byte>>, j: nat)
    requires Merged(item, pkt, parts) && item.numMerged > 0 && j < |parts|
    requires Fits(item, |pkt|) && WellFormed(|pkt|, HdrOf(item), item.key.isV6) && Start(HdrOf(item), j) < |pkt|
    requires InFlow(Segment(SplitInput(item, pkt), HdrOf(item), j, item.key.isV6), item.key, HeadersLen(item),
                    SeqOf(item, j))
    ensures Borrowed(Segment(SplitInput(item, pkt), HdrOf(item), j, item.key.isV6), parts[0], j)
  {
    var d := SplitInput(item, pkt);
    SplitInputKeeps(item, pkt);
    InputAgrees(item, pkt, parts);
    SegmentIsDescribed(d, HdrOf(item), j, item.key.isV6);
    if !item.key.isV6 { InputIdentification(item, pkt, parts); }
    PartInFlow(item, parts, 0);
    DescribedAgrees(item, d, Segment(d, HdrOf(item), j, item.key.isV6), j);
    FlowBorrows(item, parts[0], d, Segment(d, HdrOf(item), j, item.key.isV6), j);
  }

  /** PSH in the flags byte. */
  lemma FlagsFrom(s: seq<Byte>, parts: seq<seq<Byte>>, idx: seq<nat>, j: nat)
    requires j < |parts| && SameBytes(s, parts[j]) && PushKept(s, parts, idx, j)
    ensures Flags(s, parts, idx, j)
  {
    ParsesIff(s, true);
    ParsesIff(parts[j], true);
  }

  /** Segment j of an item that merged packets, byte by byte. */
  lemma SegmentIsRebuilt(item: Item, pkt: seq<Byte>, parts: seq<seq<Byte>>, idx: seq<nat>, j: nat)
    requires Kept(item, pkt, parts, idx) && item.numMerged > 0 && j < |parts|
    ensures Fits(item, |pkt|) && WellFormed(|pkt|, HdrOf(item), item.key.isV6) && Start(HdrOf(item), j) < |pkt|
    ensures Rebuilt(Segment(SplitInput(item, pkt), HdrOf(item), j, item.key.isV6), parts, idx, j)
  {
    SplitRestores(item, pkt, parts, j);
    SegmentPushesIff(item, pkt, parts, idx, j);
    PartInFlow(item, parts, j);
    SplitBorrows(item, pkt, parts, j);
    var s := Segment(SplitInput(item, pkt), HdrOf(item), j, item.key.isV6);
    SameInFlow(s, parts[j], item.key, HeadersLen(item), SeqOf(item, j));
    FlagsFrom(s, parts, idx, j);
  }

  // ---------- written buffers ----------

  lemma MergedSplits(buf: Buf, parts: seq<seq<Byte>>, idx: seq<nat>, item: Item, pkt: seq<Byte>, j: nat)
    requires MergedOutcome(buf, parts, idx, item, pkt) && j < |parts|
    ensures WellFormed(|buf.pkt|, buf.head.hdr, item.key.isV6)
    ensures Reaches(|buf.pkt|, buf.head.hdr, |parts|) && |buf.pkt| <= Start(buf.head.hdr, |parts|)
        && Start(buf.head.hdr, j) < |buf.pkt|
    ensures var s := Segment(Zeroed(buf.pkt, buf.head.hdr, item.key.isV6), buf.head.hdr, j, item.key.isV6);
            Restores(s, parts[j], item, j) && Rebuilt(s, parts, idx, j)
  {
    SplitRestores(item, pkt, parts, j);
    SegmentIsRebuilt(item, pkt, parts, idx, j);
  }

  /** A written buffer that carries a virtio header splits into exactly the packets it stands for. */
  lemma WrittenSplits(buf: Buf, parts: seq<seq<Byte>>, idx: seq<nat>, j: nat) returns (item: Item)
    requires Outcome(buf, parts, idx) && buf.head.Encoded? && j < |parts|
    ensures WellFormed(|buf.pkt|, buf.head.hdr, item.key.isV6)
    ensures Reaches(|buf.pkt|, buf.head.hdr, |parts|) && |buf.pkt| <= Start(buf.head.hdr, |parts|)
    ensures Start(buf.head.hdr, j) < |buf.pkt|
    ensures var s := Segment(Zeroed(buf.pkt, buf.head.hdr, item.key.isV6), buf.head.hdr, j, item.key.isV6);
            Restores(s, parts[j], item, j) && Rebuilt(s, parts, idx, j)
  {
    var pkt;
    item, pkt :| MergedOutcome(buf, parts, idx, item, pkt);
    MergedSplits(buf, parts, idx, item, pkt, j);
  }

  /** The version field of the written packet is that of its flow. */
  lemma VersionTells(buf: Buf, parts: seq<seq<Byte>>, idx: seq<nat>, item: Item, pkt: seq<Byte>)
    requires MergedOutcome(buf, parts, idx, item, pkt)
    ensures |buf.pkt| >= 28 && (buf.pkt[0] / 16 == 6 <==> item.key.isV6)
  {
    AccountedKeeps(item, pkt);
    PartInFlow(item, parts, 0);
    assert !Rewritten(item, 0);
  }

  /** n cuts cover the input, and n - 1 do not. */
  predicate Cuts(len: nat, hdr: VirtioNetHdr, n: nat) {
    n > 0 && Start(hdr, n - 1) < len <= Start(hdr, n)
  }

  lemma OneCount(len: nat, hdr: VirtioNetHdr, m: nat, n: nat)
    requires Cuts(len, hdr, m) && Cuts(len, hdr, n)
    ensures m == n
  {
    if m < n { TimesGrows(m, n - 1, hdr.gsoSize); }
    if n < m { TimesGrows(n, m - 1, hdr.gsoSize); }
  }

  predicate RestoredAt(out: seq<Byte>, size: nat, parts: seq<seq<Byte>>, idx: seq<nat>, item: Item, j: nat) {
    size <= |out| && j < |parts| && Restores(out[..size], parts[j], item, j) && Rebuilt(out[..size], parts, idx, j)
  }

  lemma OutputRestores(buf: Buf, parts: seq<seq<Byte>>, idx: seq<nat>, item: Item, pkt: seq<Byte>, outs: seq<seq<Byte>>,
        before: seq<seq<Byte>>, sizes: seq<nat>, j: nat)
    requires MergedOutcome(buf, parts, idx, item, pkt) && j < |parts|
    requires WellFormed(|buf.pkt|, buf.head.hdr, item.key.isV6)
    requires Holds(outs, before, sizes, Zeroed(buf.pkt, buf.head.hdr, item.key.isV6), buf.head.hdr, item.key.isV6, j)
    ensures RestoredAt(outs[j], sizes[j], parts, idx, item, j)
  {
    OutputIsSegment(outs, before, sizes, Zeroed(buf.pkt, buf.head.hdr, item.key.isV6), buf.head.hdr, item.key.isV6, j);
    MergedSplits(buf, parts, idx, item, pkt, j);
  }

  lemma AllRestored(buf: Buf, parts: seq<seq<Byte>>, idx: seq<nat>, item: Item, pkt: seq<Byte>, outs: seq<seq<Byte>>,
        before: seq<seq<Byte>>, sizes: seq<nat>)
    requires MergedOutcome(buf, parts, idx, item, pkt) && WellFormed(|buf.pkt|, buf.head.hdr, item.key.isV6)
    requires |parts| <= |outs| <= |sizes|
    requires AllHold(outs, before, sizes, Zeroed(buf.pkt, buf.head.hdr, item.key.isV6), buf.head.hdr, item.key.isV6,
        |parts|)
    ensures forall j :: 0 <= j < |parts| ==> RestoredAt(outs[j], sizes[j], parts, idx, item, j)
  {
    forall j | 0 <= j < |parts| ensures RestoredAt(outs[j], sizes[j], parts, idx, item, j) {
      OutputRestores(buf, parts, idx, item, pkt, outs, before, sizes, j);
    }
  }

  lemma ReadyToSplit(buf: Buf, parts: seq<seq<Byte>>, idx: seq<nat>, item: Item, pkt: seq<Byte>, outputs: nat)
    requires MergedOutcome(buf, parts, idx, item, pkt) && |parts| <= outputs
    ensures WellFormed(|buf.pkt|, buf.head.hdr, item.key.isV6) && |buf.pkt| >= 28
        && (buf.pkt[0] / 16 == 6) == item.key.isV6
    ensures Cuts(|buf.pkt|, buf.head.hdr, |parts|) && |buf.pkt| <= Start(buf.head.hdr, outputs)
  {
    VersionTells(buf, parts, idx, item, pkt);
    MergedSplits(buf, parts, idx, item, pkt, |parts| - 1);
    TimesGrows(|parts|, outputs, buf.head.hdr.gsoSize);
  }

  /**
   * A written buffer that carries a virtio header, split with enough outputs, gives back
   * exactly the packets it stands for, each in its own output.
   */
  method SplitWritten(buf: Buf, input: array<Byte>, outs: array<seq<Byte>>, sizes: array<nat>, little: bool,
      ghost parts: seq<seq<Byte>>, ghost idx: seq<nat>, ghost item: Item, ghost pkt: seq<Byte>)
    returns (n: int)
    requires MergedOutcome(buf, parts, idx, item, pkt) && input[..] == buf.pkt && |parts| <= outs.Length <= sizes.Length
    requires forall i :: 0 <= i < outs.Length ==> |outs[i]| >= buf.head.hdr.hdrLen as int + buf.head.hdr.gsoSize as int
                                                  || |outs[i]| >= input.Length
    modifies input, outs, sizes
    ensures n == |parts| && forall j :: 0 <= j < |parts| ==> RestoredAt(outs[j], sizes[j], parts, idx, item, j)
  {
    ReadyToSplit(buf, parts, idx, item, pkt, outs.Length);
    n := SplitInto(input, buf.head.hdr, outs, sizes, input[0] / 16 == 6, little, buf.pkt, |parts|);
    AllRestored(buf, parts, idx, item, pkt, outs[..], old(outs[..]), sizes[..]);
  }

  /** Split, where the number of segments is known and the outputs suffice. */
  method SplitInto(input: array<Byte>, hdr: VirtioNetHdr, outs: array<seq<Byte>>, sizes: array<nat>, isV6: bool,
        little: bool,
      ghost data: seq<Byte>, ghost count: nat)
    returns (n: int)
    requires WellFormed(input.Length, hdr, isV6) && input[..] == data && count <= outs.Length <= sizes.Length
    requires forall i :: 0 <= i < outs.Length ==> |outs[i]| >= hdr.hdrLen as int + hdr.gsoSize as int
                                                  || |outs[i]| >= input.Length
    requires Cuts(input.Length, hdr, count) && input.Length <= Start(hdr, outs.Length)
    modifies input, outs, sizes
    ensures n == count && AllHold(outs[..], old(outs[..]), sizes[..], Zeroed(data, hdr, isV6), hdr, isV6, count)
  {
    var ok;
    n, ok := Split(input, hdr, outs, sizes, isV6, little);
    Starts(hdr, n, count, input.Length);
  }

  lemma Starts(hdr: VirtioNetHdr, n: nat, count: nat, len: nat)
    requires len <= Start(hdr, n) && (n > 0 ==> Start(hdr, n - 1) < len) && Cuts(len, hdr, count)
    ensures n == count
  {
    TimesNext(0, hdr.gsoSize);
    TimesGrows(0, count - 1, hdr.gsoSize);
    if n > 0 { OneCount(len, hdr, n, count); }
  }
}
