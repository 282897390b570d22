/**
 * The tests and outcomes of tun/offload_linux.go against the reference: what an item's
 * fields and buffer say about a packet is what the packets in it say.
 */
module GroVerdicts {
  import opened Bytes
  import opened GroItems
  import opened GroState
  import opened GroSteps
  import opened Headers
  import opened Options
  import opened Segments
  import R = GroReference
  import Wire

  datatype CoalesceResult = InsufficientCap | PshEnding | ItemInvalidCSum | PktInvalidCSum | Success

  /** How coalesceTCPPackets and coalesceUDPPackets end. */
  function ResultOf(mode: Mode, info: Info, item: Item, x: Buf, target: Buf, offset: nat): CoalesceResult {
    if (if mode == Prepend then x.room else target.room) - offset < |target.pkt| + |x.pkt| - info.headersLen then
      InsufficientCap
    else if mode == Prepend && info.psh then PshEnding
    else if item.numMerged == 0 && (KnownInvalid(item) || !TransportValid(target.pkt, item.key)) then ItemInvalidCSum
    else if !TransportValid(x.pkt, item.key) then PktInvalidCSum
    else Success
  }

  lemma RefusedIsInvalid(mode: Mode, info: Info, item: Item, x: Buf, target: Buf, offset: nat)
    requires ResultOf(mode, info, item, x, target, offset) == PktInvalidCSum
    ensures !TransportValid(x.pkt, item.key)
  {
  }

  function ModeOf(x: seq<Byte>, info: Info, item: Item, target: seq<Byte>): Mode
    requires Comparable(item, target, info) && info.headersLen <= |x|
  {
    if item.TcpItem? then TcpPacketsCanCoalesce(x, info, item, target) else UdpPacketsCanCoalesce(x, info, item, target)
  }

  // ---------- packets of one item ----------

  /** A packet of a flow, as the parser and as the wire have it. */
  predicate Reads(x: seq<Byte>, key: FlowKey, h: nat, seqNum: U32, psh: bool) {
    && Wire.Joinable(x, true) && Wire.HasTcp(x) == key.TcpKey? && Wire.IsV6(x) == key.isV6
    && Wire.BodyAt(x) == h && Wire.TransportAt(x) == IpLen(key.isV6)
    && (key.TcpKey? ==> Wire.SeqNum(x) == seqNum && Wire.Pushed(x) == psh)
  }

  lemma ParsedReads(x: seq<Byte>)
    requires Parse(x, true).Some?
    ensures var r := Parse(x, true).value; Reads(x, r.key, r.headersLen, r.seqNum, r.psh)
  {
    Wire.ParsesIff(x, true);
  }

  lemma PartReads(item: Item, target: seq<Byte>, parts: seq<seq<Byte>>, j: nat)
    requires Merged(item, target, parts) && j < |parts|
    ensures Reads(parts[j], item.key, HeadersLen(item), SeqOf(item, j), Pushes(parts[j]))
  {
    assert PartOk(item, parts, j);
    ParsedReads(parts[j]);
  }

  lemma OfOneFlow(x: seq<Byte>, y: seq<Byte>)
    requires Parse(x, true).Some? && Parse(y, true).Some? && Parse(x, true).value.key == Parse(y, true).value.key
    ensures R.OneFlow(x, y)
  {
    Wire.ParsesIff(x, true);
    Wire.ParsesIff(y, true);
    Wire.KeysIff(x, y, true);
  }

  lemma MergedIsGroup(item: Item, target: seq<Byte>, parts: seq<seq<Byte>>)
    requires Merged(item, target, parts)
    ensures R.Group(parts)
  {
    assert PartOk(item, parts, 0);
    forall j | 0 <= j < |parts| ensures R.OneFlow(parts[0], parts[j]) {
      assert PartOk(item, parts, j);
      OfOneFlow(parts[0], parts[j]);
    }
  }

  lemma {:induction false} LengthOfPayloads(parts: seq<seq<Byte>>, h: nat)
    requires forall j :: 0 <= j < |parts| ==> |parts[j]| >= h
    ensures R.LengthOf(parts, h) == h + |Payloads(parts, h)|
  {
    if parts != [] { LengthOfPayloads(parts[..|parts| - 1], h); }
  }

  lemma ValidIff(x: seq<Byte>, key: FlowKey, h: nat, seqNum: U32, psh: bool)
    requires Reads(x, key, h, seqNum, psh)
    ensures TransportValid(x, key) <==> Wire.TransportSumHolds(x)
  {
    Wire.SumsAgree(x);
  }

  // ---------- headers ----------

  /** What both tests compare of the headers. */
  predicate SameHeaders(x: seq<Byte>, info: Info, item: Item, target: seq<Byte>) {
    && info.headersLen == HeadersLen(item) <= |x| && HeadersLen(item) <= |target|
    && (item.TcpItem? ==>
          && item.iphLen + 20 <= HeadersLen(item)
          && x[item.iphLen + 20..HeadersLen(item)] == target[item.iphLen + 20..HeadersLen(item)])
    && IpHeadersCanCoalesce(x, target)
  }

  lemma HeadSays(item: Item, target: seq<Byte>, parts: seq<seq<Byte>>, x: seq<Byte>)
    requires Merged(item, target, parts) && HeadersLen(item) <= |x|
    ensures IpHeadersCanCoalesce(x, target) <==> IpHeadersCanCoalesce(x, parts[0])
    ensures item.TcpItem? ==> target[item.iphLen + 20..HeadersLen(item)] == parts[0][item.iphLen + 20..HeadersLen(item)]
  {
  }

  lemma HeadersIff(item: Item, target: seq<Byte>, parts: seq<seq<Byte>>, x: seq<Byte>, info: Info)
    requires Merged(item, target, parts) && Parse(x, true) == Some(info) && info.key == item.key
    ensures R.Group(parts) && Wire.Joinable(x, true)
    ensures SameHeaders(x, info, item, target) <==> R.Alike(x, parts[0])
  {
    MergedIsGroup(item, target, parts);
    ParsedReads(x);
    PartReads(item, target, parts, 0);
    ParseBounds(x, true);
    Wire.ClassIff(x, parts[0]);
    if info.headersLen == HeadersLen(item) { HeadSays(item, target, parts, x); }
  }

  // ---------- sequence numbers and sizes ----------

  /** The last part of an item is full when its payload is a multiple of the segment size. */
  lemma LastIsFull(item: Item, target: seq<Byte>, parts: seq<seq<Byte>>)
    requires Merged(item, target, parts)
    ensures (|target| - HeadersLen(item)) % item.gsoSize == 0
        <==> |parts[|parts| - 1]| == |parts[0]|
  {
    FullLength(item, target, parts);
    FullIffDivides(parts, HeadersLen(item), item.gsoSize);
  }

  /** The sequence number the code takes for the next. */
  function NextSeq(item: Item): U32
    requires item.TcpItem?
  {
    (item.sentSeq + (item.gsoSize + Times(item.numMerged, item.gsoSize) % 0x1_0000) % 0x1_0000) % TWO32
  }

  lemma TcpModeIs(x: seq<Byte>, info: Info, item: Item, target: seq<Byte>)
    requires Comparable(item, target, info) && item.TcpItem? && info.headersLen <= |x|
    ensures TcpPacketsCanCoalesce(x, info, item, target)
        == if !SameHeaders(x, info, item, target) then Unavailable
           else if info.seqNum == NextSeq(item) then
             if item.pshSet || (|target| - HeadersLen(item)) % item.gsoSize != 0 || info.gsoSize > item.gsoSize
             then Unavailable else Append
           else if (info.seqNum + info.gsoSize) % TWO32 == item.sentSeq && !info.psh
               && (info.gsoSize == item.gsoSize || (info.gsoSize > item.gsoSize && item.numMerged == 0))
           then Prepend else Unavailable
  {
  }

  lemma NextSeqIs(item: Item, target: seq<Byte>, parts: seq<seq<Byte>>)
    requires Merged(item, target, parts) && item.TcpItem? && |parts[|parts| - 1]| == |parts[0]|
    ensures NextSeq(item) == (SeqOf(item, |parts| - 1) + item.gsoSize) % TWO32
  {
    LastIsFull(item, target, parts);
    AdjacencyDoesNotWrap(item, target, parts);
    TimesNext(item.numMerged, item.gsoSize);
    AddMod(item.sentSeq + Times(item.numMerged, item.gsoSize), item.gsoSize);
  }

  lemma AddMod(x: nat, t: nat)
    ensures (x % TWO32 + t) % TWO32 == (x + t) % TWO32
  {
  }

  /** No packet both follows and precedes an item. */
  lemma NotBoth(info: Info, item: Item)
    requires item.TcpItem? && 1 <= info.gsoSize <= MAX_UINT16 && info.seqNum == NextSeq(item)
    ensures (info.seqNum + info.gsoSize) % TWO32 != item.sentSeq
  {
    var l := (item.gsoSize + Times(item.numMerged, item.gsoSize) % 0x1_0000) % 0x1_0000;
    AddMod(item.sentSeq + l, info.gsoSize);
  }

  /** Continues and LeadsTo in numbers. */
  lemma OrderReads(parts: seq<seq<Byte>>, x: seq<Byte>, key: FlowKey, h: nat, s: U32, p: bool, t: U32, q: bool, r: U32,
        o: bool, g: nat, n: nat)
    requires R.Group(parts) && R.OneFlow(parts[0], x) && R.Alike(x, parts[0]) && key.TcpKey?
    requires Reads(parts[|parts| - 1], key, h, s, p) && Reads(x, key, h, t, q) && Reads(parts[0], key, h, r, o)
    requires |parts[0]| == h + g && |x| == h + n
    ensures R.Continues(parts, x) <==> |parts[|parts| - 1]| == |parts[0]| && n <= g && !p && t == (s + g) % TWO32
    ensures R.LeadsTo(parts, x) <==> (t + n) % TWO32 == r && !q && (n == g || (n > g && |parts| == 1))
  {
  }

  lemma HeadNumbers(item: Item, target: seq<Byte>, parts: seq<seq<Byte>>)
    requires Merged(item, target, parts) && item.TcpItem?
    ensures item.key.TcpKey? && |parts[0]| == HeadersLen(item) + item.gsoSize && |parts| == item.numMerged + 1
    ensures item.pshSet == Pushes(parts[|parts| - 1]) && SeqOf(item, 0) == item.sentSeq
  {
    TimesNext(0, item.gsoSize);
  }

  /** What is read from the packet, and from the first and last of the item. */
  lemma AllRead(item: Item, target: seq<Byte>, parts: seq<seq<Byte>>, x: seq<Byte>, info: Info)
    requires Merged(item, target, parts) && Parse(x, true) == Some(info) && info.key == item.key
    requires Wire.Joinable(x, true)
    ensures R.Group(parts) && R.OneFlow(parts[0], x) && |x| == info.headersLen + info.gsoSize
        && 1 <= info.gsoSize <= MAX_UINT16
    ensures var last := parts[|parts| - 1];
            && Reads(last, item.key, HeadersLen(item), SeqOf(item, |parts| - 1), Pushes(last))
            && Reads(parts[0], item.key, HeadersLen(item), SeqOf(item, 0), Pushes(parts[0]))
            && Reads(x, item.key, info.headersLen, info.seqNum, info.psh)
  {
    MergedIsGroup(item, target, parts);
    ParsedReads(x);
    ParseBounds(x, true);
    PartReads(item, target, parts, |parts| - 1);
    PartReads(item, target, parts, 0);
    assert PartOk(item, parts, 0);
    OfOneFlow(parts[0], x);
  }

  /** `full`: the last part, which starts at `s`, is as long as the first. */
  lemma ModeByNumbers(x: seq<Byte>, info: Info, item: Item, target: seq<Byte>, full: bool, s: U32, next: bool,
        before: bool)
    requires Comparable(item, target, info) && item.TcpItem? && info.headersLen <= |x|
    requires SameHeaders(x, info, item, target) && 1 <= info.gsoSize <= MAX_UINT16
    requires full == ((|target| - HeadersLen(item)) % item.gsoSize == 0)
    requires full ==> NextSeq(item) == (s + item.gsoSize) % TWO32
    requires next <==> full && info.gsoSize <= item.gsoSize && !item.pshSet
                       && info.seqNum == (s + item.gsoSize) % TWO32
    requires before <==> (info.seqNum + info.gsoSize) % TWO32 == item.sentSeq && !info.psh
                         && (info.gsoSize == item.gsoSize || (info.gsoSize > item.gsoSize && item.numMerged == 0))
    ensures TcpPacketsCanCoalesce(x, info, item, target) == Append <==> next
    ensures TcpPacketsCanCoalesce(x, info, item, target) == Prepend <==> before
  {
    TcpModeIs(x, info, item, target);
    if info.seqNum == NextSeq(item) { NotBoth(info, item); }
  }

  lemma ModeByReads(parts: seq<seq<Byte>>, x: seq<Byte>, info: Info, item: Item, target: seq<Byte>, s: U32, o: bool)
    requires Comparable(item, target, info) && item.TcpItem? && SameHeaders(x, info, item, target)
    requires R.Group(parts) && R.OneFlow(parts[0], x) && R.Alike(x, parts[0])
    requires |x| == info.headersLen + info.gsoSize && 1 <= info.gsoSize <= MAX_UINT16
    requires |parts[0]| == HeadersLen(item) + item.gsoSize && |parts| == item.numMerged + 1
    requires Reads(parts[|parts| - 1], item.key, HeadersLen(item), s, item.pshSet)
    requires Reads(x, item.key, info.headersLen, info.seqNum, info.psh)
    requires Reads(parts[0], item.key, HeadersLen(item), item.sentSeq, o)
    requires (|target| - HeadersLen(item)) % item.gsoSize == 0 <==> |parts[|parts| - 1]| == |parts[0]|
    requires |parts[|parts| - 1]| == |parts[0]| ==> NextSeq(item) == (s + item.gsoSize) % TWO32
    ensures TcpPacketsCanCoalesce(x, info, item, target) == Append <==> R.Continues(parts, x)
    ensures TcpPacketsCanCoalesce(x, info, item, target) == Prepend <==> R.LeadsTo(parts, x)
  {
    OrderReads(parts, x, item.key, HeadersLen(item), s, item.pshSet, info.seqNum, info.psh, item.sentSeq, o,
      item.gsoSize, info.gsoSize);
    ModeByNumbers(x, info, item, target, |parts[|parts| - 1]| == |parts[0]|, s, R.Continues(parts, x),
      R.LeadsTo(parts, x));
  }

  lemma AlikeModeIff(item: Item, target: seq<Byte>, parts: seq<seq<Byte>>, x: seq<Byte>, info: Info)
    requires Merged(item, target, parts) && item.TcpItem? && Parse(x, true) == Some(info) && info.key == item.key
    requires Comparable(item, target, info) && info.headersLen <= |x|
    requires R.Group(parts) && Wire.Joinable(x, true) && R.Alike(x, parts[0]) && SameHeaders(x, info, item, target)
    ensures TcpPacketsCanCoalesce(x, info, item, target) == Append <==> R.Continues(parts, x)
    ensures TcpPacketsCanCoalesce(x, info, item, target) == Prepend <==> R.LeadsTo(parts, x)
  {
    AllRead(item, target, parts, x, info);
    HeadNumbers(item, target, parts);
    LastIsFull(item, target, parts);
    if |parts[|parts| - 1]| == |parts[0]| { NextSeqIs(item, target, parts); }
    ModeByReads(parts, x, info, item, target, SeqOf(item, |parts| - 1), Pushes(parts[0]));
  }

  /** The test answers what the packets say, in both directions. */
  lemma TcpModeIff(item: Item, target: seq<Byte>, parts: seq<seq<Byte>>, x: seq<Byte>, info: Info)
    requires Merged(item, target, parts) && item.TcpItem? && Parse(x, true) == Some(info) && info.key == item.key
    requires Comparable(item, target, info) && info.headersLen <= |x|
    ensures R.Group(parts) && Wire.Joinable(x, true)
    ensures TcpPacketsCanCoalesce(x, info, item, target) == Append <==> R.Continues(parts, x)
    ensures TcpPacketsCanCoalesce(x, info, item, target) == Prepend <==> R.LeadsTo(parts, x)
  {
    HeadersIff(item, target, parts, x, info);
    if R.Alike(x, parts[0]) {
      AlikeModeIff(item, target, parts, x, info);
    } else {
      TcpModeIs(x, info, item, target);
    }
  }

  lemma UdpModeIff(item: Item, target: seq<Byte>, parts: seq<seq<Byte>>, x: seq<Byte>, info: Info)
    requires Merged(item, target, parts) && item.UdpItem? && Parse(x, true) == Some(info) && info.key == item.key
    requires Comparable(item, target, info) && info.headersLen <= |x|
    ensures R.Group(parts) && Wire.Joinable(x, true) && !R.LeadsTo(parts, x)
    ensures UdpPacketsCanCoalesce(x, info, item, target) == Append <==> R.Continues(parts, x)
  {
    HeadersIff(item, target, parts, x, info);
    LastIsFull(item, target, parts);
    AllRead(item, target, parts, x, info);
  }

  // ---------- the outcome ----------

  /** What the reference calls it. */
  function VerdictOf(mode: Mode, r: CoalesceResult): R.Verdict {
    if mode == Unavailable then R.Pass
    else
      match r
      case InsufficientCap | PshEnding => R.Pass
      case ItemInvalidCSum => R.Expel
      case PktInvalidCSum => R.Refuse
      case Success => if mode == Prepend then R.InFront else R.Behind
  }

  lemma LengthIs(item: Item, target: seq<Byte>, parts: seq<seq<Byte>>)
    requires Merged(item, target, parts)
    ensures R.Group(parts) && R.LengthOf(parts, Wire.BodyAt(parts[0])) == |target|
  {
    MergedIsGroup(item, target, parts);
    PartReads(item, target, parts, 0);
    LengthOfPayloads(parts, HeadersLen(item));
  }

  lemma ModeIff(item: Item, target: seq<Byte>, parts: seq<seq<Byte>>, x: seq<Byte>, info: Info)
    requires Merged(item, target, parts) && Parse(x, true) == Some(info) && info.key == item.key
    requires Comparable(item, target, info) && info.headersLen <= |x|
    ensures R.Group(parts) && Wire.Joinable(x, true)
    ensures ModeOf(x, info, item, target) == Append <==> R.Continues(parts, x)
    ensures ModeOf(x, info, item, target) == Prepend <==> R.LeadsTo(parts, x)
  {
    if item.TcpItem? { TcpModeIff(item, target, parts, x, info); } else { UdpModeIff(item, target, parts, x, info); }
  }

  /** The checksums of the two packets, as far as they are looked at. */
  lemma ChecksIff(item: Item, target: seq<Byte>, parts: seq<seq<Byte>>, x: seq<Byte>, info: Info)
    requires Merged(item, target, parts) && Parse(x, true) == Some(info) && info.key == item.key
    requires Wire.Joinable(x, true)
    ensures R.Group(parts) && |parts| == item.numMerged + 1
    ensures |parts| == 1 && !Wire.TransportSumHolds(parts[0])
        <==> item.numMerged == 0 && (KnownInvalid(item) || !TransportValid(target, item.key))
    ensures Wire.TransportSumHolds(x) <==> TransportValid(x, item.key)
  {
    AllRead(item, target, parts, x, info);
    ValidIff(x, item.key, info.headersLen, info.seqNum, info.psh);
    ValidIff(parts[0], item.key, HeadersLen(item), SeqOf(item, 0), Pushes(parts[0]));
  }

  lemma PrependNeedsNoPush(x: seq<Byte>, info: Info, item: Item, target: seq<Byte>)
    requires Comparable(item, target, info) && info.headersLen <= |x|
    requires ModeOf(x, info, item, target) == Prepend
    ensures !info.psh
  {
  }

  lemma CheckedByFacts(parts: seq<seq<Byte>>, x: Buf, info: Info, item: Item, target: Buf, mode: Mode, offset: nat)
    requires R.Group(parts) && Wire.Joinable(x.pkt, true) && mode != Unavailable && (mode == Prepend ==> !info.psh)
    requires |target.pkt| + |x.pkt| - info.headersLen <= (if mode == Prepend then x.room else target.room) - offset
    requires |parts| == 1 && !Wire.TransportSumHolds(parts[0])
        <==> item.numMerged == 0 && (KnownInvalid(item) || !TransportValid(target.pkt, item.key))
    requires Wire.TransportSumHolds(x.pkt) <==> TransportValid(x.pkt, item.key)
    ensures R.Checked(parts, x.pkt, if mode == Prepend then R.InFront else R.Behind)
        == VerdictOf(mode, ResultOf(mode, info, item, x, target, offset))
  {
  }

  /** `n` is the length of the merged packet. */
  lemma JudgeByMode(parts: seq<seq<Byte>>, x: seq<Byte>, mode: Mode, n: int, groupRoom: int, ownRoom: int)
    requires R.Group(parts) && Wire.Joinable(x, true)
    requires mode == Append <==> R.Continues(parts, x)
    requires mode == Prepend <==> R.LeadsTo(parts, x)
    requires R.LengthOf(parts, Wire.BodyAt(parts[0])) + Wire.Size(x) == n
    ensures R.Judge(parts, x, groupRoom, ownRoom)
        == if mode == Unavailable || n > (if mode == Prepend then ownRoom else groupRoom) then R.Pass
           else R.Checked(parts, x, if mode == Prepend then R.InFront else R.Behind)
  {
  }

  lemma JudgeByFacts(parts: seq<seq<Byte>>, x: Buf, info: Info, item: Item, target: Buf, mode: Mode, offset: nat)
    requires R.Group(parts) && Wire.Joinable(x.pkt, true)
    requires mode == Append <==> R.Continues(parts, x.pkt)
    requires mode == Prepend <==> R.LeadsTo(parts, x.pkt)
    requires mode == Prepend ==> !info.psh
    requires R.LengthOf(parts, Wire.BodyAt(parts[0])) == |target.pkt| && Wire.Size(x.pkt) == |x.pkt| - info.headersLen
    requires |parts| == 1 && !Wire.TransportSumHolds(parts[0])
        <==> item.numMerged == 0 && (KnownInvalid(item) || !TransportValid(target.pkt, item.key))
    requires Wire.TransportSumHolds(x.pkt) <==> TransportValid(x.pkt, item.key)
    ensures R.Judge(parts, x.pkt, target.room - offset, x.room - offset)
        == VerdictOf(mode, ResultOf(mode, info, item, x, target, offset))
  {
    var n := |target.pkt| + |x.pkt| - info.headersLen;
    JudgeByMode(parts, x.pkt, mode, n, target.room - offset, x.room - offset);
    if mode != Unavailable && n <= (if mode == Prepend then x.room else target.room) - offset {
      CheckedByFacts(parts, x, info, item, target, mode, offset);
    }
  }

  /** The code's outcome is the reference's. */
  lemma ResultIsVerdict(item: Item, parts: seq<seq<Byte>>, x: Buf, target: Buf, info: Info, offset: nat)
    requires Merged(item, target.pkt, parts) && Parse(x.pkt, true) == Some(info) && info.key == item.key
    requires Comparable(item, target.pkt, info) && info.headersLen <= |x.pkt|
    ensures var mode := ModeOf(x.pkt, info, item, target.pkt);
            && R.Group(parts) && Wire.Joinable(x.pkt, true)
            && R.Judge(parts, x.pkt, target.room - offset, x.room - offset)
                == VerdictOf(mode, ResultOf(mode, info, item, x, target, offset))
  {
    var mode := ModeOf(x.pkt, info, item, target.pkt);
    ModeIff(item, target.pkt, parts, x.pkt, info);
    LengthIs(item, target.pkt, parts);
    ChecksIff(item, target.pkt, parts, x.pkt, info);
    ParsedReads(x.pkt);
    if mode == Prepend { PrependNeedsNoPush(x.pkt, info, item, target.pkt); }
    JudgeByFacts(parts, x, info, item, target, mode, offset);
  }
}
