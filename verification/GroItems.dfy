/**
 * The items of the GRO tables (tun/offload_linux.go): when a packet may join one, and what
 * a merged packet is. `Merged` ties an item and its buffer to the packets that went in.
 */
module GroItems {
  import opened Bytes
  import opened Headers
  import opened Options
  import opened Segments

  datatype Item =
    | TcpItem(key: FlowKey, bufsIndex: nat, numMerged: nat, gsoSize: nat, iphLen: nat, sentSeq: U32, tcphLen: nat,
        pshSet: bool)
    | UdpItem(key: FlowKey, bufsIndex: nat, numMerged: nat, gsoSize: nat, iphLen: nat, cSumKnownInvalid: bool)

  function HeadersLen(item: Item): nat {
    item.iphLen + if item.TcpItem? then item.tcphLen else UDP_HEADER_LEN
  }

  /** The item of a packet that no other has joined yet. */
  function NewItem(info: Info, i: nat, cSumKnownInvalid: bool): Item
    requires info.iphLen <= info.headersLen
  {
    if info.key.TcpKey? then TcpItem(info.key, i, 0, info.gsoSize, info.iphLen, info.seqNum,
        info.headersLen - info.iphLen, info.psh)
    else UdpItem(info.key, i, 0, info.gsoSize, info.iphLen, cSumKnownInvalid)
  }

  datatype Mode = Unavailable | Append | Prepend

  function TcpPacketsCanCoalesce(pkt: seq<Byte>, info: Info, item: Item, target: seq<Byte>): Mode
    requires item.TcpItem? && item.gsoSize > 0 && info.iphLen == item.iphLen
        && info.iphLen + 20 <= info.headersLen <= |pkt|
    requires HeadersLen(item) <= |target|
  {
    var tcphLen := info.headersLen - info.iphLen;
    if tcphLen != item.tcphLen then Unavailable
    else if tcphLen > 20 && pkt[info.iphLen + 20..info.headersLen] != target[item.iphLen + 20..info.headersLen] then
         Unavailable
    else if !IpHeadersCanCoalesce(pkt, target) then Unavailable
    else
      var lhsLen := (item.gsoSize + Times(item.numMerged, item.gsoSize) % 0x1_0000) % 0x1_0000;
      if info.seqNum == (item.sentSeq + lhsLen) % TWO32 then
        if item.pshSet then Unavailable
        else if (|target| - info.headersLen) % item.gsoSize != 0 then Unavailable
        else if info.gsoSize > item.gsoSize then Unavailable
        else Append
      else if (info.seqNum + info.gsoSize) % TWO32 == item.sentSeq then
        if info.psh then Unavailable
        else if info.gsoSize < item.gsoSize then Unavailable
        else if info.gsoSize > item.gsoSize && item.numMerged > 0 then Unavailable
        else Prepend
      else Unavailable
  }

  function UdpPacketsCanCoalesce(pkt: seq<Byte>, info: Info, item: Item, target: seq<Byte>): Mode
    requires item.UdpItem? && item.gsoSize > 0 && info.headersLen <= |target|
  {
    if !IpHeadersCanCoalesce(pkt, target) then Unavailable
    else if (|target| - info.headersLen) % item.gsoSize != 0 then Unavailable
    else if info.gsoSize > item.gsoSize then Unavailable
    else Append
  }

  // ---------- what a merged packet is ----------

  /** Equal in all that merging compares: IP header class and TCP options. */
  predicate Like(a: seq<Byte>, b: seq<Byte>, key: FlowKey, h: nat) {
    && h <= |a| && h <= |b| && IpHeadersCanCoalesce(a, b)
    && (key.TcpKey? ==> IpLen(key.isV6) + 20 <= h && a[IpLen(key.isV6) + 20..h] == b[IpLen(key.isV6) + 20..h])
  }

  /** The packet belongs to the flow, has `h` header bytes and carries this sequence number. */
  predicate InFlow(part: seq<Byte>, key: FlowKey, h: nat, seqNum: U32) {
    && Parse(part, true).Some?
    && var r := Parse(part, true).value;
       r.key == key && r.headersLen == h && (key.TcpKey? ==> r.seqNum == seqNum)
  }

  predicate Pushes(part: seq<Byte>) {
    Parse(part, true).Some? && Parse(part, true).value.psh
  }

  predicate TransportValid(part: seq<Byte>, key: FlowKey) {
    IpLen(key.isV6) <= |part| && ChecksumValid(part, IpLen(key.isV6), Protocol(key), key.isV6)
  }

  function FlagsAt(item: Item): nat {
    if item.TcpItem? then item.iphLen + FLAGS_AT else HeadersLen(item)
  }

  /** The sequence number of part j: its predecessors carry `gsoSize` bytes each. */
  function SeqOf(item: Item, j: nat): U32 {
    if item.TcpItem? then (item.sentSeq + Times(j, item.gsoSize)) % TWO32 else 0
  }

  predicate PartOk(item: Item, parts: seq<seq<Byte>>, j: nat) {
    j < |parts| ==>
      && InFlow(parts[j], item.key, HeadersLen(item), SeqOf(item, j))
      && Like(parts[j], parts[0], item.key, HeadersLen(item))
      && (|parts| > 1 ==> TransportValid(parts[j], item.key))
      && (j < |parts| - 1 ==> !Pushes(parts[j]))
  }

  predicate SameHeader(pkt: seq<Byte>, head: seq<Byte>, h: nat, flagsAt: nat) {
    h <= |pkt| && h <= |head| && forall k :: 0 <= k < h && k != flagsAt ==> pkt[k] == head[k]
  }

  /**
   * `pkt` is what `parts`, in sequence order, have been merged into: the first one's header
   * (its flags byte may have gained PSH), then all their payloads.
   */
  ghost predicate Merged(item: Item, pkt: seq<Byte>, parts: seq<seq<Byte>>) {
    Shape(item, pkt, parts) && PartsOk(item, parts)
  }

  ghost predicate PartsOk(item: Item, parts: seq<seq<Byte>>) {
    forall j: nat :: PartOk(item, parts, j)
  }

  ghost predicate Shape(item: Item, pkt: seq<Byte>, parts: seq<seq<Byte>>) {
    Body(pkt, parts, HeadersLen(item), item.gsoSize) && Heading(item, pkt, parts)
  }

  ghost predicate Body(pkt: seq<Byte>, parts: seq<seq<Byte>>, h: nat, g: nat) {
    Cut(parts, h, g) && h <= |pkt| <= MAX_UINT16 && pkt[h..] == Payloads(parts, h)
  }

  ghost predicate Heading(item: Item, pkt: seq<Byte>, parts: seq<seq<Byte>>) {
    && item.TcpItem? == item.key.TcpKey? && item.iphLen == IpLen(item.key.isV6)
    && |parts| == item.numMerged + 1 && |parts[0]| == HeadersLen(item) + item.gsoSize
    && SameHeader(pkt, parts[0], HeadersLen(item), FlagsAt(item))
    && (item.TcpItem? ==>
          && 20 <= item.tcphLen <= 60 && item.pshSet == Pushes(parts[|parts| - 1])
          && (pkt[FlagsAt(item)] == ACK || pkt[FlagsAt(item)] == ACK + PSH))
    && (|parts| == 1 ==> pkt == parts[0] && (KnownInvalid(item) ==> !TransportValid(pkt, item.key)))
  }

  predicate KnownInvalid(item: Item) {
    item.UdpItem? && item.cSumKnownInvalid
  }

  // ---------- a packet alone ----------

  lemma NewItemIsMerged(pkt: seq<Byte>, i: nat, bad: bool)
    requires Parse(pkt, true).Some? && (bad ==> !TransportValid(pkt, Parse(pkt, true).value.key))
    ensures var info := Parse(pkt, true).value;
            info.iphLen <= info.headersLen && Merged(NewItem(info, i, bad), pkt, [pkt])
  {
    ParseBounds(pkt, true);
    NewItemShape(pkt, i, bad);
    NewItemParts(pkt, i, bad);
  }

  lemma NewItemParts(pkt: seq<Byte>, i: nat, bad: bool)
    requires Parse(pkt, true).Some? && Parse(pkt, true).value.iphLen <= Parse(pkt, true).value.headersLen
    ensures PartsOk(NewItem(Parse(pkt, true).value, i, bad), [pkt])
  {
    var item := NewItem(Parse(pkt, true).value, i, bad);
    TimesNext(0, item.gsoSize);
    SelfLike(pkt);
    ParseBounds(pkt, true);
    assert PartOk(item, [pkt], 0);
    forall j: nat ensures PartOk(item, [pkt], j) {}
  }

  lemma NewItemShape(pkt: seq<Byte>, i: nat, bad: bool)
    requires Parse(pkt, true).Some? && Parse(pkt, true).value.iphLen <= Parse(pkt, true).value.headersLen
    requires bad ==> !TransportValid(pkt, Parse(pkt, true).value.key)
    ensures Shape(NewItem(Parse(pkt, true).value, i, bad), pkt, [pkt])
  {
    ParseBounds(pkt, true);
    var info := Parse(pkt, true).value;
    if info.key.TcpKey? { ParseFlags(pkt); }
    AloneBody(pkt, info.headersLen, info.gsoSize);
    AloneHeading(NewItem(info, i, bad), pkt);
  }

  lemma AloneBody(pkt: seq<Byte>, h: nat, g: nat)
    requires |pkt| == h + g <= MAX_UINT16 && g > 0
    ensures Body(pkt, [pkt], h, g)
  {
    PayloadsAppend([], h, pkt);
    assert [] + [pkt] == [pkt];
  }

  lemma AloneHeading(item: Item, pkt: seq<Byte>)
    requires item.TcpItem? == item.key.TcpKey? && item.iphLen == IpLen(item.key.isV6) && item.numMerged == 0
        && HeadersLen(item) + item.gsoSize == |pkt| && (KnownInvalid(item) ==> !TransportValid(pkt, item.key))
    requires item.TcpItem? ==> 20 <= item.tcphLen <= 60 && item.pshSet == Pushes(pkt)
                               && pkt[FlagsAt(item)] == if item.pshSet then ACK + PSH else ACK
    ensures Heading(item, pkt, [pkt])
  {
  }

  lemma SelfLike(pkt: seq<Byte>)
    requires Parse(pkt, true).Some?
    ensures var r := Parse(pkt, true).value; Like(pkt, pkt, r.key, r.headersLen)
  {
    ParseBounds(pkt, true);
  }

  lemma ParseFlags(pkt: seq<Byte>)
    requires Parse(pkt, true).Some? && Parse(pkt, true).value.key.TcpKey?
    ensures var at := Parse(pkt, true).value.iphLen + FLAGS_AT;
            at < |pkt| && pkt[at] == if Parse(pkt, true).value.psh then ACK + PSH else ACK
  {
  }

  // ---------- appending ----------

  function SetPsh(flags: Byte): Byte {
    if flags / 8 % 2 == 1 then flags else flags + PSH
  }

  function AppendItem(item: Item, psh: bool): Item {
    if item.TcpItem? then item.(numMerged := item.numMerged + 1, pshSet := item.pshSet || psh)
    else UdpItem(item.key, item.bufsIndex, item.numMerged + 1, item.gsoSize, item.iphLen, item.cSumKnownInvalid)
  }

  function AppendBytes(item: Item, target: seq<Byte>, x: seq<Byte>, psh: bool): seq<Byte>
    requires HeadersLen(item) <= |x| && (item.TcpItem? ==> FlagsAt(item) < |target|)
  {
    (if item.TcpItem? && psh then target[FlagsAt(item) := SetPsh(target[FlagsAt(item)])]
        else target) + x[HeadersLen(item)..]
  }

  lemma FullLength(item: Item, target: seq<Byte>, parts: seq<seq<Byte>>)
    requires Merged(item, target, parts)
    ensures |target| - HeadersLen(item) == Total(parts, HeadersLen(item), item.gsoSize)
    ensures (|target| - HeadersLen(item)) % item.gsoSize == 0
        ==> Total(parts, HeadersLen(item), item.gsoSize) == Times(|parts|, item.gsoSize)
  {
    PayloadsLength(parts, HeadersLen(item), item.gsoSize);
    FullIffDivides(parts, HeadersLen(item), item.gsoSize);
  }

  /** The 16-bit length of what the item holds is exact whenever appending is possible. */
  lemma AdjacencyDoesNotWrap(item: Item, target: seq<Byte>, parts: seq<seq<Byte>>)
    requires Merged(item, target, parts) && (|target| - HeadersLen(item)) % item.gsoSize == 0
    ensures (item.gsoSize + Times(item.numMerged, item.gsoSize) % 0x1_0000) % 0x1_0000 == Times(|parts|, item.gsoSize)
  {
    FullLength(item, target, parts);
    TimesNext(item.numMerged, item.gsoSize);
    SumFits(item.gsoSize, Times(item.numMerged, item.gsoSize));
  }

  lemma SumFits(a: nat, b: nat)
    requires a + b < 0x1_0000
    ensures (a + b % 0x1_0000) % 0x1_0000 == a + b
  {
  }

  lemma LikeHead(x: seq<Byte>, item: Item, target: seq<Byte>, parts: seq<seq<Byte>>)
    requires Merged(item, target, parts) && IpHeadersCanCoalesce(x, target) && HeadersLen(item) <= |x|
    requires item.TcpItem? ==> x[item.iphLen + 20..HeadersLen(item)] == target[item.iphLen + 20..HeadersLen(item)]
    ensures Like(x, parts[0], item.key, HeadersLen(item))
  {
    var h := HeadersLen(item);
    if item.TcpItem? {
      assert target[item.iphLen + 20..h] == parts[0][item.iphLen + 20..h];
    }
  }

  ghost predicate MayAppend(item: Item, parts: seq<seq<Byte>>, x: seq<Byte>) {
    && |parts| >= 1 && Cut(parts, HeadersLen(item), item.gsoSize)
        && Total(parts, HeadersLen(item), item.gsoSize) % item.gsoSize == 0
    && InFlow(x, item.key, HeadersLen(item), SeqOf(item, |parts|))
    && Like(x, parts[0], item.key, HeadersLen(item))
    && HeadersLen(item) < |x| <= HeadersLen(item) + item.gsoSize
    && (item.TcpItem? ==> !item.pshSet)
  }

  lemma TcpAppendMeans(item: Item, target: seq<Byte>, parts: seq<seq<Byte>>, x: seq<Byte>, info: Info)
    requires Merged(item, target, parts) && item.TcpItem? && Parse(x, true) == Some(info) && info.key == item.key
    requires info.iphLen == item.iphLen && info.iphLen + 20 <= info.headersLen <= |x|
    requires TcpPacketsCanCoalesce(x, info, item, target) == Append
    ensures info.headersLen == HeadersLen(item) && MayAppend(item, parts, x)
  {
    ParseBounds(x, true);
    FullLength(item, target, parts);
    AdjacencyDoesNotWrap(item, target, parts);
    SameOptions(item, target, x, info);
    LikeHead(x, item, target, parts);
  }

  lemma SameOptions(item: Item, target: seq<Byte>, x: seq<Byte>, info: Info)
    requires item.TcpItem? && item.gsoSize > 0 && info.iphLen == item.iphLen
        && info.iphLen + 20 <= info.headersLen <= |x|
    requires HeadersLen(item) <= |target|
    requires TcpPacketsCanCoalesce(x, info, item, target) != Unavailable
    ensures info.headersLen == HeadersLen(item) && IpHeadersCanCoalesce(x, target)
    ensures x[item.iphLen + 20..HeadersLen(item)] == target[item.iphLen + 20..HeadersLen(item)]
  {
  }

  lemma UdpAppendMeans(item: Item, target: seq<Byte>, parts: seq<seq<Byte>>, x: seq<Byte>, info: Info)
    requires Merged(item, target, parts) && item.UdpItem? && Parse(x, true) == Some(info) && info.key == item.key
    requires info.headersLen <= |target| && UdpPacketsCanCoalesce(x, info, item, target) == Append
    ensures info.headersLen == HeadersLen(item) && MayAppend(item, parts, x)
  {
    ParseBounds(x, true);
    FullLength(item, target, parts);
    LikeHead(x, item, target, parts);
  }

  lemma UdpNeverPushes(part: seq<Byte>, key: FlowKey, h: nat, s: U32)
    requires InFlow(part, key, h, s) && key.UdpKey?
    ensures !Pushes(part)
  {
  }

  /** No part of an item that takes another at its end ends with PSH. */
  lemma NoPush(item: Item, target: seq<Byte>, parts: seq<seq<Byte>>, j: nat)
    requires Merged(item, target, parts) && j < |parts| && (item.TcpItem? ==> !item.pshSet)
    ensures !Pushes(parts[j])
  {
    assert PartOk(item, parts, j);
    if item.UdpItem? { UdpNeverPushes(parts[j], item.key, HeadersLen(item), SeqOf(item, j)); }
  }

  lemma AppendOldPart(item: Item, parts: seq<seq<Byte>>, x: seq<Byte>, psh: bool, j: nat)
    requires PartOk(item, parts, j) && j < |parts| && !Pushes(parts[j])
    requires |parts| == 1 ==> TransportValid(parts[0], item.key)
    ensures PartOk(AppendItem(item, psh), parts + [x], j)
  {
    var item' := AppendItem(item, psh);
    assert item'.key == item.key && HeadersLen(item') == HeadersLen(item) && SeqOf(item', j) == SeqOf(item, j);
  }

  lemma AppendNewPart(item: Item, parts: seq<seq<Byte>>, x: seq<Byte>, psh: bool)
    requires MayAppend(item, parts, x) && TransportValid(x, item.key)
    ensures PartOk(AppendItem(item, psh), parts + [x], |parts|)
  {
  }

  lemma AppendParts(item: Item, target: seq<Byte>, parts: seq<seq<Byte>>, x: seq<Byte>, psh: bool)
    requires Merged(item, target, parts) && MayAppend(item, parts, x)
    requires TransportValid(x, item.key) && (|parts| == 1 ==> TransportValid(parts[0], item.key))
    ensures PartsOk(AppendItem(item, psh), parts + [x])
  {
    forall j: nat ensures PartOk(AppendItem(item, psh), parts + [x], j) {
      if j < |parts| {
        assert PartOk(item, parts, j);
        NoPush(item, target, parts, j);
        AppendOldPart(item, parts, x, psh, j);
      } else if j == |parts| {
        AppendNewPart(item, parts, x, psh);
      }
    }
  }

  lemma AppendBody(pkt: seq<Byte>, parts: seq<seq<Byte>>, h: nat, g: nat, x: seq<Byte>, pkt': seq<Byte>)
    requires Body(pkt, parts, h, g) && Total(parts, h, g) % g == 0 && h < |x| <= h + g
    requires h <= |pkt'| <= MAX_UINT16 && pkt'[h..] == pkt[h..] + x[h..]
    ensures Body(pkt', parts + [x], h, g)
  {
    CutAppend(parts, h, g, x);
    PayloadsAppend(parts, h, x);
  }

  lemma AppendShape(item: Item, target: seq<Byte>, parts: seq<seq<Byte>>, x: seq<Byte>)
    requires Shape(item, target, parts) && MayAppend(item, parts, x)
    requires |target| + |x| - HeadersLen(item) <= MAX_UINT16
    ensures Shape(AppendItem(item, Pushes(x)), AppendBytes(item, target, x, Pushes(x)), parts + [x])
  {
    var r := AppendBytes(item, target, x, Pushes(x));
    AppendedBytes(item, target, x, Pushes(x));
    AppendBody(target, parts, HeadersLen(item), item.gsoSize, x, r);
    AppendHeading(item, target, parts, x, r);
  }

  lemma AppendHeading(item: Item, target: seq<Byte>, parts: seq<seq<Byte>>, x: seq<Byte>, r: seq<Byte>)
    requires Heading(item, target, parts) && MayAppend(item, parts, x)
    requires SameHeader(r, target, HeadersLen(item), FlagsAt(item))
    requires item.TcpItem? ==> FlagsAt(item) < |r| && (r[FlagsAt(item)] == ACK || r[FlagsAt(item)] == ACK + PSH)
    ensures Heading(AppendItem(item, Pushes(x)), r, parts + [x])
  {
    assert (parts + [x])[0] == parts[0] && (parts + [x])[|parts|] == x;
  }

  lemma AppendKeeps(item: Item, target: seq<Byte>, parts: seq<seq<Byte>>, x: seq<Byte>)
    requires Merged(item, target, parts) && MayAppend(item, parts, x)
    requires TransportValid(x, item.key) && (|parts| == 1 ==> TransportValid(parts[0], item.key))
    requires |target| + |x| - HeadersLen(item) <= MAX_UINT16
    ensures Merged(AppendItem(item, Pushes(x)), AppendBytes(item, target, x, Pushes(x)), parts + [x])
  {
    AppendShape(item, target, parts, x);
    AppendParts(item, target, parts, x, Pushes(x));
  }

  lemma AppendedBytes(item: Item, target: seq<Byte>, x: seq<Byte>, psh: bool)
    requires HeadersLen(item) <= |x| && HeadersLen(item) <= |target|
        && (item.TcpItem? ==> FlagsAt(item) < HeadersLen(item))
    requires item.TcpItem? ==> target[FlagsAt(item)] == ACK || target[FlagsAt(item)] == ACK + PSH
    ensures var r, h := AppendBytes(item, target, x, psh), HeadersLen(item);
            && |r| == |target| + |x| - h && r[h..] == target[h..] + x[h..] && SameHeader(r, target, h, FlagsAt(item))
            && (item.TcpItem? ==> r[FlagsAt(item)] == ACK || r[FlagsAt(item)] == ACK + PSH)
  {
  }

  // ---------- prepending ----------

  function PrependItem(item: Item, info: Info): Item
    requires item.TcpItem?
  {
    item.(numMerged := item.numMerged + 1, sentSeq := info.seqNum, gsoSize := if info.gsoSize > item.gsoSize then
        info.gsoSize else item.gsoSize)
  }

  function PrependBytes(item: Item, target: seq<Byte>, x: seq<Byte>): seq<Byte>
    requires HeadersLen(item) <= |target|
  {
    x + target[HeadersLen(item)..]
  }

  ghost predicate MayPrepend(item: Item, parts: seq<seq<Byte>>, x: seq<Byte>) {
    && item.TcpItem? && |parts| >= 1 && Parse(x, true).Some?
    && var r := Parse(x, true).value;
       && r.key == item.key && r.headersLen == HeadersLen(item) && !r.psh
       && (r.seqNum + r.gsoSize) % TWO32 == item.sentSeq
       && (r.gsoSize == item.gsoSize || (r.gsoSize > item.gsoSize && |parts| == 1))
       && Like(x, parts[0], item.key, HeadersLen(item))
  }

  lemma TcpPrependMeans(item: Item, target: seq<Byte>, parts: seq<seq<Byte>>, x: seq<Byte>, info: Info)
    requires Merged(item, target, parts) && item.TcpItem? && Parse(x, true) == Some(info) && info.key == item.key
    requires info.iphLen == item.iphLen && info.iphLen + 20 <= info.headersLen <= |x|
    requires TcpPacketsCanCoalesce(x, info, item, target) == Prepend
    ensures info.headersLen == HeadersLen(item) && MayPrepend(item, parts, x)
  {
    SameOptions(item, target, x, info);
    LikeHead(x, item, target, parts);
  }

  /** The version field says which key the packet has. */
  predicate Versioned(x: seq<Byte>, key: FlowKey) {
    |x| >= 28 && (x[0] / 16 == 6 <==> key.isV6)
  }

  lemma LikeTurns(x: seq<Byte>, head: seq<Byte>, part: seq<Byte>, key: FlowKey, h: nat)
    requires Like(x, head, key, h) && Like(part, head, key, h) && Versioned(x, key) && Versioned(part, key)
    ensures Like(part, x, key, h)
  {
  }

  lemma ParseVersion(x: seq<Byte>)
    requires Parse(x, true).Some?
    ensures Versioned(x, Parse(x, true).value.key)
  {
  }

  lemma SeqShifts(item: Item, info: Info, j: nat)
    requires item.TcpItem? && (info.seqNum + info.gsoSize) % TWO32 == item.sentSeq
    requires info.gsoSize == item.gsoSize || (info.gsoSize > item.gsoSize && j == 0)
    ensures SeqOf(PrependItem(item, info), j + 1) == SeqOf(item, j)
  {
    TimesNext(j, item.gsoSize);
    TimesNext(0, info.gsoSize);
    AddMod(info.seqNum + info.gsoSize, Times(j, item.gsoSize));
  }

  lemma AddMod(x: nat, t: nat)
    ensures (x % TWO32 + t) % TWO32 == (x + t) % TWO32
  {
  }

  lemma PrependFirstPart(item: Item, parts: seq<seq<Byte>>, x: seq<Byte>, info: Info)
    requires item.TcpItem? && InFlow(x, item.key, HeadersLen(item), info.seqNum)
        && Like(x, x, item.key, HeadersLen(item))
    requires TransportValid(x, item.key) && !Pushes(x)
    ensures PartOk(PrependItem(item, info), [x] + parts, 0)
  {
    TimesNext(0, if info.gsoSize > item.gsoSize then info.gsoSize else item.gsoSize);
    assert SeqOf(PrependItem(item, info), 0) == info.seqNum;
    FirstPart(PrependItem(item, info), [x] + parts);
  }

  lemma FirstPart(item: Item, parts: seq<seq<Byte>>)
    requires parts != [] && InFlow(parts[0], item.key, HeadersLen(item), SeqOf(item, 0))
    requires Like(parts[0], parts[0], item.key, HeadersLen(item)) && TransportValid(parts[0], item.key)
        && !Pushes(parts[0])
    ensures PartOk(item, parts, 0)
  {
  }

  lemma PrependOldPart(item: Item, parts: seq<seq<Byte>>, x: seq<Byte>, info: Info, j: nat)
    requires PartOk(item, parts, j) && j < |parts| && item.TcpItem?
    requires SeqOf(PrependItem(item, info), j + 1) == SeqOf(item, j) && Like(parts[j], x, item.key, HeadersLen(item))
    requires |parts| == 1 ==> TransportValid(parts[0], item.key)
    ensures PartOk(PrependItem(item, info), [x] + parts, j + 1)
  {
    assert ([x] + parts)[j + 1] == parts[j];
  }

  lemma PrependLaterPart(item: Item, parts: seq<seq<Byte>>, x: seq<Byte>, info: Info, j: nat)
    requires PartOk(item, parts, j) && j < |parts| && item.TcpItem?
        && (info.seqNum + info.gsoSize) % TWO32 == item.sentSeq
    requires info.gsoSize == item.gsoSize || (info.gsoSize > item.gsoSize && |parts| == 1)
    requires Like(x, parts[0], item.key, HeadersLen(item)) && Versioned(x, item.key)
    requires |parts| == 1 ==> TransportValid(parts[0], item.key)
    ensures PartOk(PrependItem(item, info), [x] + parts, j + 1)
  {
    SeqShifts(item, info, j);
    ParseVersion(parts[j]);
    LikeTurns(x, parts[0], parts[j], item.key, HeadersLen(item));
    PrependOldPart(item, parts, x, info, j);
  }

  lemma PrependedFirst(item: Item, parts: seq<seq<Byte>>, x: seq<Byte>, info: Info)
    requires MayPrepend(item, parts, x) && Parse(x, true) == Some(info) && TransportValid(x, item.key)
    ensures PartOk(PrependItem(item, info), [x] + parts, 0)
  {
    SelfLike(x);
    PrependFirstPart(item, parts, x, info);
  }

  lemma PrependedLater(item: Item, parts: seq<seq<Byte>>, x: seq<Byte>, info: Info, j: nat)
    requires PartOk(item, parts, j) && j < |parts| && MayPrepend(item, parts, x) && Parse(x, true) == Some(info)
    requires |parts| == 1 ==> TransportValid(parts[0], item.key)
    ensures PartOk(PrependItem(item, info), [x] + parts, j + 1)
  {
    ParseVersion(x);
    PrependLaterPart(item, parts, x, info, j);
  }

  lemma PrependedAt(item: Item, parts: seq<seq<Byte>>, x: seq<Byte>, info: Info, j: nat)
    requires (j > 0 ==> PartOk(item, parts, j - 1)) && MayPrepend(item, parts, x) && Parse(x, true) == Some(info)
    requires TransportValid(x, item.key) && (|parts| == 1 ==> TransportValid(parts[0], item.key))
    ensures PartOk(PrependItem(item, info), [x] + parts, j)
  {
    if j == 0 {
      PrependedFirst(item, parts, x, info);
    } else if j <= |parts| {
      PrependedLater(item, parts, x, info, j - 1);
    }
  }

  lemma PrependParts(item: Item, parts: seq<seq<Byte>>, x: seq<Byte>, info: Info)
    requires PartsOk(item, parts) && MayPrepend(item, parts, x) && Parse(x, true) == Some(info)
    requires TransportValid(x, item.key) && (|parts| == 1 ==> TransportValid(parts[0], item.key))
    ensures PartsOk(PrependItem(item, info), [x] + parts)
  {
    forall j: nat ensures PartOk(PrependItem(item, info), [x] + parts, j) {
      assert j > 0 ==> PartOk(item, parts, j - 1);
      PrependedAt(item, parts, x, info, j);
    }
  }

  lemma PrependBody(pkt: seq<Byte>, parts: seq<seq<Byte>>, h: nat, g: nat, x: seq<Byte>)
    requires Body(pkt, parts, h, g) && (|x| == h + g || (|parts| == 1 && |x| > h + g))
    requires |x| + |pkt| - h <= MAX_UINT16
    ensures Body(x + pkt[h..], [x] + parts, h, |x| - h)
  {
    CutPrepend(x, parts, h, g);
    PayloadsPrepend(x, parts, h);
    assert (x + pkt[h..])[h..] == x[h..] + pkt[h..];
  }

  lemma PrependHeading(item: Item, target: seq<Byte>, parts: seq<seq<Byte>>, x: seq<Byte>, info: Info)
    requires Heading(item, target, parts) && parts != [] && item.TcpItem? && HeadersLen(item) <= |target|
    requires |x| == HeadersLen(item) + info.gsoSize && info.gsoSize >= item.gsoSize && x[FlagsAt(item)] == ACK
    ensures Heading(PrependItem(item, info), PrependBytes(item, target, x), [x] + parts)
  {
    assert ([x] + parts)[0] == x && ([x] + parts)[|parts|] == parts[|parts| - 1];
  }

  lemma PrependShape(item: Item, target: seq<Byte>, parts: seq<seq<Byte>>, x: seq<Byte>, info: Info)
    requires Shape(item, target, parts) && item.TcpItem? && |x| == HeadersLen(item) + info.gsoSize
        && x[FlagsAt(item)] == ACK
    requires info.gsoSize == item.gsoSize || (info.gsoSize > item.gsoSize && |parts| == 1)
    requires |x| + |target| - HeadersLen(item) <= MAX_UINT16
    ensures Shape(PrependItem(item, info), PrependBytes(item, target, x), [x] + parts)
  {
    PrependBody(target, parts, HeadersLen(item), item.gsoSize, x);
    PrependHeading(item, target, parts, x, info);
    assert PrependItem(item, info).gsoSize == |x| - HeadersLen(item);
  }

  lemma PrependBounds(item: Item, parts: seq<seq<Byte>>, x: seq<Byte>, info: Info)
    requires MayPrepend(item, parts, x) && Parse(x, true) == Some(info) && item.key.TcpKey?
        && item.iphLen == IpLen(item.key.isV6)
    ensures |x| == HeadersLen(item) + info.gsoSize && FlagsAt(item) < |x| && x[FlagsAt(item)] == ACK
    ensures info.gsoSize == item.gsoSize || (info.gsoSize > item.gsoSize && |parts| == 1)
  {
    ParseBounds(x, true);
    ParseFlags(x);
  }

  lemma PrependKeeps(item: Item, target: seq<Byte>, parts: seq<seq<Byte>>, x: seq<Byte>, info: Info)
    requires Merged(item, target, parts) && MayPrepend(item, parts, x) && Parse(x, true) == Some(info)
    requires TransportValid(x, item.key) && (|parts| == 1 ==> TransportValid(parts[0], item.key))
    requires |x| + |target| - HeadersLen(item) <= MAX_UINT16
    ensures Merged(PrependItem(item, info), PrependBytes(item, target, x), [x] + parts)
  {
    PrependBounds(item, parts, x, info);
    PrependShape(item, target, parts, x, info);
    PrependParts(item, parts, x, info);
  }

  // ---------- PSH ----------

  /** `idx` says which packet of the batch each part is: the last part is the latest of them. */
  predicate ArrivedLast(idx: seq<nat>) {
    idx != [] && forall x :: x in idx ==> x <= idx[|idx| - 1]
  }

  /** The merged header carries PSH just when the last part does and nothing was prepended after it. */
  predicate Flagged(item: Item, pkt: seq<Byte>, idx: seq<nat>) {
    item.TcpItem? ==>
      FlagsAt(item) < |pkt| && pkt[FlagsAt(item)] == if item.pshSet && ArrivedLast(idx) then ACK + PSH else ACK
  }

  /** What an item is in the table: the merge of its packets, with the flags their arrival made. */
  ghost predicate Kept(item: Item, pkt: seq<Byte>, parts: seq<seq<Byte>>, idx: seq<nat>) {
    Merged(item, pkt, parts) && |idx| == |parts| && Flagged(item, pkt, idx)
  }

  lemma NewItemIsFlagged(pkt: seq<Byte>, i: nat, bad: bool)
    requires Parse(pkt, true).Some? && Parse(pkt, true).value.iphLen <= Parse(pkt, true).value.headersLen
    ensures Flagged(NewItem(Parse(pkt, true).value, i, bad), pkt, [i])
  {
    ParseBounds(pkt, true);
    if Parse(pkt, true).value.key.TcpKey? { ParseFlags(pkt); }
  }

  lemma AppendIsFlagged(item: Item, target: seq<Byte>, idx: seq<nat>, x: seq<Byte>, psh: bool, n: nat)
    requires Flagged(item, target, idx) && HeadersLen(item) <= |x| && (item.TcpItem? ==> !item.pshSet)
    requires forall y :: y in idx ==> y < n
    ensures Flagged(AppendItem(item, psh), AppendBytes(item, target, x, psh), idx + [n])
  {
    assert ArrivedLast(idx + [n]);
  }

  lemma PrependIsFlagged(item: Item, target: seq<Byte>, idx: seq<nat>, x: seq<Byte>, info: Info, n: nat)
    requires item.TcpItem? && HeadersLen(item) <= |target| && FlagsAt(item) < |x| && x[FlagsAt(item)] == ACK
    requires idx != [] && forall y :: y in idx ==> y < n
    ensures Flagged(PrependItem(item, info), PrependBytes(item, target, x), [n] + idx)
  {
    var more := [n] + idx;
    assert more[0] in more && idx[|idx| - 1] in idx && more[|more| - 1] == idx[|idx| - 1];
  }
}
