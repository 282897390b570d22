/**
 * The steps of GroState with the real notions put in: the packets as the parser reads them
 * and `Kept` as what it means for an item to hold its packets.
 */
module GroSteps {
  import opened Bytes
  import opened GroItems
  import opened GroState
  import opened Headers
  import opened Options

  function Infos(orig: seq<seq<Byte>>, canUdp: bool): (r: seq<Option<Info>>)
    ensures |r| == |orig| && forall i :: 0 <= i < |orig| ==> r[i] == Parse(orig[i], canUdp)
  {
    seq(|orig|, i requires 0 <= i < |orig| => Parse(orig[i], canUdp))
  }

  /** Packet `i`, valid and with room, took up the item's payload and then its place. */
  predicate Prepended(before: seq<Buf>, after: seq<Buf>, offset: nat, i: nat, info: Info, item: Item, item': Item) {
    && i < |before| && item.bufsIndex < |before| && item.TcpItem?
    && var x, target, h := before[i], before[item.bufsIndex], HeadersLen(item);
       && h <= |target.pkt| && |target.pkt| + |x.pkt| - h <= x.room - offset && !info.psh
       && TransportValid(x.pkt, item.key) && (item.numMerged == 0 ==> TransportValid(target.pkt, item.key))
       && item' == PrependItem(item, info)
       && after == before[item.bufsIndex := x.(pkt := PrependBytes(item, target.pkt, x.pkt))][i := target]
  }

  /** The item's buffer, with room, took up the payload of the valid packet `i`. */
  predicate Appended(before: seq<Buf>, after: seq<Buf>, offset: nat, i: nat, info: Info, item: Item, item': Item) {
    && i < |before| && item.bufsIndex < |before|
    && var x, target, h := before[i], before[item.bufsIndex], HeadersLen(item);
       && h <= |target.pkt| && h <= |x.pkt| && (item.TcpItem? ==> FlagsAt(item) < |target.pkt|)
       && |target.pkt| + |x.pkt| - h <= target.room - offset
       && TransportValid(x.pkt, item.key) && (item.numMerged == 0 ==> TransportValid(target.pkt, item.key))
       && item' == AppendItem(item, info.psh)
       && after == before[item.bufsIndex := target.(pkt := AppendBytes(item, target.pkt, x.pkt, info.psh))]
  }

  ghost predicate Real(v: View, canUdp: bool) {
    v.merged == Kept && v.infos == Infos(v.orig, canUdp)
  }

  lemma ParseMore(b: seq<Byte>, canUdp: bool)
    requires Parse(b, canUdp).Some?
    ensures Parse(b, true) == Parse(b, canUdp)
  {
  }

  /** The next packet, as it came, and what the parser reads from it. */
  ghost predicate Next(v: View, canUdp: bool, info: Info) {
    && Inv(v) && Real(v, canUdp) && |v.owner| < |v.bufs| && v.infos[|v.owner|] == Some(info)
  }

  lemma NextParses(v: View, canUdp: bool, info: Info)
    requires Next(v, canUdp, info)
    ensures v.bufs[|v.owner|].pkt == v.orig[|v.owner|] && Parse(v.bufs[|v.owner|].pkt, true) == Some(info)
  {
    assert PlainOk(v, |v.owner|);
    ParseMore(v.orig[|v.owner|], canUdp);
  }

  lemma EntersFresh(v: View, canUdp: bool, info: Info, bad: bool)
    requires Next(v, canUdp, info) && (bad ==> !TransportValid(v.bufs[|v.owner|].pkt, info.key))
    ensures info.iphLen <= info.headersLen && MayEnter(v, NewItem(info, |v.owner|, bad))
  {
    NextParses(v, canUdp, info);
    var n := |v.owner|;
    NewItemIsMerged(v.orig[n], n, bad);
    NewItemIsFlagged(v.orig[n], n, bad);
    PartsAppend(v.orig, [], n);
  }

  /** What an item in the table holds. */
  lemma Held(v: View, canUdp: bool, k: FlowKey, a: nat)
    requires Inv(v) && Real(v, canUdp) && k in v.flows && a < |v.flows[k]|
    ensures var it := v.flows[k][a];
            && Holding(v, k, it) && it.bufsIndex < |v.owner|
            && Kept(it, v.bufs[it.bufsIndex].pkt, Parts(v.orig, v.members[it.bufsIndex]), v.members[it.bufsIndex])
            && it.bufsIndex in v.members[it.bufsIndex] && it.bufsIndex < |v.orig|
            && forall x :: x in v.members[it.bufsIndex] ==> x < |v.owner|
  {
    assert ItemOk(v, k, a);
    var w := v.flows[k][a].bufsIndex;
    assert GroupOk(v, w) && OwnerOk(v, w);
  }

  /** So the packet can be compared with it. */
  predicate Comparable(it: Item, target: seq<Byte>, info: Info) {
    && it.TcpItem? == it.key.TcpKey? && it.gsoSize > 0 && it.iphLen == info.iphLen == IpLen(it.key.isV6)
    && HeadersLen(it) <= |target| && FlagsAt(it) <= HeadersLen(it)
    && (it.TcpItem? ==> info.iphLen + 20 <= info.headersLen && it.iphLen + 20 <= HeadersLen(it))
    && (it.UdpItem? ==> info.headersLen == HeadersLen(it) && !info.psh)
  }

  lemma HeldComparable(v: View, canUdp: bool, info: Info, a: nat)
    requires Next(v, canUdp, info) && info.key in v.flows && a < |v.flows[info.key]|
    ensures var it := v.flows[info.key][a];
            it.key == info.key && it.bufsIndex in v.members && it.bufsIndex < |v.owner| && it.bufsIndex < |v.bufs|
                && Comparable(it, v.bufs[it.bufsIndex].pkt, info)
    ensures info.headersLen <= |v.bufs[|v.owner|].pkt|
  {
    Held(v, canUdp, info.key, a);
    NextParses(v, canUdp, info);
    ParseBounds(v.bufs[|v.owner|].pkt, true);
  }

  lemma DropsInvalid(v: View, canUdp: bool, k: FlowKey, a: nat)
    requires Inv(v) && Real(v, canUdp) && k in v.flows && a < |v.flows[k]| && k.TcpKey? && v.flows[k][a].numMerged == 0
    ensures MayDrop(v, k, a)
  {
    Held(v, canUdp, k, a);
    var w := v.flows[k][a].bufsIndex;
    assert v.members[w] == [w];
    PartsAppend(v.orig, [], w);
  }

  lemma PrependJoins(v: View, canUdp: bool, info: Info, a: nat, it': Item, bufs': seq<Buf>, offset: nat)
    requires Next(v, canUdp, info) && info.key in v.flows && a < |v.flows[info.key]|
    requires var it := v.flows[info.key][a];
             && it.bufsIndex < |v.bufs| && Comparable(it, v.bufs[it.bufsIndex].pkt, info) && it.TcpItem?
                 && info.headersLen <= |v.bufs[|v.owner|].pkt|
             && TcpPacketsCanCoalesce(v.bufs[|v.owner|].pkt, info, it, v.bufs[it.bufsIndex].pkt) == Prepend
             && Prepended(v.bufs, bufs', offset, |v.owner|, info, it, it')
    requires v.bufs[|v.owner|].room <= MAX_UINT16 + offset
    ensures |bufs'| == |v.bufs| && it'.bufsIndex < |bufs'| && MayJoin(v, info.key, a, it', bufs'[it'.bufsIndex], true)
    ensures bufs' == v.bufs[it'.bufsIndex := bufs'[it'.bufsIndex]][|v.owner| := bufs'[|v.owner|]]
  {
    var n, it := |v.owner|, v.flows[info.key][a];
    var w := it.bufsIndex;
    Held(v, canUdp, info.key, a);
    NextParses(v, canUdp, info);
    var parts := Parts(v.orig, v.members[w]);
    TcpPrependMeans(it, v.bufs[w].pkt, parts, v.orig[n], info);
    SingleIsHead(v, canUdp, info.key, a);
    PrependKeeps(it, v.bufs[w].pkt, parts, v.orig[n], info);
    PrependBounds(it, parts, v.orig[n], info);
    PrependIsFlagged(it, v.bufs[w].pkt, v.members[w], v.orig[n], info, n);
    PartsAppend(v.orig, v.members[w], n);
  }

  /** With nothing merged yet, the buffer is the one part. */
  lemma SingleIsHead(v: View, canUdp: bool, k: FlowKey, a: nat)
    requires Inv(v) && Real(v, canUdp) && k in v.flows && a < |v.flows[k]|
    ensures var it := v.flows[k][a];
            && it.bufsIndex in v.members && it.bufsIndex < |v.bufs|
            && var parts := Parts(v.orig, v.members[it.bufsIndex]);
               |parts| == it.numMerged + 1 && (|parts| == 1 ==> parts[0] == v.bufs[it.bufsIndex].pkt)
  {
    Held(v, canUdp, k, a);
  }

  lemma AppendJoins(v: View, canUdp: bool, info: Info, a: nat, it': Item, bufs': seq<Buf>, offset: nat)
    requires Next(v, canUdp, info) && info.key in v.flows && a < |v.flows[info.key]|
    requires info.key.UdpKey? ==> a == |v.flows[info.key]| - 1
    requires var it := v.flows[info.key][a];
             && it.bufsIndex < |v.bufs| && Comparable(it, v.bufs[it.bufsIndex].pkt, info)
                 && info.headersLen <= |v.bufs[|v.owner|].pkt|
             && (if it.TcpItem? then TcpPacketsCanCoalesce(v.bufs[|v.owner|].pkt, info, it, v.bufs[it.bufsIndex].pkt)
                 else UdpPacketsCanCoalesce(v.bufs[|v.owner|].pkt, info, it, v.bufs[it.bufsIndex].pkt)) == Append
             && Appended(v.bufs, bufs', offset, |v.owner|, info, it, it')
                 && v.bufs[it.bufsIndex].room <= MAX_UINT16 + offset
    ensures |bufs'| == |v.bufs| && it'.bufsIndex < |bufs'| && MayJoin(v, info.key, a, it', bufs'[it'.bufsIndex], false)
    ensures bufs' == v.bufs[it'.bufsIndex := bufs'[it'.bufsIndex]][|v.owner| := bufs'[|v.owner|]]
  {
    var n, it := |v.owner|, v.flows[info.key][a];
    var w := it.bufsIndex;
    Held(v, canUdp, info.key, a);
    NextParses(v, canUdp, info);
    var parts := Parts(v.orig, v.members[w]);
    if it.TcpItem? {
      TcpAppendMeans(it, v.bufs[w].pkt, parts, v.orig[n], info);
    } else {
      UdpAppendMeans(it, v.bufs[w].pkt, parts, v.orig[n], info);
    }
    SingleIsHead(v, canUdp, info.key, a);
    AppendKeeps(it, v.bufs[w].pkt, parts, v.orig[n]);
    AppendIsFlagged(it, v.bufs[w].pkt, v.members[w], v.orig[n], info.psh, n);
    PartsAppend(v.orig, v.members[w], n);
  }
}
