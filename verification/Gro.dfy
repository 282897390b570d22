/**
 * The GRO evaluation of tun/offload_linux.go: the flow tables, tcpGRO and udpGRO, which
 * update buffers and tables in place, and handleGRO, which runs them over a batch.
 */
module Gro {
  import opened Bytes
  import opened GroAccounting
  import opened GroItems
  import opened GroPlans
  import opened GroState
  import opened GroSteps
  import opened GroTries
  import opened GroVerdicts
  import opened Headers
  import opened Options
  import R = GroReference

  const IDEAL_BATCH_SIZE: nat := 128
  const VIRTIO_NET_HDR_LEN: nat := 10

  lemma KeyCount(m: map<FlowKey, seq<Item>>, k: FlowKey, items: seq<Item>)
    ensures |m[k := items]| == if k in m then |m| else |m| + 1
  {
    assert m[k := items].Keys == m.Keys + {k};
    assert |m| == |m.Keys| && |m[k := items]| == |m[k := items].Keys|;
  }

  lemma RemoveCount(m: map<FlowKey, seq<Item>>, k: FlowKey)
    requires k in m
    ensures |m - {k}| == |m| - 1
  {
    assert (m - {k}).Keys == m.Keys - {k};
    assert |m| == |m.Keys| && |m - {k}| == |(m - {k}).Keys|;
  }

  /** A tcpGROTable or udpGROTable; `itemsPool` counts the slices that wait for a flow. */
  class Table {
    var itemsByFlow: map<FlowKey, seq<Item>>
    var itemsPool: nat

    constructor ()
      ensures itemsByFlow == map[] && itemsPool == IDEAL_BATCH_SIZE
    {
      itemsByFlow, itemsPool := map[], IDEAL_BATCH_SIZE;
    }

    function Items(k: FlowKey): seq<Item>
      reads this
    {
      if k in itemsByFlow then itemsByFlow[k] else []
    }

    /** Each flow holds one slice of the pool; a new one needs one to be left. */
    method Insert(item: Item)
      requires item.key in itemsByFlow || itemsPool > 0
      modifies this
      ensures itemsByFlow == old(itemsByFlow)[item.key := old(Items(item.key)) + [item]]
      ensures itemsPool + |itemsByFlow| == old(itemsPool + |itemsByFlow|)
    {
      var items: seq<Item> := [];
      if item.key in itemsByFlow {
        items := itemsByFlow[item.key];
      } else {
        itemsPool := itemsPool - 1;
      }
      KeyCount(itemsByFlow, item.key, items + [item]);
      itemsByFlow := itemsByFlow[item.key := items + [item]];
    }

    method LookupOrInsert(item: Item) returns (items: seq<Item>, existing: bool)
      requires item.key in itemsByFlow || itemsPool > 0
      modifies this
      ensures existing == (item.key in old(itemsByFlow))
      ensures existing ==> itemsByFlow == old(itemsByFlow) && itemsPool == old(itemsPool)
                           && items == itemsByFlow[item.key]
      ensures !existing ==> itemsByFlow == old(itemsByFlow)[item.key := [item]]
      ensures itemsPool + |itemsByFlow| == old(itemsPool + |itemsByFlow|)
    {
      if item.key in itemsByFlow {
        return itemsByFlow[item.key], true;
      }
      assert Items(item.key) + [item] == [item];
      Insert(item);
      return [], false;
    }

    method UpdateAt(item: Item, i: nat)
      requires item.key in itemsByFlow && i < |itemsByFlow[item.key]|
      modifies this
      ensures itemsByFlow == old(itemsByFlow)[item.key := old(itemsByFlow)[item.key][i := item]]
      ensures itemsPool == old(itemsPool) && |itemsByFlow| == |old(itemsByFlow)|
    {
      KeyCount(itemsByFlow, item.key, itemsByFlow[item.key][i := item]);
      itemsByFlow := itemsByFlow[item.key := itemsByFlow[item.key][i := item]];
    }

    method DeleteAt(key: FlowKey, i: nat)
      requires key in itemsByFlow && i < |itemsByFlow[key]|
      modifies this
      ensures itemsByFlow == old(itemsByFlow)[key := Without(old(itemsByFlow)[key], i)]
      ensures itemsPool == old(itemsPool) && |itemsByFlow| == |old(itemsByFlow)|
    {
      KeyCount(itemsByFlow, key, Without(itemsByFlow[key], i));
      itemsByFlow := itemsByFlow[key := Without(itemsByFlow[key], i)];
    }

    /** Every slice returns to the pool. */
    method Reset()
      modifies this
      ensures itemsByFlow == map[] && itemsPool == old(itemsPool + |itemsByFlow|)
    {
      while itemsByFlow != map[]
        invariant itemsPool + |itemsByFlow| == old(itemsPool + |itemsByFlow|)
        decreases |itemsByFlow|
      {
        var k :| k in itemsByFlow;
        itemsPool := itemsPool + 1;
        RemoveCount(itemsByFlow, k);
        itemsByFlow := itemsByFlow - {k};
      }
    }
  }

  // ---------- the batch ----------

  datatype GroResult = Noop | TableInsert | Coalesced

  predicate KeysAre(m: map<FlowKey, seq<Item>>, tcp: bool) {
    forall k :: k in m ==> k.TcpKey? == tcp
  }

  /** The two packets have headers of one length, and what is appended is not larger. */
  predicate MayCoalesce(mode: Mode, info: Info, item: Item, x: seq<Byte>, target: seq<Byte>) {
    && mode != Unavailable && item.TcpItem? && item.iphLen == IpLen(item.key.isV6)
        && item.iphLen + 20 <= HeadersLen(item)
    && info.headersLen == HeadersLen(item) <= |x| && HeadersLen(item) <= |target|
    && (mode == Append ==> info.gsoSize <= item.gsoSize)
  }

  lemma CoalesceAllowed(mode: Mode, info: Info, item: Item, x: seq<Byte>, target: seq<Byte>)
    requires Comparable(item, target, info) && item.TcpItem? && info.headersLen <= |x|
    requires mode == TcpPacketsCanCoalesce(x, info, item, target) != Unavailable
    ensures MayCoalesce(mode, info, item, x, target)
  {
    SameOptions(item, target, x, info);
  }

  /** The item's buffer as the accounting leaves it. */
  ghost predicate FinishedAs(after: Buf, item: Item, before: Buf) {
    if item.numMerged > 0 then
      Fits(item, |before.pkt|) && after == before.(head := Encoded(HdrOf(item)), pkt := Accounted(item, before.pkt))
    else
      after == before.(head := Cleared)
  }

  /** Buffer `w` was finished for the item that tracks it, or left alone. */
  ghost predicate Settled(items: seq<Item>, before: Buf, after: Buf, w: nat) {
    || (exists a :: 0 <= a < |items| && items[a].bufsIndex == w && FinishedAs(after, items[a], before))
    || (!Tracked(items, w) && after == before)
  }

  /** The buffers of flow `k` carry packets of flow `k`. */
  ghost predicate FlowIndexed(m: map<FlowKey, seq<Item>>, infos: seq<Option<Info>>, bufs: seq<Buf>, k: FlowKey) {
    k in m ==> Indexed(m[k], bufs) && forall a :: 0 <= a < |m[k]| ==> KeyAt(infos, m[k][a].bufsIndex, k)
  }

  predicate KeyAt(infos: seq<Option<Info>>, w: nat, k: FlowKey) {
    w < |infos| && infos[w].Some? && infos[w].value.key == k
  }

  /** Buffer `w` is settled by its own flow, if that flow has been done. */
  ghost predicate SettledBy(m: map<FlowKey, seq<Item>>, infos: seq<Option<Info>>, todo: set<FlowKey>, before: Buf,
        after: Buf, w: nat) {
    if w < |infos| && infos[w].Some? && infos[w].value.key in m && infos[w].value.key !in todo
    then Settled(m[infos[w].value.key], before, after, w)
    else after == before
  }

  lemma StillIndexed(m: map<FlowKey, seq<Item>>, infos: seq<Option<Info>>, todo: set<FlowKey>, before: seq<Buf>,
        now: seq<Buf>, k: FlowKey)
    requires k in todo && todo <= m.Keys && FlowIndexed(m, infos, before, k) && |now| == |before|
    requires forall w :: 0 <= w < |now| ==> SettledBy(m, infos, todo, before[w], now[w], w)
    ensures Indexed(m[k], now)
  {
    forall a | 0 <= a < |m[k]| ensures ItemFits(m[k][a], now) {
      var w := m[k][a].bufsIndex;
      assert ItemFits(m[k][a], before) && KeyAt(infos, w, k);
      assert SettledBy(m, infos, todo, before[w], now[w], w);
    }
  }

  lemma FlowSettled(m: map<FlowKey, seq<Item>>, infos: seq<Option<Info>>, todo: set<FlowKey>, before: seq<Buf>,
        now: seq<Buf>, after: seq<Buf>, k: FlowKey, w: nat)
    requires k in todo && todo <= m.Keys && FlowIndexed(m, infos, before, k) && |after| == |now| == |before|
        && w < |now|
    requires SettledBy(m, infos, todo, before[w], now[w], w) && Settled(m[k], now[w], after[w], w)
    ensures SettledBy(m, infos, todo - {k}, before[w], after[w], w)
  {
    if !KeyAt(infos, w, k) {
      forall a | 0 <= a < |m[k]| ensures m[k][a].bufsIndex != w { assert KeyAt(infos, m[k][a].bufsIndex, k); }
    }
  }

  /** `offset` leaves room for the header and lies within each buffer. */
  predicate AllAcceptable(pkts: seq<seq<Byte>>, offset: nat) {
    forall i :: 0 <= i < |pkts| ==> offset >= VIRTIO_NET_HDR_LEN && pkts[i] != []
  }

  lemma AcceptableNext(pkts: seq<seq<Byte>>, offset: nat, i: nat)
    requires i < |pkts| && AllAcceptable(pkts[..i], offset)
    ensures if offset >= VIRTIO_NET_HDR_LEN && pkts[i] != [] then AllAcceptable(pkts[..i + 1], offset)
        else !AllAcceptable(pkts, offset)
    ensures pkts[..|pkts|] == pkts
  {
    assert forall k :: 0 <= k < i ==> pkts[..i][k] == pkts[k];
    assert AllAcceptable(pkts, offset) ==> offset >= VIRTIO_NET_HDR_LEN && pkts[i] != [];
  }

  lemma WholeBatch(pkts: seq<seq<Byte>>, i: nat)
    requires i == |pkts|
    ensures pkts[..i] == pkts
  {
  }

  /** What a written buffer is in the end. */
  ghost predicate Outcome(buf: Buf, parts: seq<seq<Byte>>, idx: seq<nat>) {
    || (buf.head == Cleared && parts == [buf.pkt])
    || (exists item: Item, pkt :: MergedOutcome(buf, parts, idx, item, pkt))
  }

  /** `idx` says which packets of the batch the parts are. */
  ghost predicate MergedOutcome(buf: Buf, parts: seq<seq<Byte>>, idx: seq<nat>, item: Item, pkt: seq<Byte>) {
    && item.numMerged > 0 && Kept(item, pkt, parts, idx) && Fits(item, |pkt|)
    && buf.head == Encoded(HdrOf(item)) && buf.pkt == Accounted(item, pkt)
  }

  lemma NextIsPlain(v: View)
    requires Inv(v) && |v.owner| < |v.bufs|
    ensures |v.owner| < |v.orig| && v.bufs[|v.owner|].pkt == v.orig[|v.owner|]
  {
    assert PlainOk(v, |v.owner|);
  }

  /** Conservation and order do not look into the buffers. */
  lemma BufsAside(s: View, t: View)
    requires Inv(s) && t == s.(bufs := t.bufs) && |t.bufs| == |s.bufs|
    ensures Conserved(t) && InOrder(t)
  {
    forall i: nat ensures OwnerOk(t, i) && GroupOk(t, i) { assert OwnerOk(s, i) && GroupOk(s, i); }
    forall k, w: nat ensures UdpOk(t, k, w) { assert UdpOk(s, k, w); }
    forall k, w: nat, x: nat ensures OrderOk(t, k, w, x) { assert OrderOk(s, k, w, x); }
    forall k ensures NonEmptyOk(t, k) { assert NonEmptyOk(s, k); }
  }

  lemma HeldFits(s: View, canUdp: bool, k: FlowKey, a: nat)
    requires Inv(s) && Real(s, canUdp) && k in s.flows && a < |s.flows[k]|
    ensures ItemFits(s.flows[k][a], s.bufs) && KeyAt(s.infos, s.flows[k][a].bufsIndex, k)
  {
    Held(s, canUdp, k, a);
    var it := s.flows[k][a];
    if it.numMerged > 0 { MergedFits(it, s.bufs[it.bufsIndex].pkt, Parts(s.orig, s.members[it.bufsIndex])); }
  }

  lemma FlowReady(s: View, canUdp: bool, k: FlowKey)
    requires Inv(s) && Real(s, canUdp)
    ensures FlowIndexed(s.flows, s.infos, s.bufs, k)
  {
    if k in s.flows {
      forall a | 0 <= a < |s.flows[k]| ensures ItemFits(s.flows[k][a], s.bufs)
          && KeyAt(s.infos, s.flows[k][a].bufsIndex, k) {
        HeldFits(s, canUdp, k, a);
      }
      forall a: nat, b: nat | a < b < |s.flows[k]| ensures s.flows[k][a].bufsIndex < s.flows[k][b].bufsIndex {
        assert SortedOk(s, k, a, b);
      }
    }
  }

  lemma ReadyToAccount(s: View, canUdp: bool, m: map<FlowKey, seq<Item>>, n: map<FlowKey, seq<Item>>)
    requires Inv(s) && Real(s, canUdp) && s.flows == m + n && KeysAre(m, true) && KeysAre(n, false)
    ensures |s.infos| == |s.bufs| && forall k :: FlowIndexed(m, s.infos, s.bufs, k)
                                                 && FlowIndexed(n, s.infos, s.bufs, k)
  {
    forall k ensures FlowIndexed(m, s.infos, s.bufs, k) && FlowIndexed(n, s.infos, s.bufs, k) {
      FlowReady(s, canUdp, k);
    }
  }

  /** Settling the TCP flows leaves the UDP flows' buffers alone. */
  lemma StaysReady(s: View, canUdp: bool, m: map<FlowKey, seq<Item>>, n: map<FlowKey, seq<Item>>, between: seq<Buf>)
    requires Inv(s) && Real(s, canUdp) && s.flows == m + n && KeysAre(m, true) && KeysAre(n, false)
    requires |between| == |s.bufs| && forall w :: 0 <= w < |between|
                                                  ==> SettledBy(m, s.infos, {}, s.bufs[w], between[w], w)
    ensures |s.infos| == |between| && forall k :: FlowIndexed(n, s.infos, between, k)
  {
    forall k ensures FlowIndexed(n, s.infos, between, k) {
      if k in n {
        FlowReady(s, canUdp, k);
        forall a | 0 <= a < |n[k]| ensures ItemFits(n[k][a], between) {
          var w := n[k][a].bufsIndex;
          assert ItemFits(s.flows[k][a], s.bufs) && KeyAt(s.infos, w, k);
          assert SettledBy(m, s.infos, {}, s.bufs[w], between[w], w);
        }
      }
    }
  }

  lemma FinishedOutcome(s: View, canUdp: bool, k: FlowKey, a: nat, after: Buf)
    requires Inv(s) && Real(s, canUdp) && k in s.flows && a < |s.flows[k]|
    requires s.flows[k][a].bufsIndex < |s.bufs| && FinishedAs(after, s.flows[k][a], s.bufs[s.flows[k][a].bufsIndex])
    ensures var w := s.flows[k][a].bufsIndex;
            w in s.members && Outcome(after, Parts(s.orig, s.members[w]), s.members[w])
  {
    Held(s, canUdp, k, a);
    var it := s.flows[k][a];
    var pkt, parts := s.bufs[it.bufsIndex].pkt, Parts(s.orig, s.members[it.bufsIndex]);
    if it.numMerged > 0 {
      assert MergedOutcome(after, parts, s.members[it.bufsIndex], it, pkt);
    } else {
      assert parts == [parts[0]];
    }
  }

  lemma DoneOutcome(s: View, w: nat)
    requires Inv(s) && w in s.done
    ensures w in s.members && w < |s.bufs| && Outcome(s.bufs[w], Parts(s.orig, s.members[w]), s.members[w])
    ensures forall k :: k in s.flows ==> !Tracked(s.flows[k], w)
  {
    assert DoneOk(s, w);
    PartsAppend(s.orig, [], w);
    forall k | k in s.flows ensures !Tracked(s.flows[k], w) {
      forall a | 0 <= a < |s.flows[k]| ensures s.flows[k][a].bufsIndex != w { assert ItemOk(s, k, a); }
    }
  }

  lemma WrittenOutcome(s: View, canUdp: bool, m: map<FlowKey, seq<Item>>, n: map<FlowKey, seq<Item>>, between: seq<Buf>,
        after: seq<Buf>, w: nat)
    requires Inv(s) && Real(s, canUdp) && s.flows == m + n && KeysAre(m, true) && KeysAre(n, false) && w in s.toWrite
    requires |s.bufs| == |between| == |after|
    requires forall x :: 0 <= x < |between| ==> SettledBy(m, s.infos, {}, s.bufs[x], between[x], x)
    requires forall x :: 0 <= x < |between| ==> SettledBy(n, s.infos, {}, between[x], after[x], x)
    ensures w in s.members && w < |after| && Outcome(after[w], Parts(s.orig, s.members[w]), s.members[w])
  {
    assert GroupOk(s, w) && TrackOk(s, w);
    assert SettledBy(m, s.infos, {}, s.bufs[w], between[w], w) && SettledBy(n, s.infos, {}, between[w], after[w], w);
    if w in s.done {
      DoneOutcome(s, w);
    } else {
      var k := s.infos[w].value.key;
      var a :| 0 <= a < |s.flows[k]| && s.flows[k][a].bufsIndex == w && FinishedAs(after[w], s.flows[k][a], s.bufs[w]);
      FinishedOutcome(s, canUdp, k, a, after[w]);
    }
  }

  ghost predicate Indexed(items: seq<Item>, bufs: seq<Buf>) {
    && (forall a, b :: 0 <= a < b < |items| ==> items[a].bufsIndex < items[b].bufsIndex)
    && (forall a :: 0 <= a < |items| ==> ItemFits(items[a], bufs))
  }

  predicate ItemFits(item: Item, bufs: seq<Buf>) {
    item.bufsIndex < |bufs| && (item.numMerged > 0 ==> Fits(item, |bufs[item.bufsIndex].pkt|))
  }

  lemma Unsettled(items: seq<Item>, a: nat, before: seq<Buf>, now: seq<Buf>)
    requires Indexed(items, before) && a < |items| && |now| == |before|
    requires forall w :: 0 <= w < |now| ==> Settled(items[..a], before[w], now[w], w)
    ensures items[a].bufsIndex < |now| && now[items[a].bufsIndex] == before[items[a].bufsIndex]
        && ItemFits(items[a], before)
  {
    var w := items[a].bufsIndex;
    assert ItemFits(items[a], before);
    assert Settled(items[..a], before[w], now[w], w);
  }

  lemma SettleNext(items: seq<Item>, a: nat, before: Buf, now: Buf, after: Buf, w: nat)
    requires a < |items| && Settled(items[..a], before, now, w)
    requires if items[a].bufsIndex == w then now == before && FinishedAs(after, items[a], before) else after == now
    ensures Settled(items[..a + 1], before, after, w)
  {
    var more := items[..a + 1];
    if items[a].bufsIndex == w {
      assert more[a] == items[a];
    } else if exists b :: 0 <= b < a && items[..a][b].bufsIndex == w && FinishedAs(now, items[..a][b], before) {
      var b :| 0 <= b < a && items[..a][b].bufsIndex == w && FinishedAs(now, items[..a][b], before);
      assert more[b] == items[..a][b];
    } else {
      forall b | 0 <= b < |more| ensures more[b].bufsIndex != w {
        if b < a { assert more[b] == items[..a][b]; }
      }
    }
  }

  lemma Replaced(before: seq<Buf>, after: seq<Buf>, w: nat, i: nat)
    requires w < |before| && i < |before| && |after| == |before|
        && forall k :: 0 <= k < |before| && k != w && k != i ==> after[k] == before[k]
    ensures after == before[w := after[w]][i := after[i]]
  {
  }

  lemma TcpEnters(m: map<FlowKey, seq<Item>>, n: map<FlowKey, seq<Item>>, v: View, item: Item)
    requires v.flows == m + n && KeysAre(n, false) && item.key.TcpKey?
    ensures var items := if item.key in m then m[item.key] else [];
            v.flows[item.key := ItemsOf(v, item.key) + [item]] == m[item.key := items + [item]] + n
  {
  }

  lemma TcpCandidate(b: seq<Byte>, canUdp: bool, isV6: bool)
    requires PacketIsGroCandidate(b, canUdp) == if isV6 then Tcp6 else Tcp4
    ensures |b| >= IpLen(isV6) + 20 && (!isV6 ==> b[0] % 16 == 5) && Parse(b, canUdp) == ParseTcp(b, isV6)
    ensures Parse(b, canUdp).Some? ==> Parse(b, canUdp).value.key.TcpKey?
  {
  }

  lemma UdpCandidate(b: seq<Byte>, canUdp: bool, isV6: bool)
    requires PacketIsGroCandidate(b, canUdp) == if isV6 then Udp6 else Udp4
    ensures |b| >= IpLen(isV6) + UDP_HEADER_LEN && (!isV6 ==> b[0] % 16 == 5) && Parse(b, canUdp) == ParseUdp(b, isV6)
    ensures Parse(b, canUdp).Some? ==> Parse(b, canUdp).value.key.UdpKey?
  {
  }

  lemma PutRight(m: map<FlowKey, seq<Item>>, n: map<FlowKey, seq<Item>>, k: FlowKey, x: seq<Item>)
    requires KeysAre(m, true) && k.UdpKey?
    ensures k in m + n <==> k in n
    ensures k in n ==> (m + n)[k] == n[k]
    ensures m + n[k := x] == (m + n)[k := x]
  {
  }

  lemma UdpEnters(m: map<FlowKey, seq<Item>>, n: map<FlowKey, seq<Item>>, v: View, item: Item)
    requires v.flows == m + n && KeysAre(m, true) && item.key.UdpKey?
    ensures var items := if item.key in n then n[item.key] else [];
            v.flows[item.key := ItemsOf(v, item.key) + [item]] == m + n[item.key := items + [item]]
  {
  }

  predicate NotUdp(v: View) {
    |v.owner| < |v.infos| && (v.infos[|v.owner|].Some? ==> v.infos[|v.owner|].value.key.TcpKey?)
  }

  lemma NextIs(v: View, canUdp: bool)
    requires Inv(v) && Real(v, canUdp) && |v.owner| < |v.bufs|
    ensures |v.owner| < |v.infos| && v.infos[|v.owner|] == Parse(v.bufs[|v.owner|].pkt, canUdp)
  {
    assert PlainOk(v, |v.owner|);
  }

  /** Flows of one table shadow none of the other's. */
  lemma PutLeft(m: map<FlowKey, seq<Item>>, n: map<FlowKey, seq<Item>>, k: FlowKey, x: seq<Item>)
    requires KeysAre(n, false) && k.TcpKey?
    ensures k in m + n <==> k in m
    ensures k in m ==> (m + n)[k] == m[k]
    ensures m[k := x] + n == (m + n)[k := x]
  {
  }

  function Packets(bufs: seq<Buf>): (r: seq<seq<Byte>>)
    ensures |r| == |bufs| && forall i :: 0 <= i < |bufs| ==> r[i] == bufs[i].pkt
  {
    seq(|bufs|, i requires 0 <= i < |bufs| => bufs[i].pkt)
  }

  function Rooms(bufs: seq<Buf>, offset: nat): (r: seq<int>)
    ensures |r| == |bufs| && forall i :: 0 <= i < |bufs| ==> r[i] == bufs[i].room - offset
  {
    seq(|bufs|, i requires 0 <= i < |bufs| => bufs[i].room - offset)
  }

  lemma EmptyRooms(v: View, offset: nat)
    requires v.members == map[] && v.owner == [] && RoomsWithin(v.bufs, offset)
    ensures GroPlans.RoomsOk(v, Rooms(v.bufs, offset), offset)
  {
    forall w: nat ensures RoomOk(v, Rooms(v.bufs, offset), offset, w) {}
  }

  lemma EmptyInv(v: View)
    requires v.flows == map[] && v.toWrite == [] && v.members == map[] && v.owner == [] && v.done == {}
    requires |v.bufs| == |v.orig| == |v.infos| && forall i :: 0 <= i < |v.orig| ==> v.bufs[i].pkt == v.orig[i]
    ensures Inv(v)
  {
    forall i: nat ensures OwnerOk(v, i) && GroupOk(v, i) && PlainOk(v, i) && DoneOk(v, i) && TrackOk(v, i) {}
    forall k, a: nat ensures ItemOk(v, k, a) && UdpOk(v, k, a) {}
    forall k, a: nat, b: nat ensures SortedOk(v, k, a, b) && OrderOk(v, k, a, b) {}
    forall k ensures NonEmptyOk(v, k) {}
  }

  lemma OnlyGroup(v: View, idx: seq<nat>)
    requires Conserved(v) && v.members == map[0 := idx]
    ensures v.toWrite == [0]
  {
    assert 0 in v.members && 0 in v.toWrite && (|v.toWrite| > 1 ==> v.toWrite[0] < v.toWrite[1]);
    forall a | 0 <= a < |v.toWrite| ensures v.toWrite[a] == 0 { assert v.toWrite[a] in v.toWrite; }
  }

  lemma MergedHasHeader(buf: Buf, parts: seq<seq<Byte>>, idx: seq<nat>)
    requires Outcome(buf, parts, idx) && |parts| > 1
    ensures buf.head.Encoded?
  {
  }

  class Batch {
    const offset: nat
    const canUdp: bool
    const little: bool
    const tcp: Table
    const udp: Table
    var bufs: seq<Buf>
    var toWrite: seq<nat>
    ghost const orig: seq<seq<Byte>>
    ghost const infos: seq<Option<Info>>
    ghost const rooms: seq<int>
    ghost var members: map<nat, seq<nat>>
    ghost var owner: seq<nat>
    ghost var done: set<nat>

    ghost function Now(): View
      reads this, tcp, udp
    {
      View(orig, infos, Kept, bufs, tcp.itemsByFlow + udp.itemsByFlow, toWrite, members, owner, done)
    }

    /** Tables: TCP flows in one, UDP flows in the other, and slices enough for the packets to come. */
    ghost predicate TablesOk(n: nat)
      reads this, tcp, udp
    {
      && tcp != udp && KeysAre(tcp.itemsByFlow, true) && KeysAre(udp.itemsByFlow, false)
      && tcp.itemsPool + |tcp.itemsByFlow| == IDEAL_BATCH_SIZE == udp.itemsPool + |udp.itemsByFlow|
      && |tcp.itemsByFlow| <= n && |udp.itemsByFlow| <= n <= |orig| <= IDEAL_BATCH_SIZE
    }

    ghost function Load(): R.Arrivals {
      R.Arrivals(orig, rooms, canUdp)
    }

    /** No buffer can grow beyond the largest IP packet. */
    ghost predicate RoomsGood()
      reads this, tcp, udp
    {
      |rooms| == |orig| && GroPlans.RoomsOk(Now(), rooms, offset)
    }

    /** What the reference makes of the first `n` packets. */
    ghost function Goal(n: nat): R.Plan {
      if n <= |orig| == |rooms| then R.Reference(Load(), n) else R.Plan(map[], {})
    }

    /** The packets looked at so far are where the reference puts them. */
    ghost predicate Valid()
      reads this, tcp, udp
    {
      && TablesOk(|owner|) && RoomsGood() && Inv(Now()) && infos == Infos(orig, canUdp)
      && PlanOf(Now()) == Goal(|owner|)
    }

    /** A batch and two empty tables. */
    constructor (bufs: seq<Buf>, offset: nat, canUdp: bool, little: bool, tcp: Table, udp: Table)
      requires tcp != udp && tcp.itemsByFlow == map[] == udp.itemsByFlow
          && tcp.itemsPool == IDEAL_BATCH_SIZE == udp.itemsPool
      requires |bufs| <= IDEAL_BATCH_SIZE && RoomsWithin(bufs, offset)
      ensures Valid() && this.bufs == bufs && owner == [] && toWrite == []
      ensures orig == Packets(bufs) && this.offset == offset && this.canUdp == canUdp && this.little == little
          && this.tcp == tcp && this.udp == udp && rooms == Rooms(bufs, offset)
    {
      this.bufs, this.offset, this.canUdp, this.little, this.tcp, this.udp := bufs, offset, canUdp, little, tcp, udp;
      toWrite, members, owner, done, orig, infos := [], map[], [], {}, Packets(bufs), Infos(Packets(bufs), canUdp);
      rooms := Rooms(bufs, offset);
      new;
      EmptyInv(Now());
      EmptyRooms(Now(), offset);
    }

    // ---------- merging one packet into one item ----------

    /** The packet's transport checksum, with the checksum engine. */
    method ChecksumIsValid(pkt: seq<Byte>, key: FlowKey) returns (ok: bool)
      requires IpLen(key.isV6) <= |pkt|
      ensures ok == TransportValid(pkt, key)
    {
      ok := CheckChecksum(pkt, IpLen(key.isV6), Protocol(key), key.isV6, little);
    }

    /** The item's packet, when nothing has joined it yet, and the new one must be valid. */
    method CheckBoth(pkt: seq<Byte>, item: Item, target: seq<Byte>) returns (r: CoalesceResult)
      requires IpLen(item.key.isV6) <= |pkt| && IpLen(item.key.isV6) <= |target|
      ensures r == if item.numMerged == 0 && !TransportValid(target, item.key) then ItemInvalidCSum
                   else if !TransportValid(pkt, item.key) then PktInvalidCSum else Success
    {
      if item.numMerged == 0 {
        var valid := ChecksumIsValid(target, item.key);
        if !valid {
          return ItemInvalidCSum;
        }
      }
      var valid := ChecksumIsValid(pkt, item.key);
      return if valid then Success else PktInvalidCSum;
    }

    /** On a prepend the two buffers trade places: the item's index is being tracked for writing. */
    method CoalesceTcpPackets(mode: Mode, i: nat, info: Info, item0: Item) returns (r: CoalesceResult, item: Item)
      requires item0.bufsIndex < |bufs| && i < |bufs| && i != item0.bufsIndex
      requires MayCoalesce(mode, info, item0, bufs[i].pkt, bufs[item0.bufsIndex].pkt)
      modifies this`bufs
      ensures r == ResultOf(mode, info, item0, old(bufs)[i], old(bufs)[item0.bufsIndex], offset)
      ensures r != Success ==> bufs == old(bufs) && item == item0
      ensures r == Success && mode == Prepend ==> Prepended(old(bufs), bufs, offset, i, info, item0, item)
      ensures r == Success && mode == Append ==> Appended(old(bufs), bufs, offset, i, info, item0, item)
    {
      item := item0;
      var x, target := bufs[i], bufs[item.bufsIndex];
      var coalescedLen := |target.pkt| + |x.pkt| - info.headersLen;
      var sentSeq, pshSet := item.sentSeq, item.pshSet;
      if mode == Prepend {
        if x.room - offset < coalescedLen {
          return InsufficientCap, item;
        }
        if info.psh {
          return PshEnding, item;
        }
        r := CheckBoth(x.pkt, item, target.pkt);
        if r != Success {
          return;
        }
        sentSeq := info.seqNum;
        bufs := bufs[i := x.(pkt := x.pkt + target.pkt[info.headersLen..])];
        bufs := bufs[item.bufsIndex := bufs[i]][i := bufs[item.bufsIndex]];
      } else {
        if target.room - offset < coalescedLen {
          return InsufficientCap, item;
        }
        r := CheckBoth(x.pkt, item, target.pkt);
        if r != Success {
          return;
        }
        var head := target.pkt;
        if info.psh {
          pshSet := info.psh;
          head := head[item.iphLen + FLAGS_AT := SetPsh(head[item.iphLen + FLAGS_AT])];
        }
        bufs := bufs[item.bufsIndex := target.(pkt := head + x.pkt[info.headersLen..])];
      }
      var gsoSize := if info.gsoSize > item.gsoSize then info.gsoSize else item.gsoSize;
      item := item.(numMerged := item.numMerged + 1, gsoSize := gsoSize, sentSeq := sentSeq, pshSet := pshSet);
    }

    method CoalesceUdpPackets(i: nat, info: Info, item0: Item) returns (r: CoalesceResult, item: Item)
      requires item0.UdpItem? && item0.bufsIndex < |bufs| && i < |bufs| && i != item0.bufsIndex && !info.psh
      requires info.headersLen == HeadersLen(item0) && item0.iphLen == IpLen(item0.key.isV6)
      requires HeadersLen(item0) <= |bufs[i].pkt| && HeadersLen(item0) <= |bufs[item0.bufsIndex].pkt|
      modifies this`bufs
      ensures r == ResultOf(Append, info, item0, old(bufs)[i], old(bufs)[item0.bufsIndex], offset)
      ensures r != Success ==> bufs == old(bufs) && item == item0
      ensures r == Success ==> Appended(old(bufs), bufs, offset, i, info, item0, item)
    {
      item := item0;
      var x, target := bufs[i], bufs[item.bufsIndex];
      var coalescedLen := |target.pkt| + |x.pkt| - info.headersLen;
      if target.room - offset < coalescedLen {
        return InsufficientCap, item;
      }
      if item.numMerged == 0 && item.cSumKnownInvalid {
        return ItemInvalidCSum, item;
      }
      r := CheckBoth(x.pkt, item, target.pkt);
      if r != Success {
        return;
      }
      bufs := bufs[item.bufsIndex := target.(pkt := target.pkt + x.pkt[info.headersLen..])];
      item := UdpItem(item.key, item.bufsIndex, item.numMerged + 1, item.gsoSize, item.iphLen, item.cSumKnownInvalid);
    }

    // ---------- one packet against the tables ----------

    /** One item that the packet may join: join it, drop it, or leave things as they are. */
    method TryTcp(mode: Mode, i: nat, info: Info, item0: Item, j: nat) returns (r: CoalesceResult, item: Item)
      requires TablesOk(i) && i == |owner| < |bufs| && info.key.TcpKey? && info.key in tcp.itemsByFlow
      requires j < |tcp.itemsByFlow[info.key]| && item0 == tcp.itemsByFlow[info.key][j] && item0.key == info.key
      requires item0.bufsIndex < i && item0.bufsIndex in members
      requires MayCoalesce(mode, info, item0, bufs[i].pkt, bufs[item0.bufsIndex].pkt)
      modifies this, tcp
      ensures r == ResultOf(mode, info, item0, old(bufs)[i], old(bufs)[item0.bufsIndex], offset)
      ensures TablesOk(i) && Tried(old(Now()), Now(), r, mode, offset, info, item0, item, j)
      ensures info.key in tcp.itemsByFlow && SamePrefix(tcp.itemsByFlow[info.key], old(tcp.itemsByFlow[info.key]), j)
    {
      ghost var s := Now();
      PutLeft(tcp.itemsByFlow, udp.itemsByFlow, info.key, []);
      r, item := CoalesceTcpPackets(mode, i, info, item0);
      assert Now() == s.(bufs := bufs);
      KeepsPrefix(tcp.itemsByFlow[info.key], j, item);
      if r == Success {
        JoinTried(mode, i, info, item0, item, j, s);
      } else if r == ItemInvalidCSum {
        DropTried(mode, i, info, item, j, s);
      } else {
        Untried(s, r, mode, offset, info, item, j);
      }
    }

    method DropTried(mode: Mode, i: nat, info: Info, item: Item, j: nat, ghost s: View)
      requires TablesOk(i) && i == |owner| < |bufs| && Now() == s && info.key.TcpKey? && item.key == info.key
      requires info.key in tcp.itemsByFlow && j < |tcp.itemsByFlow[info.key]| && info.key in s.flows
      requires s.flows[info.key] == tcp.itemsByFlow[info.key] && item == s.flows[info.key][j]
      requires item.bufsIndex < i && item.bufsIndex in members && item.numMerged == 0
      modifies tcp, `bufs, `done
      ensures TablesOk(i) && Tried(s, Now(), ItemInvalidCSum, mode, offset, info, item, item, j)
      ensures tcp.itemsByFlow == old(tcp.itemsByFlow)[info.key := Without(old(tcp.itemsByFlow)[info.key], j)]
    {
      DropTcp(item, j, s);
    }

    method JoinTried(mode: Mode, i: nat, info: Info, item0: Item, item: Item, j: nat, ghost s: View)
      requires TablesOk(i) && i == |owner| < |bufs| == |s.bufs| && Now() == s.(bufs := bufs) && info.key.TcpKey?
      requires info.key in tcp.itemsByFlow && j < |tcp.itemsByFlow[info.key]| && info.key in s.flows
      requires s.flows[info.key] == tcp.itemsByFlow[info.key] && item0 == s.flows[info.key][j] && item0.key == info.key
      requires item0.bufsIndex < i && item0.bufsIndex in members
      requires mode == Prepend ==> Prepended(s.bufs, bufs, offset, i, info, item0, item)
      requires mode != Prepend ==> Appended(s.bufs, bufs, offset, i, info, item0, item)
      modifies tcp, `members, `owner
      ensures TablesOk(i) && Tried(s, Now(), Success, mode, offset, info, item0, item, j)
      ensures tcp.itemsByFlow == old(tcp.itemsByFlow)[info.key := old(tcp.itemsByFlow)[info.key][j := item]]
    {
      Replaced(s.bufs, bufs, item.bufsIndex, i);
      JoinTcp(item, j, mode == Prepend, s);
    }

    /** The buffers are merged already; now the item. */
    method JoinTcp(item: Item, j: nat, front: bool, ghost s: View)
      requires TablesOk(|owner|) && Now() == s.(bufs := bufs) && item.key.TcpKey? && item.key in tcp.itemsByFlow
          && item.key in s.flows
      requires j < |tcp.itemsByFlow[item.key]| && s.flows[item.key] == tcp.itemsByFlow[item.key]
      requires |bufs| == |s.bufs| && item.bufsIndex < |bufs| && |owner| < |bufs| && item.bufsIndex in members
      requires bufs == s.bufs[item.bufsIndex := bufs[item.bufsIndex]][|owner| := bufs[|owner|]]
      modifies tcp, `members, `owner
      ensures TablesOk(|old(owner)|) && Now() == Join(s, item.key, j, item, bufs[item.bufsIndex], bufs[|old(owner)|],
          front)
      ensures tcp.itemsByFlow == old(tcp.itemsByFlow)[item.key := old(tcp.itemsByFlow)[item.key][j := item]]
    {
      PutLeft(tcp.itemsByFlow, udp.itemsByFlow, item.key, tcp.itemsByFlow[item.key][j := item]);
      tcp.UpdateAt(item, j);
      assert tcp.itemsByFlow + udp.itemsByFlow == s.flows[item.key := s.flows[item.key][j := item]];
      ghost var i: nat := |owner|;
      members := members[item.bufsIndex := if front then [i] + members[item.bufsIndex]
          else members[item.bufsIndex] + [i]];
      owner := owner + [item.bufsIndex];
    }

    /** Its packet is written as it came, so its virtio header is cleared here. */
    method DropTcp(item: Item, j: nat, ghost s: View)
      requires TablesOk(|owner|) && item.key.TcpKey? && item.key in tcp.itemsByFlow && j < |tcp.itemsByFlow[item.key]|
      requires item == tcp.itemsByFlow[item.key][j] && item.bufsIndex < |bufs| && Now() == s
      requires item.key in s.flows && s.flows[item.key] == tcp.itemsByFlow[item.key]
      modifies tcp, `bufs, `done
      ensures TablesOk(|owner|) && Now() == Drop(s, item.key, j)
      ensures tcp.itemsByFlow == old(tcp.itemsByFlow)[item.key := Without(old(tcp.itemsByFlow)[item.key], j)]
    {
      PutLeft(tcp.itemsByFlow, udp.itemsByFlow, item.key, Without(tcp.itemsByFlow[item.key], j));
      tcp.DeleteAt(item.key, j);
      bufs := bufs[item.bufsIndex := bufs[item.bufsIndex].(head := Cleared)];
      done := done + {item.bufsIndex};
    }

    /** Packet `i`, which reads as `info`, is still on its own. */
    ghost predicate Alone(i: nat, info: Info)
      reads this, tcp, udp
    {
      TablesOk(i) && RoomsGood() && |owner| == i && Next(Now(), canUdp, info)
    }

    /** And its flow is in the table. */
    ghost predicate Waiting(i: nat, info: Info)
      reads this, tcp, udp
    {
      Alone(i, info) && info.key in tcp.itemsByFlow
    }

    /** Packet `i` has joined an item. */
    ghost predicate Joined(i: nat)
      reads this, tcp, udp
    {
      TablesOk(i) && RoomsGood() && Inv(Now()) && |owner| == i + 1 && PlanOf(Now()) == Goal(i + 1)
    }

    /** The groups from `c` on are behind: with those before it the reference ends where it should. */
    ghost predicate Aims(i: nat, c: nat)
      reads this, tcp, udp
    {
      i < |orig| == |rooms| && R.Settle(Load(), PlanOf(Now()), i, c) == Goal(i + 1)
    }

    /** Starting a group with packet `i`, or leaving it alone, is what the reference does. */
    ghost predicate Starts(i: nat)
      reads this, tcp, udp
    {
      R.Started(PlanOf(Now()), i) == Goal(i + 1)
    }

    ghost predicate StaysAlone(i: nat)
      reads this, tcp, udp
    {
      R.Alone(PlanOf(Now()), i) == Goal(i + 1)
    }

    /** Items from `j` on have been tried, and lie behind `c`. */
    ghost predicate Halfway(i: nat, info: Info, j: nat, c: nat)
      reads this, tcp, udp
    {
      Waiting(i, info) && Aims(i, c) && Parted(tcp.itemsByFlow[info.key], j, c)
    }

    /** From the newest item back; each that turns out invalid is dropped on the way. */
    method TryItems(i: nat, info: Info, items: seq<Item>) returns (result: Option<GroResult>)
      requires Waiting(i, info) && info.key.TcpKey? && items == tcp.itemsByFlow[info.key] && Aims(i, i)
      modifies this, tcp
      ensures result == Some(Coalesced) || result == Some(Noop) || result == None
      ensures toWrite == old(toWrite) && if result == Some(Coalesced) then Joined(i) else Waiting(i, info)
      ensures (result == Some(Noop) ==> StaysAlone(i)) && (result == None ==> Starts(i))
    {
      var j := |items|;
      ghost var c := i;
      PutLeft(tcp.itemsByFlow, udp.itemsByFlow, info.key, []);
      AllBefore(Now(), canUdp, info);
      while j > 0
        invariant 0 <= j <= |items| && toWrite == old(toWrite)
        invariant Halfway(i, info, j, c) && SamePrefix(tcp.itemsByFlow[info.key], items, j)
      {
        j := j - 1;
        var r := TryItemAt(i, info, items, j, c);
        match r {
          case Success =>
            return Some(Coalesced);
          case PktInvalidCSum =>
            return Some(Noop);
          case _ =>
        }
        c := items[j].bufsIndex;
      }
      NoneLeft(i, info, c);
      return None;
    }

    lemma NoneLeft(i: nat, info: Info, c: nat)
      requires info.key.TcpKey? && Halfway(i, info, 0, c)
      ensures Starts(i)
    {
      PutLeft(tcp.itemsByFlow, udp.itemsByFlow, info.key, []);
      NoneLeftStarts(Now(), canUdp, info, Load(), c);
    }

    /** After the attempt on an item at buffer `w`. */
    ghost predicate After(r: CoalesceResult, i: nat, info: Info, j: nat, w: nat)
      reads this, tcp, udp
    {
      match r
      case Success => Joined(i)
      case PktInvalidCSum => Waiting(i, info) && StaysAlone(i)
      case _ => Halfway(i, info, j, w)
    }

    method TryItemAt(i: nat, info: Info, items: seq<Item>, j: nat, ghost c: nat) returns (r: CoalesceResult)
      requires Halfway(i, info, j + 1, c) && info.key.TcpKey? && j < |items|
          && SamePrefix(tcp.itemsByFlow[info.key], items, j + 1)
      modifies this, tcp
      ensures toWrite == old(toWrite) && After(r, i, info, j, items[j].bufsIndex)
      ensures r != Success ==> info.key in tcp.itemsByFlow && SamePrefix(tcp.itemsByFlow[info.key], items, j)
    {
      ghost var before := tcp.itemsByFlow[info.key];
      PrefixShrinks(before, items, j);
      r := TryItem(i, info, items[j], j, c);
      PrefixPasses(tcp.itemsByFlow[info.key], before, items, j);
    }

    method TryItem(i: nat, info: Info, item: Item, j: nat, ghost c: nat) returns (r: CoalesceResult)
      requires Halfway(i, info, j + 1, c) && info.key.TcpKey?
      requires j < |tcp.itemsByFlow[info.key]| && item == tcp.itemsByFlow[info.key][j]
      modifies this, tcp
      ensures info.key in tcp.itemsByFlow && SamePrefix(tcp.itemsByFlow[info.key], old(tcp.itemsByFlow[info.key]), j)
      ensures toWrite == old(toWrite) && After(r, i, info, j, item.bufsIndex)
    {
      ghost var s := Now();
      PutLeft(tcp.itemsByFlow, udp.itemsByFlow, info.key, []);
      HeldComparable(s, canUdp, info, j);
      var can := TcpPacketsCanCoalesce(bufs[i].pkt, info, item, bufs[item.bufsIndex].pkt);
      r := InsufficientCap;
      ghost var after := item;
      if can != Unavailable {
        var item';
        CoalesceAllowed(can, info, item, bufs[i].pkt, bufs[item.bufsIndex].pkt);
        r, item' := TryTcp(can, i, info, item, j);
        after := item';
      } else {
        Untried(s, r, can, offset, info, item, j);
      }
      AttemptKeeps(s, Now(), canUdp, r, can, offset, info, item, after, j, rooms);
      ItemReached(s, canUdp, r, can, offset, info, item, j, Load(), c);
      ReachedGoes(Load(), s, Now(), r, can, item.bufsIndex, c);
      PutLeft(tcp.itemsByFlow, udp.itemsByFlow, info.key, []);
    }

    /** The packet goes to the end of its flow; it is listed for writing by the caller. */
    ghost predicate Entered(s: View, item: Item, i: nat)
      reads this, tcp, udp
    {
      && Inv(s) && |s.owner| == i && MayEnter(s, item)
      && Now() == s.(flows := s.flows[item.key := ItemsOf(s, item.key) + [item]])
    }

    /** What the evaluation of packet `i` leaves. */
    ghost predicate Handled(result: GroResult, i: nat, s: View, item: Item)
      reads this, tcp, udp
    {
      && TablesOk(i + 1) && RoomsGood()
      && match result
         case Noop => Inv(Now()) && |owner| == i && NotUdp(Now()) && StaysAlone(i)
         case Coalesced => Inv(Now()) && |owner| == i + 1 && PlanOf(Now()) == Goal(i + 1)
         case TableInsert => Entered(s, item, i) && R.Started(PlanOf(s), i) == Goal(i + 1)
    }

    method TcpGro(i: nat, isV6: bool) returns (result: GroResult, ghost s: View, ghost item: Item)
      requires Valid() && i == |owner| < |bufs| && PacketIsGroCandidate(bufs[i].pkt, canUdp) == if isV6 then Tcp6
          else Tcp4
      modifies this, tcp
      ensures Handled(result, i, s, item) && toWrite == old(toWrite)
    {
      s := Now();
      NextIs(s, canUdp);
      TcpCandidate(bufs[i].pkt, canUdp, isV6);
      GoalIs(Load(), PlanOf(s), i);
      var parsed := ParseTcp(bufs[i].pkt, isV6);
      if parsed.None? {
        return Noop, s, UdpItem(UdpKey([], [], 0, 0, isV6), i, 0, 0, 0, false);
      }
      result, s, item := TcpFlow(i, parsed.value);
    }

    /** The part of tcpGRO after the packet has been read. */
    method TcpFlow(i: nat, info: Info) returns (result: GroResult, ghost s: View, ghost item: Item)
      requires Alone(i, info) && info.key.TcpKey? && Aims(i, i)
      modifies this, tcp
      ensures Handled(result, i, s, item) && toWrite == old(toWrite)
    {
      EntersFresh(Now(), canUdp, info, false);
      item := NewItem(info, i, false);
      var items, existing;
      items, existing, s := LookupTcp(i, info);
      if !existing {
        return TableInsert, s, item;
      }
      var tried := TryItems(i, info, items);
      if tried.Some? {
        return tried.value, s, item;
      }
      s := InsertTcp(i, info);
      return TableInsert, s, item;
    }

    /** LookupOrInsert with what it means for the batch. */
    method LookupTcp(i: nat, info: Info) returns (items: seq<Item>, existing: bool, ghost s: View)
      requires Alone(i, info) && info.key.TcpKey? && info.iphLen <= info.headersLen && Aims(i, i)
      modifies tcp
      ensures if existing then Waiting(i, info) && items == tcp.itemsByFlow[info.key] && Aims(i, i)
              else Handled(TableInsert, i, s, NewItem(info, i, false))
    {
      s := Now();
      ghost var item := NewItem(info, i, false);
      EntersFresh(s, canUdp, info, false);
      TcpEnters(tcp.itemsByFlow, udp.itemsByFlow, s, item);
      PutLeft(tcp.itemsByFlow, udp.itemsByFlow, info.key, []);
      if info.key !in tcp.itemsByFlow { NewFlowStarts(s, canUdp, info, Load(), i); }
      items, existing := tcp.LookupOrInsert(NewItem(info, i, false));
      if existing {
        assert Now() == s;
      } else {
        assert [] + [item] == [item];
        FlowsAside(s, Now(), rooms, offset);
      }
    }

    method InsertTcp(i: nat, info: Info) returns (ghost s: View)
      requires Alone(i, info) && info.key.TcpKey? && info.iphLen <= info.headersLen && Starts(i)
      modifies tcp
      ensures Handled(TableInsert, i, s, NewItem(info, i, false))
    {
      s := Now();
      EntersFresh(s, canUdp, info, false);
      TcpEnters(tcp.itemsByFlow, udp.itemsByFlow, s, NewItem(info, i, false));
      tcp.Insert(NewItem(info, i, false));
      FlowsAside(s, Now(), rooms, offset);
    }

    method UdpGro(i: nat, isV6: bool) returns (result: GroResult, ghost s: View, ghost item: Item)
      requires Valid() && i == |owner| < |bufs| && PacketIsGroCandidate(bufs[i].pkt, canUdp) == if isV6 then Udp6
          else Udp4
      modifies this, udp
      ensures Handled(result, i, s, item) && toWrite == old(toWrite)
    {
      s := Now();
      NextIs(s, canUdp);
      UdpCandidate(bufs[i].pkt, canUdp, isV6);
      GoalIs(Load(), PlanOf(s), i);
      var parsed := ParseUdp(bufs[i].pkt, isV6);
      if parsed.None? {
        return Noop, s, UdpItem(UdpKey([], [], 0, 0, isV6), i, 0, 0, 0, false);
      }
      result, s, item := UdpFlow(i, parsed.value);
    }

    /** What is left to do for a datagram. */
    ghost predicate AimsLast(i: nat)
      reads this, tcp, udp
    {
      i < |orig| == |rooms| && R.Follow(Load(), PlanOf(Now()), i, i) == Goal(i + 1)
    }

    /** The part of udpGRO after the packet has been read: only the last item is compared. */
    method UdpFlow(i: nat, info: Info) returns (result: GroResult, ghost s: View, ghost item: Item)
      requires Alone(i, info) && info.key.UdpKey? && AimsLast(i)
      modifies this, udp
      ensures Handled(result, i, s, item) && toWrite == old(toWrite) && result != Noop
    {
      EntersFresh(Now(), canUdp, info, false);
      item := NewItem(info, i, false);
      var items, existing;
      items, existing, s := LookupUdp(i, info);
      if !existing {
        return TableInsert, s, item;
      }
      var r := TryLast(i, info, items);
      if r == Success {
        return Coalesced, s, item;
      }
      // A packet known to be invalid is marked, so that it is not checked again.
      s := InsertUdp(i, info, r == PktInvalidCSum);
      item := NewItem(info, i, r == PktInvalidCSum);
      return TableInsert, s, item;
    }

    method LookupUdp(i: nat, info: Info) returns (items: seq<Item>, existing: bool, ghost s: View)
      requires Alone(i, info) && info.key.UdpKey? && info.iphLen <= info.headersLen && AimsLast(i)
      modifies udp
      ensures if existing then Alone(i, info) && info.key in udp.itemsByFlow && items == udp.itemsByFlow[info.key]
                  && AimsLast(i)
              else Handled(TableInsert, i, s, NewItem(info, i, false))
    {
      s := Now();
      ghost var item := NewItem(info, i, false);
      EntersFresh(s, canUdp, info, false);
      UdpEnters(tcp.itemsByFlow, udp.itemsByFlow, s, item);
      PutRight(tcp.itemsByFlow, udp.itemsByFlow, info.key, []);
      if info.key !in udp.itemsByFlow { NewFlowStarts(s, canUdp, info, Load(), i); }
      items, existing := udp.LookupOrInsert(NewItem(info, i, false));
      if existing {
        assert Now() == s;
      } else {
        assert [] + [item] == [item];
        FlowsAside(s, Now(), rooms, offset);
      }
    }

    method TryLast(i: nat, info: Info, items: seq<Item>) returns (r: CoalesceResult)
      requires Alone(i, info) && info.key.UdpKey? && AimsLast(i)
      requires info.key in udp.itemsByFlow && items == udp.itemsByFlow[info.key]
      modifies this, udp
      ensures toWrite == old(toWrite) && if r == Success then Joined(i) else Alone(i, info) && Starts(i)
      ensures r == PktInvalidCSum ==> i < |bufs| && !TransportValid(bufs[i].pkt, info.key)
    {
      ghost var s := Now();
      PutRight(tcp.itemsByFlow, udp.itemsByFlow, info.key, []);
      assert NonEmptyOk(s, info.key);
      var j := |items| - 1;
      var item := items[j];
      HeldComparable(s, canUdp, info, j);
      r := InsufficientCap;
      var can := UdpPacketsCanCoalesce(bufs[i].pkt, info, item, bufs[item.bufsIndex].pkt);
      if can == Append {
        r := TryUdp(i, info, item, j);
      }
      LastReached(s, canUdp, r, can, offset, info, item, j, Load());
      ReachedFollows(Load(), PlanOf(s), i, item.bufsIndex, can, r, i);
      if r == Success {
        UdpJoinedKeeps(s, Now(), canUdp, offset, info, item, j, rooms);
      } else if r == PktInvalidCSum {
        RefusedIsInvalid(Append, info, item, s.bufs[i], s.bufs[item.bufsIndex], offset);
      }
    }

    method TryUdp(i: nat, info: Info, item0: Item, j: nat) returns (r: CoalesceResult)
      requires TablesOk(i) && i == |owner| < |bufs| && info.key.UdpKey? && info.key in udp.itemsByFlow
      requires j < |udp.itemsByFlow[info.key]| && item0 == udp.itemsByFlow[info.key][j] && item0.key == info.key
      requires item0.bufsIndex < i && item0.bufsIndex in members && info.headersLen <= |bufs[i].pkt|
      requires Comparable(item0, bufs[item0.bufsIndex].pkt, info)
      modifies this, udp
      ensures TablesOk(i) && r == ResultOf(Append, info, item0, old(bufs)[i], old(bufs)[item0.bufsIndex], offset)
      ensures r == Success ==> UdpJoined(old(Now()), Now(), offset, info, item0, j)
      ensures r != Success ==> Now() == old(Now())
    {
      ghost var s := Now();
      PutRight(tcp.itemsByFlow, udp.itemsByFlow, info.key, []);
      var item;
      r, item := CoalesceUdpPackets(i, info, item0);
      if r == Success {
        Replaced(s.bufs, bufs, item.bufsIndex, i);
        JoinUdp(item, j, s);
      }
    }

    method JoinUdp(item: Item, j: nat, ghost s: View)
      requires TablesOk(|owner|) && Now() == s.(bufs := bufs) && item.key.UdpKey? && item.key in udp.itemsByFlow
          && item.key in s.flows
      requires j < |udp.itemsByFlow[item.key]| && s.flows[item.key] == udp.itemsByFlow[item.key]
      requires |bufs| == |s.bufs| && item.bufsIndex < |bufs| && |owner| < |bufs| && item.bufsIndex in members
      requires bufs == s.bufs[item.bufsIndex := bufs[item.bufsIndex]][|owner| := bufs[|owner|]]
      modifies udp, `members, `owner
      ensures TablesOk(|old(owner)|) && Now() == Join(s, item.key, j, item, bufs[item.bufsIndex], bufs[|old(owner)|],
          false)
    {
      PutRight(tcp.itemsByFlow, udp.itemsByFlow, item.key, udp.itemsByFlow[item.key][j := item]);
      udp.UpdateAt(item, j);
      ghost var i: nat := |owner|;
      members := members[item.bufsIndex := members[item.bufsIndex] + [i]];
      owner := owner + [item.bufsIndex];
    }

    method InsertUdp(i: nat, info: Info, bad: bool) returns (ghost s: View)
      requires Alone(i, info) && info.key.UdpKey? && info.iphLen <= info.headersLen && Starts(i)
      requires bad ==> i < |bufs| && !TransportValid(bufs[i].pkt, info.key)
      modifies udp
      ensures Handled(TableInsert, i, s, NewItem(info, i, bad))
    {
      s := Now();
      EntersFresh(s, canUdp, info, bad);
      UdpEnters(tcp.itemsByFlow, udp.itemsByFlow, s, NewItem(info, i, bad));
      udp.Insert(NewItem(info, i, bad));
      FlowsAside(s, Now(), rooms, offset);
    }

    // ---------- accounting ----------

    method FinishItems(items: seq<Item>)
      requires Indexed(items, bufs)
      modifies `bufs
      ensures |bufs| == |old(bufs)| && forall w :: 0 <= w < |bufs| ==> Settled(items, old(bufs)[w], bufs[w], w)
    {
      ghost var before := bufs;
      for a := 0 to |items|
        invariant |bufs| == |before| && forall w :: 0 <= w < |bufs| ==> Settled(items[..a], before[w], bufs[w], w)
      {
        var item := items[a];
        ghost var now := bufs;
        Unsettled(items, a, before, bufs);
        if item.numMerged > 0 {
          var buf := bufs[item.bufsIndex];
          var pkt, hdr := Account(item, buf.pkt, little);
          bufs := bufs[item.bufsIndex := buf.(head := Encoded(hdr), pkt := pkt)];
        } else {
          bufs := bufs[item.bufsIndex := bufs[item.bufsIndex].(head := Cleared)];
        }
        forall w | 0 <= w < |bufs| ensures Settled(items[..a + 1], before[w], bufs[w], w) {
          SettleNext(items, a, before[w], now[w], bufs[w], w);
        }
      }
      assert items[..|items|] == items;
    }

    /** applyTCPCoalesceAccounting and applyUDPCoalesceAccounting; flows in any order. */
    method ApplyCoalesceAccounting(t: Table, ghost infos: seq<Option<Info>>)
      requires |infos| == |bufs| && forall k :: FlowIndexed(t.itemsByFlow, infos, bufs, k)
      modifies `bufs
      ensures |bufs| == |old(bufs)| && forall w :: 0 <= w < |bufs|
                                                   ==> SettledBy(t.itemsByFlow, infos, {}, old(bufs)[w], bufs[w], w)
    {
      var m := t.itemsByFlow;
      var todo := m.Keys;
      ghost var before := bufs;
      while todo != {}
        invariant todo <= m.Keys && |bufs| == |before|
        invariant forall w :: 0 <= w < |bufs| ==> SettledBy(m, infos, todo, before[w], bufs[w], w)
        decreases |todo|
      {
        var k :| k in todo;
        ghost var now := bufs;
        StillIndexed(m, infos, todo, before, now, k);
        FinishItems(m[k]);
        forall w | 0 <= w < |bufs| ensures SettledBy(m, infos, todo - {k}, before[w], bufs[w], w) {
          FlowSettled(m, infos, todo, before, now, bufs, k, w);
        }
        todo := todo - {k};
      }
    }

    // ---------- the whole batch ----------

    /** One packet: merge it, start an item with it, or write it as it is. */
    method HandleOne(i: nat)
      requires Valid() && i == |owner| < |bufs|
      modifies this, tcp, udp
      ensures Valid() && |owner| == i + 1
    {
      var result, s, item := Coalesce(i);
      match result {
        case Noop => WritePlain(i);
        case TableInsert => WriteItem(i, s, item);
        case Coalesced =>
      }
    }

    method Coalesce(i: nat) returns (result: GroResult, ghost s: View, ghost item: Item)
      requires Valid() && i == |owner| < |bufs|
      modifies this, tcp, udp
      ensures Handled(result, i, s, item)
    {
      match PacketIsGroCandidate(bufs[i].pkt, canUdp) {
        case Tcp4 => result, s, item := TcpGro(i, false);
        case Tcp6 => result, s, item := TcpGro(i, true);
        case Udp4 => result, s, item := UdpGro(i, false);
        case Udp6 => result, s, item := UdpGro(i, true);
        case NotGro =>
          NextIs(Now(), canUdp);
          GoalIs(Load(), PlanOf(Now()), i);
          result, s, item := Noop, Now(), UdpItem(UdpKey([], [], 0, 0, false), i, 0, 0, 0, false);
      }
    }

    method WritePlain(i: nat)
      requires TablesOk(i + 1) && RoomsGood() && Inv(Now()) && i == |owner| < |bufs| && NotUdp(Now()) && StaysAlone(i)
      modifies `bufs, `toWrite, `members, `owner, `done
      ensures TablesOk(i + 1) && RoomsGood() && Inv(Now()) && |owner| == i + 1 && PlanOf(Now()) == Goal(i + 1)
    {
      ghost var s := Now();
      SkipKeeps(s);
      SkipMoves(s, rooms, offset);
      Clear(i);
      Write(i);
      assert Now() == Skip(s);
    }

    method WriteItem(i: nat, ghost s: View, ghost item: Item)
      requires TablesOk(i + 1) && RoomsGood() && Entered(s, item, i) && R.Started(PlanOf(s), i) == Goal(i + 1)
      modifies `toWrite, `members, `owner
      ensures TablesOk(i + 1) && RoomsGood() && Inv(Now()) && |owner| == i + 1 && PlanOf(Now()) == Goal(i + 1)
    {
      EnterKeeps(s, item);
      FlowsAside(s, Now(), rooms, offset);
      EnterMoves(s, item, rooms, offset);
      Write(i);
      assert Now() == Enter(s, item);
    }

    method Clear(i: nat)
      requires TablesOk(i + 1) && i < |bufs|
      modifies `bufs, `done
      ensures TablesOk(i + 1) && |bufs| == |old(bufs)|
      ensures Now() == old(Now()).(bufs := old(bufs)[i := old(bufs)[i].(head := Cleared)], done := old(done) + {i})
    {
      bufs := bufs[i := bufs[i].(head := Cleared)];
      done := done + {i};
    }

    method Write(i: nat)
      requires TablesOk(i + 1)
      modifies `toWrite, `members, `owner
      ensures TablesOk(i + 1) && |owner| == |old(owner)| + 1
      ensures Now() == old(Now()).(toWrite := old(toWrite) + [i], members := old(members)[i := [i]],
          owner := old(owner) + [i])
    {
      toWrite := toWrite + [i];
      members, owner := members[i := [i]], owner + [i];
    }

    /**
     * The groups are those of the reference; every packet is accounted for, UDP flows keep
     * their order, and each written buffer is either the packet as it came, its header
     * cleared, or the accounted merge of its members.
     */
    ghost predicate Delivered()
      reads this, tcp, udp
    {
      && |owner| == |orig| && Conserved(Now()) && InOrder(Now()) && members == Goal(|orig|).members
      && forall w :: w in toWrite ==> w in members && w < |bufs|
                                      && Outcome(bufs[w], Parts(orig, members[w]), members[w])
    }

    /** All packets went into the first buffer, in the order of `idx`. */
    ghost predicate OnePacket(idx: seq<nat>)
      reads this
    {
      && toWrite == [0] && 0 in members && members[0] == idx && bufs != []
      && (|idx| > 1 ==> bufs[0].head.Encoded?)
    }

    lemma OneGroupIsOnePacket(idx: seq<nat>)
      requires Delivered() && members == map[0 := idx]
      ensures OnePacket(idx)
    {
      OnlyGroup(Now(), idx);
      assert 0 in toWrite && 0 in members;
      if |idx| > 1 { MergedHasHeader(bufs[0], Parts(orig, idx), idx); }
    }

    /** A run of segments in order or back to front, or of datagrams, leaves as one packet. */
    ghost predicate RunsMerged()
      reads this
    {
      && (R.InOrder(Load()) ==> OnePacket(R.Upto(|orig|)))
      && (R.BackToFront(Load()) ==> OnePacket(R.Downto(|orig|)))
    }

    lemma RunsMerge()
      requires Delivered() && |rooms| == |orig|
      ensures RunsMerged()
    {
      if R.InOrder(Load()) {
        R.InOrderMerges(Load(), |orig|);
        OneGroupIsOnePacket(R.Upto(|orig|));
      }
      if R.BackToFront(Load()) {
        R.BackToFrontMerges(Load(), |orig|);
        OneGroupIsOnePacket(R.Downto(|orig|));
      }
    }

    /** Slices in use and slices in the pool. */
    ghost predicate PoolsAddUp()
      reads tcp, udp
    {
      tcp.itemsPool + |tcp.itemsByFlow| == IDEAL_BATCH_SIZE == udp.itemsPool + |udp.itemsByFlow|
    }

    /** The first `i` packets were acceptable, and have been looked at. */
    ghost predicate Evaluated(i: nat)
      reads this, tcp, udp
    {
      Valid() && i == |owner| <= |bufs| == |orig| && AllAcceptable(orig[..i], offset)
    }

    /** Packet `i`, if it has a byte and the offset leaves room for the header. */
    method HandleNext(i: nat) returns (ok: bool)
      requires Evaluated(i) && i < |bufs|
      modifies this, tcp, udp
      ensures if ok then Evaluated(i + 1) else !AllAcceptable(orig, offset) && PoolsAddUp()
    {
      NextIsPlain(Now());
      AcceptableNext(orig, offset, i);
      if offset < VIRTIO_NET_HDR_LEN || bufs[i].pkt == [] {
        return false;
      }
      HandleOne(i);
      return true;
    }

    /**
     * Fails on the first packet without room for the header or without a byte. Either way
     * the slices in use and those in the pool add up.
     */
    method HandleGro() returns (ok: bool)
      requires Valid() && owner == [] && toWrite == []
      modifies this, tcp, udp
      ensures ok == AllAcceptable(orig, offset) && PoolsAddUp()
      ensures ok ==> Delivered() && RunsMerged()
    {
      var i := 0;
      assert orig[..0] == [];
      while i < |bufs|
        invariant Evaluated(i)
        decreases |orig| - i
      {
        var acceptable := HandleNext(i);
        if !acceptable {
          return false;
        }
        i := i + 1;
      }
      FinishAll();
      return true;
    }

    method FinishAll()
      requires Evaluated(|bufs|)
      modifies `bufs
      ensures Delivered() && RunsMerged() && PoolsAddUp() && AllAcceptable(orig, offset)
    {
      WholeBatch(orig, |bufs|);
      AccountAll();
      RunsMerge();
    }

    method AccountAll()
      requires Valid() && |owner| == |orig| == |bufs|
      modifies `bufs
      ensures Delivered() && |rooms| == |orig|
    {
      ghost var s := Now();
      ghost var infos := s.infos;
      ReadyToAccount(s, canUdp, tcp.itemsByFlow, udp.itemsByFlow);
      ApplyCoalesceAccounting(tcp, infos);
      ghost var between := bufs;
      StaysReady(s, canUdp, tcp.itemsByFlow, udp.itemsByFlow, between);
      ApplyCoalesceAccounting(udp, infos);
      forall w | w in toWrite
        ensures w in members && w < |bufs| && Outcome(bufs[w], Parts(orig, members[w]), members[w])
      {
        WrittenOutcome(s, canUdp, tcp.itemsByFlow, udp.itemsByFlow, between, bufs, w);
      }
      BufsAside(s, Now());
    }
  }
}
