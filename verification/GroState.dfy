/**
 * The state of one GRO evaluation (handleGRO of tun/offload_linux.go) and what each of its
 * steps keeps: packets are conserved, every item's buffer is the merge of the packets that
 * went into it, and datagrams of one UDP flow stay in order. What "merge" means is a
 * parameter here (`merged`: item, buffer, packets and the order they arrived in), and so is
 * what the parser reads from each packet (`infos`).
 */
module GroState {
  import opened Bytes
  import opened GroItems
  import opened GsoSplit
  import opened Headers
  import opened Options

  /** The ten bytes before the packet: unwritten, zeroed, or an encoded header. */
  datatype Head = Stale | Cleared | Encoded(hdr: VirtioNetHdr)

  /** A buffer from the packet offset on; `room` is its capacity from there. */
  datatype Buf = Buf(head: Head, pkt: seq<Byte>, room: nat)

  /**
   * `members[w]` lists the packets that written packet `w` stands for, in sequence order;
   * `owner` gives the written packet of each packet looked at so far; `done` are those that
   * no item tracks.
   */
  datatype View = View(
    orig: seq<seq<Byte>>,
    infos: seq<Option<Info>>,
    merged: (Item, seq<Byte>, seq<seq<Byte>>, seq<nat>) -> bool,
    bufs: seq<Buf>,
    flows: map<FlowKey, seq<Item>>,
    toWrite: seq<nat>,
    members: map<nat, seq<nat>>,
    owner: seq<nat>,
    done: set<nat>)

  function Parts(orig: seq<seq<Byte>>, idx: seq<nat>): (r: seq<seq<Byte>>)
    ensures |r| == |idx|
  {
    seq(|idx|, j requires 0 <= j < |idx| => if idx[j] < |orig| then orig[idx[j]] else [])
  }

  lemma PartsAppend(orig: seq<seq<Byte>>, idx: seq<nat>, i: nat)
    requires i < |orig|
    ensures Parts(orig, idx + [i]) == Parts(orig, idx) + [orig[i]]
    ensures Parts(orig, [i] + idx) == [orig[i]] + Parts(orig, idx)
    ensures Parts(orig, [i]) == [orig[i]]
  {
  }

  predicate Tracked(items: seq<Item>, w: nat) {
    exists a :: 0 <= a < |items| && items[a].bufsIndex == w
  }

  // ---------- packets are conserved ----------

  predicate NoDup(s: seq<nat>) {
    forall a, b :: 0 <= a < b < |s| ==> s[a] != s[b]
  }

  predicate Increasing(s: seq<nat>) {
    forall a, b :: 0 <= a < b < |s| ==> s[a] < s[b]
  }

  predicate OwnerOk(v: View, i: nat) {
    i < |v.owner| ==> v.owner[i] in v.members && i in v.members[v.owner[i]]
  }

  predicate GroupOk(v: View, w: nat) {
    w in v.members ==>
      && w < |v.owner| && v.owner[w] == w && NoDup(v.members[w])
      && forall x :: x in v.members[w] ==> x < |v.owner| && v.owner[x] == w && SameFlow(v, x, w)
  }

  predicate SameFlow(v: View, x: nat, w: nat) {
    x == w || (x < |v.infos| && w < |v.infos| && v.infos[x].Some? && v.infos[w].Some?
        && v.infos[x].value.key == v.infos[w].value.key)
  }

  /**
   * What is written is listed once, in increasing order; every packet looked at belongs to
   * exactly one written packet, at exactly one place, and only packets of one flow merge.
   */
  ghost predicate Conserved(v: View) {
    && |v.bufs| == |v.orig| == |v.infos| && |v.owner| <= |v.orig|
    && Increasing(v.toWrite)
    && (forall w :: w in v.toWrite <==> w in v.members)
    && (forall i: nat :: OwnerOk(v, i))
    && (forall w: nat :: GroupOk(v, w))
  }

  // ---------- buffers hold what they should ----------

  predicate PlainOk(v: View, i: nat) {
    |v.owner| <= i < |v.orig| && i < |v.bufs| ==> v.bufs[i].pkt == v.orig[i]
  }

  predicate DoneOk(v: View, w: nat) {
    w in v.done ==> w in v.members && v.members[w] == [w] && w < |v.bufs| && w < |v.orig| && v.bufs[w].head == Cleared
                    && v.bufs[w].pkt == v.orig[w]
  }

  /** What `it` tracks: a written packet of its own flow, merged from that packet's members. */
  predicate Holding(v: View, k: FlowKey, it: Item) {
    && it.key == k && it.bufsIndex in v.members && it.bufsIndex !in v.done
    && it.bufsIndex < |v.bufs| && it.bufsIndex < |v.infos|
    && v.infos[it.bufsIndex].Some? && v.infos[it.bufsIndex].value.key == k
    && v.merged(it, v.bufs[it.bufsIndex].pkt, Parts(v.orig, v.members[it.bufsIndex]), v.members[it.bufsIndex])
  }

  predicate ItemOk(v: View, k: FlowKey, a: nat) {
    k in v.flows && a < |v.flows[k]| ==> Holding(v, k, v.flows[k][a])
  }

  predicate SortedOk(v: View, k: FlowKey, a: nat, b: nat) {
    k in v.flows && a < b < |v.flows[k]| ==> v.flows[k][a].bufsIndex < v.flows[k][b].bufsIndex
  }

  predicate TrackOk(v: View, w: nat) {
    w in v.members && w !in v.done ==>
      w < |v.infos| && v.infos[w].Some? && v.infos[w].value.key in v.flows && Tracked(v.flows[v.infos[w].value.key], w)
  }

  ghost predicate Tidy(v: View) {
    && (forall i: nat :: PlainOk(v, i))
    && (forall w: nat :: DoneOk(v, w))
    && (forall k, a: nat :: ItemOk(v, k, a))
    && (forall k, a: nat, b: nat :: SortedOk(v, k, a, b))
    && (forall w: nat :: TrackOk(v, w))
  }

  // ---------- UDP flows stay in order ----------

  predicate IsUdp(v: View, w: nat, k: FlowKey) {
    w < |v.infos| && v.infos[w].Some? && v.infos[w].value.key == k && k.UdpKey?
  }

  predicate Before(s: seq<nat>, t: seq<nat>) {
    forall x, y :: x in s && y in t ==> x < y
  }

  predicate OrderOk(v: View, k: FlowKey, w: nat, w': nat) {
    w in v.members && w' in v.members && w < w' && IsUdp(v, w, k) && IsUdp(v, w', k) ==>
      Before(v.members[w], v.members[w'])
  }

  predicate UdpOk(v: View, k: FlowKey, w: nat) {
    w in v.members && IsUdp(v, w, k) ==> w !in v.done && Increasing(v.members[w])
  }

  predicate NonEmptyOk(v: View, k: FlowKey) {
    k in v.flows && k.UdpKey? ==> v.flows[k] != []
  }

  ghost predicate InOrder(v: View) {
    && (forall k, w: nat, w': nat :: OrderOk(v, k, w, w'))
    && (forall k, w: nat :: UdpOk(v, k, w))
    && (forall k :: NonEmptyOk(v, k))
  }

  ghost predicate Inv(v: View) {
    Conserved(v) && Tidy(v) && InOrder(v)
  }

  // ---------- the steps ----------

  /** The next packet is written as it is. */
  function Skip(v: View): View
    requires |v.owner| < |v.bufs|
  {
    var i := |v.owner|;
    v.(bufs := v.bufs[i := v.bufs[i].(head := Cleared)], toWrite := v.toWrite + [i], members := v.members[i := [i]],
       owner := v.owner + [i], done := v.done + {i})
  }

  function ItemsOf(v: View, k: FlowKey): seq<Item> {
    if k in v.flows then v.flows[k] else []
  }

  /** The next packet starts an item. */
  function Enter(v: View, it: Item): View {
    var i := |v.owner|;
    v.(flows := v.flows[it.key := ItemsOf(v, it.key) + [it]], toWrite := v.toWrite + [i],
        members := v.members[i := [i]],
       owner := v.owner + [i])
  }

  /** The next packet joins item `a` of flow `k`, at the front or at the end. */
  function Join(v: View, k: FlowKey, a: nat, it: Item, buf: Buf, other: Buf, front: bool): View
    requires k in v.flows && a < |v.flows[k]| && it.bufsIndex in v.members && it.bufsIndex < |v.bufs|
        && |v.owner| < |v.bufs|
  {
    var i, w := |v.owner|, it.bufsIndex;
    v.(bufs := v.bufs[w := buf][i := other], flows := v.flows[k := v.flows[k][a := it]],
       members := v.members[w := if front then [i] + v.members[w] else v.members[w] + [i]],
       owner := v.owner + [w])
  }

  function Without<T>(s: seq<T>, a: nat): seq<T>
    requires a < |s|
  {
    s[..a] + s[a + 1..]
  }

  /** Item `a` of flow `k` leaves the table; its packet is written as it is. */
  function Drop(v: View, k: FlowKey, a: nat): View
    requires k in v.flows && a < |v.flows[k]| && v.flows[k][a].bufsIndex < |v.bufs|
  {
    var w := v.flows[k][a].bufsIndex;
    v.(bufs := v.bufs[w := v.bufs[w].(head := Cleared)], flows := v.flows[k := Without(v.flows[k], a)],
        done := v.done + {w})
  }

  // ---------- Skip ----------

  lemma SkipConserves(v: View)
    requires Conserved(v) && |v.owner| < |v.bufs|
    ensures Conserved(Skip(v))
  {
    var t := Skip(v);
    StartGroup(v, t);
  }

  /** Skip and Enter start a group of one. */
  lemma StartGroup(v: View, t: View)
    requires Conserved(v) && |v.owner| < |v.orig|
    requires |t.bufs| == |v.bufs| && t.orig == v.orig && t.infos == v.infos
    requires t.toWrite == v.toWrite + [|v.owner|] && t.members == v.members[|v.owner| := [|v.owner|]]
        && t.owner == v.owner + [|v.owner|]
    ensures Conserved(t)
  {
    var i := |v.owner|;
    forall a | 0 <= a < |v.toWrite| ensures v.toWrite[a] < i {
      assert v.toWrite[a] in v.toWrite;
      assert GroupOk(v, v.toWrite[a]);
    }
    forall x: nat ensures OwnerOk(t, x) {
      assert OwnerOk(v, x);
      assert GroupOk(v, i);
    }
    forall w: nat ensures GroupOk(t, w) { assert GroupOk(v, w); }
  }

  lemma SkipTidies(v: View)
    requires Conserved(v) && Tidy(v) && |v.owner| < |v.bufs|
    ensures Tidy(Skip(v))
  {
    var t := Skip(v);
    var n := |v.owner|;
    assert GroupOk(v, n);
    forall i: nat ensures PlainOk(t, i) { assert PlainOk(v, i); }
    forall w: nat ensures DoneOk(t, w) { assert DoneOk(v, w) && PlainOk(v, n); }
    forall k, a: nat ensures ItemOk(t, k, a) { assert ItemOk(v, k, a); }
    forall k, a: nat, b: nat ensures SortedOk(t, k, a, b) { assert SortedOk(v, k, a, b); }
    forall w: nat ensures TrackOk(t, w) { assert TrackOk(v, w); }
  }

  lemma SkipKeepsOrder(v: View)
    requires Conserved(v) && InOrder(v) && |v.owner| < |v.bufs|
        && (v.infos[|v.owner|].Some? ==> !v.infos[|v.owner|].value.key.UdpKey?)
    ensures InOrder(Skip(v))
  {
    var t := Skip(v);
    forall k, w: nat, w': nat ensures OrderOk(t, k, w, w') { assert OrderOk(v, k, w, w'); }
    forall k, w: nat ensures UdpOk(t, k, w) { assert UdpOk(v, k, w); }
    forall k ensures NonEmptyOk(t, k) { assert NonEmptyOk(v, k); }
  }

  lemma SkipKeeps(v: View)
    requires Inv(v) && |v.owner| < |v.bufs| && (v.infos[|v.owner|].Some? ==> !v.infos[|v.owner|].value.key.UdpKey?)
    ensures Inv(Skip(v))
  {
    SkipConserves(v);
    SkipTidies(v);
    SkipKeepsOrder(v);
  }

  // ---------- Enter ----------

  ghost predicate MayEnter(v: View, it: Item) {
    var n := |v.owner|;
    && n < |v.bufs| == |v.orig| == |v.infos| && it.bufsIndex == n
    && v.infos[n].Some? && v.infos[n].value.key == it.key
    && v.merged(it, v.bufs[n].pkt, Parts(v.orig, [n]), [n])
  }

  lemma EnterItem(v: View, it: Item, k: FlowKey, a: nat)
    requires MayEnter(v, it) && ItemOk(v, k, a) && GroupOk(v, |v.owner|) && DoneOk(v, |v.owner|)
    ensures ItemOk(Enter(v, it), k, a)
  {
  }

  lemma EnterSorted(v: View, it: Item, k: FlowKey, a: nat, b: nat)
    requires MayEnter(v, it) && SortedOk(v, k, a, b) && ItemOk(v, k, a)
    requires forall w: nat :: GroupOk(v, w)
    ensures SortedOk(Enter(v, it), k, a, b)
  {
    if k in v.flows && a < |v.flows[k]| { assert GroupOk(v, v.flows[k][a].bufsIndex); }
  }

  lemma EnterTracks(v: View, it: Item, w: nat)
    requires MayEnter(v, it) && TrackOk(v, w)
    ensures TrackOk(Enter(v, it), w)
  {
    var items := ItemsOf(v, it.key);
    if w == |v.owner| {
      assert (items + [it])[|items|].bufsIndex == w;
    } else if w in v.members && w !in v.done && v.infos[w].value.key == it.key {
      var a :| 0 <= a < |items| && items[a].bufsIndex == w;
      assert (items + [it])[a].bufsIndex == w;
    }
  }

  lemma EnterTidies(v: View, it: Item)
    requires Conserved(v) && Tidy(v) && MayEnter(v, it)
    ensures Tidy(Enter(v, it))
  {
    var t, n := Enter(v, it), |v.owner|;
    assert GroupOk(v, n) && DoneOk(v, n);
    forall i: nat ensures PlainOk(t, i) { assert PlainOk(v, i); }
    forall w: nat ensures DoneOk(t, w) { assert DoneOk(v, w); }
    forall k, a: nat ensures ItemOk(t, k, a) {
      assert ItemOk(v, k, a);
      EnterItem(v, it, k, a);
    }
    forall k, a: nat, b: nat ensures SortedOk(t, k, a, b) {
      assert SortedOk(v, k, a, b) && ItemOk(v, k, a);
      EnterSorted(v, it, k, a, b);
    }
    forall w: nat ensures TrackOk(t, w) {
      assert TrackOk(v, w);
      EnterTracks(v, it, w);
    }
  }

  lemma EnterOrder(v: View, it: Item, k: FlowKey, w: nat, w': nat)
    requires MayEnter(v, it) && OrderOk(v, k, w, w') && GroupOk(v, w) && GroupOk(v, w')
    ensures OrderOk(Enter(v, it), k, w, w')
  {
  }

  lemma EnterKeepsOrder(v: View, it: Item)
    requires Conserved(v) && Tidy(v) && InOrder(v) && MayEnter(v, it)
    ensures InOrder(Enter(v, it))
  {
    var t := Enter(v, it);
    assert DoneOk(v, |v.owner|) && GroupOk(v, |v.owner|);
    forall k, w: nat, w': nat ensures OrderOk(t, k, w, w') {
      assert OrderOk(v, k, w, w') && GroupOk(v, w) && GroupOk(v, w');
      EnterOrder(v, it, k, w, w');
    }
    forall k, w: nat ensures UdpOk(t, k, w) { assert UdpOk(v, k, w); }
    forall k ensures NonEmptyOk(t, k) { assert NonEmptyOk(v, k); }
  }

  lemma EnterKeeps(v: View, it: Item)
    requires Inv(v) && MayEnter(v, it)
    ensures Inv(Enter(v, it))
  {
    StartGroup(v, Enter(v, it));
    EnterTidies(v, it);
    EnterKeepsOrder(v, it);
  }

  // ---------- Drop ----------

  ghost predicate MayDrop(v: View, k: FlowKey, a: nat) {
    && k in v.flows && a < |v.flows[k]| && k.TcpKey? && Holding(v, k, v.flows[k][a])
    && var w := v.flows[k][a].bufsIndex;
       v.members[w] == [w] && w < |v.orig| && v.bufs[w].pkt == v.orig[w]
  }

  lemma WithoutAt<T>(s: seq<T>, a: nat, b: nat)
    requires a < |s| && b < |s| - 1
    ensures |Without(s, a)| == |s| - 1 && Without(s, a)[b] == s[if b < a then b else b + 1]
  {
  }

  lemma DropItem(v: View, k: FlowKey, a: nat, k': FlowKey, b: nat)
    requires MayDrop(v, k, a) && ItemOk(v, k', b) && ItemOk(v, k', b + 1)
    requires SortedOk(v, k, a, b + 1) && SortedOk(v, k, b, a)
    ensures ItemOk(Drop(v, k, a), k', b)
  {
    if k' == k && b < |v.flows[k]| - 1 { WithoutAt(v.flows[k], a, b); }
  }

  lemma DropSorted(v: View, k: FlowKey, a: nat, k': FlowKey, b: nat, c: nat)
    requires MayDrop(v, k, a) && SortedOk(v, k', b, c) && SortedOk(v, k', b, c + 1) && SortedOk(v, k', b + 1, c + 1)
    ensures SortedOk(Drop(v, k, a), k', b, c)
  {
    if k' == k && b < c < |v.flows[k]| - 1 {
      WithoutAt(v.flows[k], a, b);
      WithoutAt(v.flows[k], a, c);
    }
  }

  lemma DropTracks(v: View, k: FlowKey, a: nat, w: nat)
    requires MayDrop(v, k, a) && TrackOk(v, w)
    ensures TrackOk(Drop(v, k, a), w)
  {
    var items := v.flows[k];
    if w in v.members && w !in v.done && w != items[a].bufsIndex && v.infos[w].value.key == k {
      var b :| 0 <= b < |items| && items[b].bufsIndex == w;
      var c := if b < a then b else b - 1;
      WithoutAt(items, a, c);
      assert Without(items, a)[c].bufsIndex == w;
    }
  }

  lemma DropTidies(v: View, k: FlowKey, a: nat)
    requires Conserved(v) && Tidy(v) && MayDrop(v, k, a)
    ensures Tidy(Drop(v, k, a))
  {
    var t, w := Drop(v, k, a), v.flows[k][a].bufsIndex;
    assert GroupOk(v, w);
    forall i: nat ensures PlainOk(t, i) { assert PlainOk(v, i); }
    forall x: nat ensures DoneOk(t, x) { assert DoneOk(v, x); }
    forall k', b: nat ensures ItemOk(t, k', b) {
      assert ItemOk(v, k', b) && ItemOk(v, k', b + 1) && SortedOk(v, k, a, b + 1) && SortedOk(v, k, b, a);
      DropItem(v, k, a, k', b);
    }
    forall k', b: nat, c: nat ensures SortedOk(t, k', b, c) {
      assert SortedOk(v, k', b, c) && SortedOk(v, k', b, c + 1) && SortedOk(v, k', b + 1, c + 1);
      DropSorted(v, k, a, k', b, c);
    }
    forall x: nat ensures TrackOk(t, x) {
      assert TrackOk(v, x);
      DropTracks(v, k, a, x);
    }
  }

  lemma DropKeeps(v: View, k: FlowKey, a: nat)
    requires Inv(v) && MayDrop(v, k, a)
    ensures Inv(Drop(v, k, a))
  {
    var t := Drop(v, k, a);
    DropTidies(v, k, a);
    assert Conserved(t) by {
      forall i: nat ensures OwnerOk(t, i) { assert OwnerOk(v, i); }
      forall w: nat ensures GroupOk(t, w) { assert GroupOk(v, w); }
    }
    forall k', w: nat, w': nat ensures OrderOk(t, k', w, w') { assert OrderOk(v, k', w, w'); }
    forall k', w: nat ensures UdpOk(t, k', w) { assert UdpOk(v, k', w); }
    forall k' ensures NonEmptyOk(t, k') { assert NonEmptyOk(v, k'); }
  }

  // ---------- Join ----------

  function Joined(v: View, w: nat, front: bool): seq<nat>
    requires w in v.members
  {
    if front then [|v.owner|] + v.members[w] else v.members[w] + [|v.owner|]
  }

  ghost predicate MayJoin(v: View, k: FlowKey, a: nat, it: Item, buf: Buf, front: bool) {
    var n := |v.owner|;
    && n < |v.bufs| == |v.orig| == |v.infos| && v.infos[n].Some? && v.infos[n].value.key == k
    && k in v.flows && a < |v.flows[k]| && Holding(v, k, v.flows[k][a])
    && it.key == k && it.bufsIndex == v.flows[k][a].bufsIndex
    && v.merged(it, buf.pkt, Parts(v.orig, Joined(v, it.bufsIndex, front)), Joined(v, it.bufsIndex, front))
    && (k.UdpKey? ==> !front && a == |v.flows[k]| - 1)
  }

  lemma Grows(s: seq<nat>, x: nat)
    requires forall y :: y in s ==> y < x
    ensures NoDup(s) ==> NoDup(s + [x]) && NoDup([x] + s)
    ensures Increasing(s) ==> Increasing(s + [x])
  {
    assert forall a :: 0 <= a < |s| ==> s[a] in s;
  }

  lemma JoinConserves(v: View, k: FlowKey, a: nat, it: Item, buf: Buf, other: Buf, front: bool)
    requires Conserved(v) && MayJoin(v, k, a, it, buf, front)
    ensures Conserved(Join(v, k, a, it, buf, other, front))
  {
    var t, n, w := Join(v, k, a, it, buf, other, front), |v.owner|, it.bufsIndex;
    assert GroupOk(v, w);
    forall i: nat ensures OwnerOk(t, i) { assert OwnerOk(v, i); }
    Grows(v.members[w], n);
    forall x: nat ensures GroupOk(t, x) { assert GroupOk(v, x); }
  }

  lemma JoinItem(v: View, k: FlowKey, a: nat, it: Item, buf: Buf, other: Buf, front: bool, k': FlowKey, b: nat)
    requires MayJoin(v, k, a, it, buf, front) && ItemOk(v, k', b) && GroupOk(v, |v.owner|) && GroupOk(v, it.bufsIndex)
    requires SortedOk(v, k, a, b) && SortedOk(v, k, b, a)
    ensures ItemOk(Join(v, k, a, it, buf, other, front), k', b)
  {
  }

  lemma JoinTracks(v: View, k: FlowKey, a: nat, it: Item, buf: Buf, other: Buf, front: bool, x: nat)
    requires MayJoin(v, k, a, it, buf, front) && TrackOk(v, x)
    ensures TrackOk(Join(v, k, a, it, buf, other, front), x)
  {
    var items := v.flows[k];
    if x in v.members && x !in v.done && v.infos[x].value.key == k {
      var b :| 0 <= b < |items| && items[b].bufsIndex == x;
      assert items[a := it][b].bufsIndex == x;
    }
  }

  lemma JoinTidies(v: View, k: FlowKey, a: nat, it: Item, buf: Buf, other: Buf, front: bool)
    requires Conserved(v) && Tidy(v) && MayJoin(v, k, a, it, buf, front)
    ensures Tidy(Join(v, k, a, it, buf, other, front))
  {
    var t, n, w := Join(v, k, a, it, buf, other, front), |v.owner|, it.bufsIndex;
    assert GroupOk(v, w) && GroupOk(v, n);
    forall i: nat ensures PlainOk(t, i) { assert PlainOk(v, i); }
    forall x: nat ensures DoneOk(t, x) { assert DoneOk(v, x); }
    forall k', b: nat ensures ItemOk(t, k', b) {
      assert ItemOk(v, k', b) && SortedOk(v, k, a, b) && SortedOk(v, k, b, a);
      JoinItem(v, k, a, it, buf, other, front, k', b);
    }
    forall k', b: nat, c: nat ensures SortedOk(t, k', b, c) { assert SortedOk(v, k', b, c); }
    forall x: nat ensures TrackOk(t, x) {
      assert TrackOk(v, x);
      JoinTracks(v, k, a, it, buf, other, front, x);
    }
  }

  /** The last item of a UDP flow is the newest written packet of that flow. */
  lemma LastIsNewest(v: View, k: FlowKey, a: nat, w: nat)
    requires Inv(v) && k in v.flows && a == |v.flows[k]| - 1 && w in v.members && IsUdp(v, w, k)
    ensures w <= v.flows[k][a].bufsIndex
  {
    assert UdpOk(v, k, w) && TrackOk(v, w);
    var b :| 0 <= b < |v.flows[k]| && v.flows[k][b].bufsIndex == w;
    assert SortedOk(v, k, b, a);
  }

  lemma JoinOrder(v: View, k: FlowKey, a: nat, it: Item, buf: Buf, other: Buf, front: bool, k': FlowKey, x: nat, y: nat)
    requires Inv(v) && MayJoin(v, k, a, it, buf, front)
    ensures OrderOk(Join(v, k, a, it, buf, other, front), k', x, y)
  {
    assert OrderOk(v, k', x, y) && GroupOk(v, x) && GroupOk(v, y);
    if x == it.bufsIndex && y in v.members && IsUdp(v, x, k') && IsUdp(v, y, k') { LastIsNewest(v, k, a, y); }
  }

  lemma JoinUdp(v: View, k: FlowKey, a: nat, it: Item, buf: Buf, other: Buf, front: bool, k': FlowKey, x: nat)
    requires UdpOk(v, k', x) && GroupOk(v, x) && GroupOk(v, it.bufsIndex) && MayJoin(v, k, a, it, buf, front)
    ensures UdpOk(Join(v, k, a, it, buf, other, front), k', x)
  {
    if x in v.members { Grows(v.members[x], |v.owner|); }
  }

  lemma JoinKeeps(v: View, k: FlowKey, a: nat, it: Item, buf: Buf, other: Buf, front: bool)
    requires Inv(v) && MayJoin(v, k, a, it, buf, front)
    ensures Inv(Join(v, k, a, it, buf, other, front))
  {
    var t := Join(v, k, a, it, buf, other, front);
    JoinConserves(v, k, a, it, buf, other, front);
    JoinTidies(v, k, a, it, buf, other, front);
    forall k', x: nat, y: nat ensures OrderOk(t, k', x, y) { JoinOrder(v, k, a, it, buf, other, front, k', x, y); }
    forall k', x: nat ensures UdpOk(t, k', x) {
      assert UdpOk(v, k', x) && GroupOk(v, x) && GroupOk(v, it.bufsIndex);
      JoinUdp(v, k, a, it, buf, other, front, k', x);
    }
    forall k' ensures NonEmptyOk(t, k') { assert NonEmptyOk(v, k'); }
  }

  /**
   * Of two datagrams of one UDP flow, the earlier is written in the same or an earlier
   * packet, and when it is the same one, at an earlier place.
   */
  lemma UdpOrderKept(v: View, k: FlowKey, x: nat, y: nat)
    requires Conserved(v) && InOrder(v) && x < y < |v.owner| && IsUdp(v, x, k) && IsUdp(v, y, k)
    ensures v.owner[x] <= v.owner[y] && v.owner[x] in v.members && Increasing(v.members[v.owner[x]])
  {
    var w, w' := v.owner[x], v.owner[y];
    assert OwnerOk(v, x) && OwnerOk(v, y);
    assert GroupOk(v, w) && GroupOk(v, w');
    assert SameFlow(v, x, w) && SameFlow(v, y, w');
    assert UdpOk(v, k, w);
    assert OrderOk(v, k, w', w);
  }
}
