/**
 * The AllowedIPs table of device/allowedips.go on the heap: trie nodes with child and
 * parent pointers, and a list of nodes per peer. `shape` is the value the pointers draw
 * (TrieShape.dfy); every method keeps the two in step, and the longest-prefix results of
 * TrieCanon.dfy and TrieEdits.dfy carry over.
 */
module AllowedIPs {
  import opened Options
  import opened TrieShape
  import opened TrieCanon
  import opened TrieEdits

  /** parentIndirection: the address of a root pointer or of a child slot. */
  datatype Indirection = OfRoot(v6: bool) | OfChild(node: TrieEntry, bit: Bit)

  type Kids = s: seq<TrieEntry?> | |s| == 2 witness [null, null]

  /** A peer, by identity. */
  datatype Peer = Peer(id: nat)

  /** Clear the bits from `cidr` on. */
  function Mask(bits: seq<Bit>, cidr: nat): (r: seq<Bit>)
    requires cidr <= |bits|
    ensures |r| == |bits| && r[..cidr] == bits[..cidr]
  {
    bits[..cidr] + seq(|bits| - cidr, _ => 0)
  }

  class TrieEntry {
    const bits: seq<Bit>
    const cidr: nat
    var peer: Option<Peer>
    var child: Kids
    var parent: Indirection

    constructor (ip: seq<Bit>, cidr: nat, peer: Option<Peer>, parent: Indirection)
      requires cidr <= |ip|
      ensures this.bits == Mask(ip, cidr) && this.cidr == cidr && this.peer == peer
      ensures child == [null, null]
    {
      this.bits := Mask(ip, cidr);
      this.cidr := cidr;
      this.peer := peer;
      this.child := [null, null];
      this.parent := parent;
    }

    /** The masked prefix of this node. */
    ghost function Name(): Key {
      Key(|bits| == 128, if cidr <= |bits| then bits[..cidr] else bits)
    }

    function Now(): Fields
      reads this
    {
      Fields(peer, child, parent)
    }

    ghost predicate Fits(k: Key) {
      Name() == k && cidr == |k.bits| <= |bits| == Width(k.v6)
    }

    function Choose(ip: seq<Bit>): Bit
      requires cidr < |ip|
    {
      ip[cidr]
    }
  }

  ghost predicate Points(p: TrieEntry?, c: Option<Key>, nodes: map<Key, TrieEntry>) {
    if c.None? then p == null else c.value in nodes && p == nodes[c.value]
  }

  ghost predicate Addresses(a: Indirection, l: Link, nodes: map<Key, TrieEntry>) {
    match l
    case Root(v6) => a == OfRoot(v6)
    case Below(key, bit) => key in nodes && a == OfChild(nodes[key], bit)
  }

  /** What a node holds, read at one moment. */
  datatype Fields = Fields(peer: Option<Peer>, child: Kids, parent: Indirection)

  /** A node's pointers draw its view. */
  ghost predicate Draws(f: Fields, v: View<Peer>, nodes: map<Key, TrieEntry>) {
    && f.peer == v.peer
    && Points(f.child[0], v.child[0], nodes) && Points(f.child[1], v.child[1], nodes)
    && Addresses(f.parent, v.parent, nodes)
  }

  ghost predicate Named(nodes: map<Key, TrieEntry>) {
    forall k :: k in nodes ==> nodes[k].Fits(k)
  }

  /** All pointers at one moment draw the shape. */
  ghost predicate DrawsAll(snap: map<Key, Fields>, s: Shape<Peer>, nodes: map<Key, TrieEntry>) {
    && snap.Keys == s.nodes.Keys == nodes.Keys
    && forall k :: DrawsAt(snap, s, nodes, k)
  }

  ghost predicate DrawsAt(snap: map<Key, Fields>, s: Shape<Peer>, nodes: map<Key, TrieEntry>, k: Key) {
    k in snap && k in s.nodes ==> Draws(snap[k], s.nodes[k], nodes)
  }

  /** The fields of node `e` after `n` is linked in at `a`, above `down`. */
  ghost function Relinked(e: TrieEntry, f: Fields, a: Indirection, n: TrieEntry, down: TrieEntry?,
        under: Indirection): Fields {
    var f := if a.OfChild? && a.node == e then f.(child := f.child[a.bit := n]) else f;
    if e == down then f.(parent := under) else f
  }

  ghost function Under(n: TrieEntry, down: TrieEntry?): Indirection {
    if down != null && n.cidr < |down.bits| then OfChild(n, n.Choose(down.bits)) else OfRoot(false)
  }

  ghost function Kid(n: TrieEntry, down: TrieEntry?): Kids {
    if down != null && n.cidr < |down.bits| then [null, null][n.Choose(down.bits) := down] else [null, null]
  }

  lemma PutDraws(nodes: map<Key, TrieEntry>, s: Shape<Peer>, a: Indirection, l: Link, k: Key, n: TrieEntry,
        peer: Option<Peer>, j: Key, f: Fields)
    requires Named(nodes) && nodes.Keys == s.nodes.Keys && j in nodes && k !in nodes
    requires HasLink(s, l) && Addresses(a, l, nodes) && n.Fits(k)
    requires At(s, l).Some? ==> At(s, l).value in nodes && |k.bits| < |At(s, l).value.bits|
    requires Draws(f, s.nodes[j], nodes)
    ensures var down := if At(s, l).Some? then nodes[At(s, l).value] else null;
            Draws(Relinked(nodes[j], f, a, n, down, Under(n, down)), PutView(s, l, k, peer, At(s, l), j), nodes[k := n])
  {
    var m := nodes[k := n];
    var d := At(s, l);
    var down := if d.Some? then nodes[d.value] else null;
    if d.Some? { assert nodes[d.value].Fits(d.value); }
    assert nodes[j].Fits(j);
    assert down == nodes[j] <==> d == Some(j);
    assert l.Below? ==> nodes[l.key].Fits(l.key) && (nodes[l.key] == nodes[j] <==> l.key == j);
    if l.Below? { assert l.bit == 0 || l.bit == 1; }
  }

  /** All fields after the surgery of insert. */
  ghost function SnapAfterPut(snap: map<Key, Fields>, nodes: map<Key, TrieEntry>, a: Indirection, n: TrieEntry, k: Key,
        down: TrieEntry?, peer: Option<Peer>): map<Key, Fields>
  {
    map j | j in snap.Keys + {k} ::
      if j == k then Fields(peer, Kid(n, down), a)
      else if j in nodes then Relinked(nodes[j], snap[j], a, n, down, Under(n, down))
      else snap[j]
  }

  lemma PutDrawsAll(snap: map<Key, Fields>, nodes: map<Key, TrieEntry>, s: Shape<Peer>, a: Indirection, l: Link, k: Key,
        n: TrieEntry, peer: Option<Peer>, down: TrieEntry?)
    requires Named(nodes) && DrawsAll(snap, s, nodes) && k !in nodes
    requires HasLink(s, l) && Addresses(a, l, nodes) && n.Fits(k)
    requires At(s, l).Some? ==> At(s, l).value in nodes && |k.bits| < |At(s, l).value.bits|
    requires Points(down, At(s, l), nodes)
    ensures DrawsAll(SnapAfterPut(snap, nodes, a, n, k, down, peer), Put(s, l, k, peer), nodes[k := n])
  {
    var t, s', m := SnapAfterPut(snap, nodes, a, n, k, down, peer), Put(s, l, k, peer), nodes[k := n];
    forall j ensures DrawsAt(t, s', m, j) {
      if j == k {
        NewDraws(nodes, s, a, l, k, n, peer, down);
      } else if j in s.nodes {
        assert DrawsAt(snap, s, nodes, j);
        PutDraws(nodes, s, a, l, k, n, peer, j, snap[j]);
      }
    }
  }

  lemma NewDraws(nodes: map<Key, TrieEntry>, s: Shape<Peer>, a: Indirection, l: Link, k: Key, n: TrieEntry,
        peer: Option<Peer>, down: TrieEntry?)
    requires Named(nodes) && k !in nodes && HasLink(s, l) && Addresses(a, l, nodes) && n.Fits(k)
    requires At(s, l).Some? ==> At(s, l).value in nodes && |k.bits| < |At(s, l).value.bits|
    requires Points(down, At(s, l), nodes)
    ensures Draws(Fields(peer, Kid(n, down), a), View(peer, KidsOf(k, At(s, l)), l), nodes[k := n])
  {
    if At(s, l).Some? {
      NamedBits(nodes, At(s, l).value, n.cidr);
    }
  }

  lemma NamedPut(nodes: map<Key, TrieEntry>, k: Key, n: TrieEntry)
    requires Named(nodes) && n.Fits(k)
    ensures Named(nodes[k := n])
  {
  }

  lemma PutRoot(m: map<Key, TrieEntry>, s: Shape<Peer>, l: Link, k: Key, n: TrieEntry, peer: Option<Peer>,
        a: Indirection, v6: bool, p: TrieEntry?)
    requires s.nodes.Keys == m.Keys && k !in m && HasLink(s, l) && Addresses(a, l, m)
    requires At(s, l).Some? ==> At(s, l).value in m && |k.bits| < |At(s, l).value.bits|
    requires if a == OfRoot(v6) then p == n else Points(p, At(s, Root(v6)), m)
    ensures Points(p, At(Put(s, l, k, peer), Root(v6)), m[k := n])
  {
  }

  lemma NamedBits(nodes: map<Key, TrieEntry>, d: Key, i: nat)
    requires Named(nodes) && d in nodes && i < |d.bits|
    ensures |d.bits| <= |nodes[d].bits| && nodes[d].bits[i] == d.bits[i]
  {
    assert nodes[d].Fits(d);
    assert d.bits == nodes[d].bits[..|d.bits|];
  }

  /** What the table knows about its heap: nodes by name, their fields, the shape drawn. */
  datatype Drawing = Drawing(nodes: map<Key, TrieEntry>, snap: map<Key, Fields>, shape: Shape<Peer>,
        repr: set<TrieEntry>)

  /** The recorded fields and the two roots draw the shape. */
  ghost predicate Drawn(g: Drawing, p4: TrieEntry?, p6: TrieEntry?) {
    && Named(g.nodes)
    && DrawsAll(g.snap, g.shape, g.nodes)
    && Points(p4, At(g.shape, Root(false)), g.nodes)
    && Points(p6, At(g.shape, Root(true)), g.nodes)
  }

  /** The heap holds the recorded fields. */
  ghost predicate Holds(g: Drawing)
    reads g.repr
  {
    g.snap.Keys == g.nodes.Keys && forall k :: k in g.nodes ==> g.nodes[k] in g.repr && g.nodes[k].Now() == g.snap[k]
  }

  ghost function PutDrawing(g: Drawing, a: Indirection, l: Link, k: Key, n: TrieEntry, down: TrieEntry?,
        peer: Option<Peer>): Drawing
    requires g.snap.Keys == g.nodes.Keys && HasLink(g.shape, l)
    requires At(g.shape, l).Some? ==> |k.bits| < |At(g.shape, l).value.bits|
  {
    Drawing(g.nodes[k := n], SnapAfterPut(g.snap, g.nodes, a, n, k, down, peer), Put(g.shape, l, k, peer), g.repr + {n})
  }

  lemma PutDrawn(g: Drawing, a: Indirection, l: Link, k: Key, n: TrieEntry, down: TrieEntry?, peer: Option<Peer>,
        p4: TrieEntry?, p6: TrieEntry?, q4: TrieEntry?, q6: TrieEntry?)
    requires Drawn(g, p4, p6) && k !in g.nodes && HasLink(g.shape, l) && Addresses(a, l, g.nodes) && n.Fits(k)
    requires At(g.shape, l).Some? ==> At(g.shape, l).value in g.nodes && |k.bits| < |At(g.shape, l).value.bits|
    requires Points(down, At(g.shape, l), g.nodes)
    requires q4 == (if a == OfRoot(false) then n else p4) && q6 == (if a == OfRoot(true) then n else p6)
    ensures Drawn(PutDrawing(g, a, l, k, n, down, peer), q4, q6)
  {
    PutDrawsAll(g.snap, g.nodes, g.shape, a, l, k, n, peer, down);
    NamedPut(g.nodes, k, n);
    PutRoot(g.nodes, g.shape, l, k, n, peer, a, false, q4);
    PutRoot(g.nodes, g.shape, l, k, n, peer, a, true, q6);
  }

  // ---------- taking a node out ----------

  /** The fields of node `e` after `*a = c`, and `a` is where `c` hangs. */
  ghost function Unlinked(e: TrieEntry, f: Fields, a: Indirection, c: TrieEntry?): Fields {
    var f := if a.OfChild? && a.node == e then f.(child := f.child[a.bit := c]) else f;
    if e == c then f.(parent := a) else f
  }

  lemma SpliceDraws(nodes: map<Key, TrieEntry>, s: Shape<Peer>, k: Key, a: Indirection, c: TrieEntry?, j: Key,
        f: Fields)
    requires Named(nodes) && nodes.Keys == s.nodes.Keys && j in nodes && j != k
    requires Sound(s) && CanSplice(s, k) && Addresses(a, s.nodes[k].parent, nodes)
        && Points(c, OnlyChild(s.nodes[k]), nodes)
    requires Draws(f, s.nodes[j], nodes)
    ensures Draws(Unlinked(nodes[j], f, a, c), SpliceView(s, s.nodes[k].parent, OnlyChild(s.nodes[k]), j), nodes - {k})
  {
    var l, d := s.nodes[k].parent, OnlyChild(s.nodes[k]);
    if d.Some? { var b := OnlyChildFits(s, k); }
    SpliceNotSeen(s, k, j);
    SpliceDrawsView(nodes, s.nodes[j], k, l, d, a, c, j, f);
  }

  lemma SpliceDrawsView(nodes: map<Key, TrieEntry>, v: View<Peer>, k: Key, l: Link, d: Option<Key>, a: Indirection,
        c: TrieEntry?, j: Key, f: Fields)
    requires Named(nodes) && j in nodes && j != k
    requires Addresses(a, l, nodes) && Points(c, d, nodes) && Draws(f, v, nodes)
    requires (l.Below? ==> l.key != k) && d != Some(k)
    requires forall b: Bit :: v.child[b] == Some(k) ==> l == Below(j, b)
    requires v.parent.Below? && v.parent.key == k ==> d == Some(j)
    ensures var v1 := if l.Below? && l.key == j then Child(v, l.bit, d) else v;
            var v2 := if d == Some(j) then v1.(parent := l) else v1;
            Draws(Unlinked(nodes[j], f, a, c), v2, nodes - {k})
  {
    assert nodes[j].Fits(j);
    if l.Below? { assert nodes[l.key].Fits(l.key) && (l.bit == 0 || l.bit == 1); }
    if d.Some? { assert nodes[d.value].Fits(d.value); }
    assert v.child[0] == Some(k) ==> l == Below(j, 0);
    assert v.child[1] == Some(k) ==> l == Below(j, 1);
  }

  /** No other node has the spliced one as a child, and only the only child as parent. */
  lemma SpliceNotSeen(s: Shape<Peer>, k: Key, j: Key)
    requires Sound(s) && CanSplice(s, k) && j in s.nodes && j != k
    ensures var l := s.nodes[k].parent;
            && (l.Below? ==> l.key != k)
            && (forall b: Bit :: s.nodes[j].child[b] == Some(k) ==> l == Below(j, b))
            && (s.nodes[j].parent.Below? && s.nodes[j].parent.key == k ==> OnlyChild(s.nodes[k]) == Some(j))
  {
    assert SoundNode(s, k) && SoundNode(s, j);
    assert SoundAt(s, s.nodes[k].parent);
    forall b: Bit | s.nodes[j].child[b] == Some(k) ensures s.nodes[k].parent == Below(j, b) {
      assert SoundAt(s, Below(j, b));
    }
  }

  ghost function SpliceDrawing(g: Drawing, k: Key, a: Indirection, c: TrieEntry?): Drawing
    requires g.snap.Keys == g.nodes.Keys && CanSplice(g.shape, k)
  {
    var m := g.nodes - {k};
    Drawing(m, map j | j in m :: Unlinked(m[j], g.snap[j], a, c), Splice(g.shape, k), g.repr)
  }

  lemma SpliceDrawn(g: Drawing, k: Key, a: Indirection, c: TrieEntry?, p4: TrieEntry?, p6: TrieEntry?, q4: TrieEntry?,
        q6: TrieEntry?)
    requires Drawn(g, p4, p6) && Sound(g.shape) && CanSplice(g.shape, k)
    requires Addresses(a, g.shape.nodes[k].parent, g.nodes) && Points(c, OnlyChild(g.shape.nodes[k]), g.nodes)
    requires q4 == (if a == OfRoot(false) then c else p4) && q6 == (if a == OfRoot(true) then c else p6)
    ensures Drawn(SpliceDrawing(g, k, a, c), q4, q6)
  {
    var h := SpliceDrawing(g, k, a, c);
    var t, s', m' := h.snap, h.shape, h.nodes;
    forall j ensures DrawsAt(t, s', m', j) {
      if j in m' {
        assert DrawsAt(g.snap, g.shape, g.nodes, j);
        SpliceDraws(g.nodes, g.shape, k, a, c, j, g.snap[j]);
      }
    }
    SpliceRoot(g.nodes, g.shape, k, a, c, false, q4);
    SpliceRoot(g.nodes, g.shape, k, a, c, true, q6);
  }

  lemma SpliceRoot(m: map<Key, TrieEntry>, s: Shape<Peer>, k: Key, a: Indirection, c: TrieEntry?, v6: bool,
        p: TrieEntry?)
    requires m.Keys == s.nodes.Keys && Named(m) && Sound(s) && CanSplice(s, k)
    requires Addresses(a, s.nodes[k].parent, m) && Points(c, OnlyChild(s.nodes[k]), m)
    requires if a == OfRoot(v6) then p == c else Points(p, At(s, Root(v6)), m)
    ensures Points(p, At(Splice(s, k), Root(v6)), m - {k})
  {
    if OnlyChild(s.nodes[k]).Some? { var b := OnlyChildFits(s, k); }
    SpliceAt(s, k, Root(v6)) by { assert SoundNode(s, k); }
    assert SoundAt(s, Root(v6));
  }

  ghost function PeerDrawing(g: Drawing, k: Key, peer: Option<Peer>): Drawing
    requires k in g.snap && k in g.shape.nodes
  {
    g.(snap := g.snap[k := g.snap[k].(peer := peer)], shape := SetPeer(g.shape, k, peer))
  }

  lemma PeerDrawn(g: Drawing, k: Key, peer: Option<Peer>, p4: TrieEntry?, p6: TrieEntry?)
    requires Drawn(g, p4, p6) && k in g.nodes
    ensures Drawn(PeerDrawing(g, k, peer), p4, p6)
  {
    var h := PeerDrawing(g, k, peer);
    var t, s', m' := h.snap, h.shape, h.nodes;
    forall j ensures DrawsAt(t, s', m', j) {
      assert DrawsAt(g.snap, g.shape, g.nodes, j);
    }
  }

  // ---------- the per-peer lists ----------

  ghost predicate NoDup<T>(q: seq<T>) {
    forall i, j :: 0 <= i < j < |q| ==> q[i] != q[j]
  }

  /** A peer's list of nodes is the list of prefixes `q`, node by node. */
  ghost predicate Spells(entries: seq<TrieEntry>, q: seq<Key>, nodes: map<Key, TrieEntry>) {
    |entries| == |q| && forall i :: 0 <= i < |q| ==> q[i] in nodes && entries[i] == nodes[q[i]]
  }

  /** Each list holds exactly the prefixes stored for its peer, once. */
  ghost predicate ListsExact(lists: map<Peer, seq<Key>>, entries: map<Key, Peer>) {
    && (forall p :: p in lists ==> NoDup(lists[p]))
    && (forall k :: k in entries ==> entries[k] in lists)
    && forall p, k :: p in lists ==> (k in lists[p] <==> k in entries && entries[k] == p)
  }

  /** The list without the first occurrence of `x`. */
  function Without<T(==)>(q: seq<T>, x: T): seq<T> {
    if q == [] then [] else if q[0] == x then q[1..] else [q[0]] + Without(q[1..], x)
  }

  lemma {:induction false} WithoutSpells(entries: seq<TrieEntry>, q: seq<Key>, nodes: map<Key, TrieEntry>, k: Key)
    requires Spells(entries, q, nodes) && Named(nodes) && k in nodes
    ensures Spells(Without(entries, nodes[k]), Without(q, k), nodes)
  {
    if q != [] {
      assert nodes[q[0]].Fits(q[0]) && nodes[k].Fits(k) && Spells(entries[1..], q[1..], nodes);
      WithoutSpells(entries[1..], q[1..], nodes, k);
    }
  }

  lemma {:induction false} WithoutMembers<T>(q: seq<T>, x: T, y: T)
    requires NoDup(q)
    ensures y in Without(q, x) <==> y in q && y != x
  {
    if q != [] {
      WithoutMembers(q[1..], x, y);
      assert q == [q[0]] + q[1..];
      if q[0] == x { assert x !in q[1..]; }
    }
  }

  lemma {:induction false} WithoutNoDup<T>(q: seq<T>, x: T)
    requires NoDup(q)
    ensures NoDup(Without(q, x))
  {
    if q != [] && q[0] != x {
      WithoutNoDup(q[1..], x);
      WithoutMembers(q[1..], x, q[0]);
    }
  }

  /** A prefix taken from its peer's list, and from the table. */
  lemma ListsDrop(lists: map<Peer, seq<Key>>, entries: map<Key, Peer>, k: Key)
    requires ListsExact(lists, entries) && k in entries
    ensures var p := entries[k]; ListsExact(lists[p := Without(lists[p], k)], entries - {k})
  {
    WithoutNoDup(lists[entries[k]], k);
    forall j: Key { WithoutMembers(lists[entries[k]], k, j); }
  }

  /** A fresh prefix added at the end of its peer's list, and to the table. */
  lemma ListsPush(lists: map<Peer, seq<Key>>, entries: map<Key, Peer>, k: Key, p: Peer)
    requires ListsExact(lists, entries) && k !in entries && p in lists
    ensures ListsExact(lists[p := lists[p] + [k]], entries[k := p])
  {
    assert k !in lists[p];
  }

  /** The lists hold, for each peer, exactly its nodes. */
  ghost predicate ListsOk(lists: map<Peer, seq<TrieEntry>>, keys: map<Peer, seq<Key>>, nodes: map<Key, TrieEntry>,
        entries: map<Key, Peer>) {
    && lists.Keys == keys.Keys
    && (forall p :: p in lists ==> Spells(lists[p], keys[p], nodes))
    && ListsExact(keys, entries)
  }

  ghost function Dropped(keys: map<Peer, seq<Key>>, p: Peer, k: Key): map<Peer, seq<Key>> {
    if p in keys then keys[p := Without(keys[p], k)] else keys
  }

  lemma ListsOkDrop(lists: map<Peer, seq<TrieEntry>>, keys: map<Peer, seq<Key>>, nodes: map<Key, TrieEntry>,
        entries: map<Key, Peer>, k: Key)
    requires ListsOk(lists, keys, nodes, entries) && Named(nodes) && k in nodes && k in entries
    ensures var p := entries[k];
            ListsOk(lists[p := Without(lists[p], nodes[k])], keys[p := Without(keys[p], k)], nodes, entries - {k})
  {
    ListsDrop(keys, entries, k);
    WithoutSpells(lists[entries[k]], keys[entries[k]], nodes, k);
  }

  lemma ListsOkPush(lists: map<Peer, seq<TrieEntry>>, keys: map<Peer, seq<Key>>, nodes: map<Key, TrieEntry>,
        entries: map<Key, Peer>, k: Key, p: Peer)
    requires ListsOk(lists, keys, nodes, entries) && k in nodes && k !in entries && p in lists
    ensures ListsOk(lists[p := lists[p] + [nodes[k]]], keys[p := keys[p] + [k]], nodes, entries[k := p])
  {
    ListsPush(keys, entries, k, p);
  }

  lemma ListsOkOtherNodes(lists: map<Peer, seq<TrieEntry>>, keys: map<Peer, seq<Key>>, m: map<Key, TrieEntry>,
        m': map<Key, TrieEntry>, entries: map<Key, Peer>)
    requires ListsOk(lists, keys, m, entries)
    requires forall k :: k in entries ==> k in m && k in m' && m'[k] == m[k]
    ensures ListsOk(lists, keys, m', entries)
  {
    forall p | p in lists ensures Spells(lists[p], keys[p], m') {
      forall i | 0 <= i < |keys[p]| ensures keys[p][i] in entries {
        assert keys[p][i] in keys[p];
      }
    }
  }

  lemma ListsOkGrown(lists: map<Peer, seq<TrieEntry>>, keys: map<Peer, seq<Key>>, m: map<Key, TrieEntry>,
        m': map<Key, TrieEntry>, k: Key, n: TrieEntry, entries: map<Key, Peer>)
    requires ListsOk(lists, keys, m[k := n], entries) && Grown(m, m', k, n) && entries.Keys <= m.Keys + {k} && k !in m
    ensures ListsOk(lists, keys, m', entries)
  {
    ListsOkOtherNodes(lists, keys, m[k := n], m', entries);
  }

  lemma ListsOkNew(lists: map<Peer, seq<TrieEntry>>, keys: map<Peer, seq<Key>>, m: map<Key, TrieEntry>,
        entries: map<Key, Peer>, k: Key, n: TrieEntry, p: Peer)
    requires ListsOk(lists, keys, m, entries) && p in lists && k !in m && k !in entries
    ensures ListsOk(lists[p := lists[p] + [n]], keys[p := keys[p] + [k]], m[k := n], entries[k := p])
  {
    ListsOkOtherNodes(lists, keys, m, m[k := n], entries);
    ListsOkPush(lists, keys, m[k := n], entries, k, p);
  }

  lemma ListsOkRegister(lists: map<Peer, seq<TrieEntry>>, keys: map<Peer, seq<Key>>, m: map<Key, TrieEntry>,
        entries: map<Key, Peer>, p: Peer)
    requires ListsOk(lists, keys, m, entries) && p !in lists
    ensures ListsOk(lists[p := []], keys[p := []], m, entries)
  {
  }

  lemma OnlyName(nodes: map<Key, TrieEntry>, n: TrieEntry, k: Key)
    requires Named(nodes) && k in nodes && nodes[k] == n
    ensures forall j :: j in nodes && j != k ==> nodes[j] != n
  {
    forall j | j in nodes && j != k ensures nodes[j] != n {
      assert nodes[j].Fits(j) && n.Fits(k);
    }
  }

  /** The record due after LinkIn. */
  lemma Hung(g: Drawing, a: Indirection, l: Link, k: Key, n: TrieEntry, down: TrieEntry?, p4: TrieEntry?,
        p6: TrieEntry?, q4: TrieEntry?, q6: TrieEntry?) returns (h: Drawing)
    requires Drawn(g, p4, p6) && k !in g.nodes && HasLink(g.shape, l) && Addresses(a, l, g.nodes) && n.Fits(k)
    requires At(g.shape, l).Some? ==> At(g.shape, l).value in g.nodes && |k.bits| < |At(g.shape, l).value.bits|
    requires Points(down, At(g.shape, l), g.nodes)
    requires q4 == (if a == OfRoot(false) then n else p4) && q6 == (if a == OfRoot(true) then n else p6)
    requires n.Now() == Fields(n.peer, Kid(n, down), a)
    requires forall j :: j in g.nodes ==> g.nodes[j] in g.repr
                                          && g.nodes[j].Now() == Relinked(g.nodes[j], g.snap[j], a, n, down,
                                          Under(n, down))
    ensures h.nodes == g.nodes[k := n] && h.repr == g.repr + {n} && h.shape == Put(g.shape, l, k, n.peer)
    ensures Drawn(h, q4, q6) && Holds(h)
  {
    PutDrawn(g, a, l, k, n, down, n.peer, p4, p6, q4, q6);
    h := PutDrawing(g, a, l, k, n, down, n.peer);
  }

  /** The record due after LinkOut. */
  lemma Spliced(g: Drawing, k: Key, a: Indirection, c: TrieEntry?, p4: TrieEntry?, p6: TrieEntry?, q4: TrieEntry?,
        q6: TrieEntry?) returns (h: Drawing)
    requires Drawn(g, p4, p6) && Sound(g.shape) && CanSplice(g.shape, k)
    requires Addresses(a, g.shape.nodes[k].parent, g.nodes) && Points(c, OnlyChild(g.shape.nodes[k]), g.nodes)
    requires q4 == (if a == OfRoot(false) then c else p4) && q6 == (if a == OfRoot(true) then c else p6)
    requires forall j :: j in g.nodes ==> g.nodes[j] in g.repr
                                          && g.nodes[j].Now() == Unlinked(g.nodes[j], g.snap[j], a, c)
    ensures h.nodes == g.nodes - {k} && h.repr == g.repr && h.shape == Splice(g.shape, k)
    ensures Drawn(h, q4, q6) && Holds(h)
  {
    SpliceDrawn(g, k, a, c, p4, p6, q4, q6);
    h := SpliceDrawing(g, k, a, c);
  }

  /** The nodes of `m` are still there in `m'`, and `n` is the node of `k`. */
  ghost predicate Grown(m: map<Key, TrieEntry>, m': map<Key, TrieEntry>, k: Key, n: TrieEntry) {
    && k in m' && m'[k] == n
    && forall j :: j in m ==> j in m' && m'[j] == m[j]
  }

  /** Nodes may have gone, none has changed its name. */
  ghost predicate Shrunk(m: map<Key, TrieEntry>, m': map<Key, TrieEntry>) {
    forall j :: j in m' ==> j in m && m'[j] == m[j]
  }

  lemma ShrinkTwice(m: map<Key, TrieEntry>, k: Key, q: Key)
    ensures Shrunk(m, m) && Shrunk(m, m - {k}) && Shrunk(m, m - {k} - {q})
  {
  }

  lemma ListsOkShrunk(lists: map<Peer, seq<TrieEntry>>, keys: map<Peer, seq<Key>>, m: map<Key, TrieEntry>,
        m': map<Key, TrieEntry>, entries: map<Key, Peer>)
    requires ListsOk(lists, keys, m, entries) && Shrunk(m, m') && entries.Keys <= m'.Keys
    ensures ListsOk(lists, keys, m', entries)
  {
    ListsOkOtherNodes(lists, keys, m, m', entries);
  }

  lemma GrowOnce(m: map<Key, TrieEntry>, k: Key, n: TrieEntry)
    requires k !in m
    ensures Grown(m, m[k := n], k, n)
  {
  }

  lemma GrowTwice(m: map<Key, TrieEntry>, q: Key, f: TrieEntry, k: Key, n: TrieEntry)
    requires q !in m && k !in m && k != q
    ensures Grown(m, m[q := f][k := n], k, n)
  {
  }

  lemma ForkBits(down: TrieEntry, f: TrieEntry, n: TrieEntry, d: Key, q: Key, k: Key)
    requires down.Fits(d) && f.Fits(q) && n.Fits(k) && d.v6 == k.v6 == q.v6
    requires |q.bits| < |d.bits| && |q.bits| < |k.bits| && LinkTo(q, k) != LinkTo(q, d)
    ensures f.cidr < |down.bits| && f.cidr < |n.bits| && f.Choose(down.bits) != f.Choose(n.bits)
    ensures f.Choose(n.bits) == LinkTo(q, k).bit
  {
    assert d.bits == down.bits[..down.cidr] && k.bits == n.bits[..n.cidr];
  }

  /** Two puts: the branching node, and the new node under it. */
  lemma ForkDrawn(g: Drawing, a: Indirection, f: TrieEntry, n: TrieEntry, peer: Peer, l: Link, k: Key, q: Key,
        down: TrieEntry, p4: TrieEntry?, p6: TrieEntry?, q4: TrieEntry?, q6: TrieEntry?) returns (h: Drawing)
    requires Drawn(g, p4, p6) && Canonical(g.shape) && Placed(g.shape, l, k) && Addresses(a, l, g.nodes)
    requires At(g.shape, l).Some? && !Covers(k, At(g.shape, l).value) && q == Fork(At(g.shape, l).value, k)
    requires n.Fits(k) && f.Fits(q) && Points(down, At(g.shape, l), g.nodes)
    requires q4 == (if a == OfRoot(false) then f else p4) && q6 == (if a == OfRoot(true) then f else p6)
    requires f.cidr < |n.bits| && |q.bits| < |k.bits| && f.Choose(n.bits) == LinkTo(q, k).bit
    ensures Drawn(h, q4, q6) && h.nodes == g.nodes[q := f][k := n] && h.repr == g.repr + {f} + {n}
    ensures Canonical(h.shape) && Entries(h.shape) == Entries(g.shape)[k := peer]
    ensures k !in g.nodes && q !in g.nodes && k != q
    ensures h.snap == SnapAfterPut(SnapAfterPut(g.snap, g.nodes, a, f, q, down, None), g.nodes[q := f],
        OfChild(f, f.Choose(n.bits)), n, k, null, Some(peer))
  {
    InsertFork(g.shape, l, k, peer);
    PlacedIsFresh(g.shape, l, k);
    PutDrawn(g, a, l, q, f, down, None, p4, p6, q4, q6);
    var h1 := PutDrawing(g, a, l, q, f, down, None);
    PutDrawn(h1, OfChild(f, f.Choose(n.bits)), LinkTo(q, k), k, n, null, Some(peer), q4, q6, q4, q6);
    h := PutDrawing(h1, OfChild(f, f.Choose(n.bits)), LinkTo(q, k), k, n, null, Some(peer));
  }

  lemma ForkHolds(g: Drawing, h: Drawing, a: Indirection, f: TrieEntry, n: TrieEntry, k: Key, q: Key, down: TrieEntry)
    requires g.snap.Keys == g.nodes.Keys && k !in g.nodes && q !in g.nodes && k != q
    requires h.nodes == g.nodes[q := f][k := n] && h.repr == g.repr + {f} + {n}
    requires f !in g.repr && n !in g.repr && f.cidr < |n.bits|
    requires h.snap == SnapAfterPut(SnapAfterPut(g.snap, g.nodes, a, f, q, down, None), g.nodes[q := f],
        OfChild(f, f.Choose(n.bits)), n, k, null, n.peer)
    requires n.Now() == Fields(n.peer, [null, null], OfChild(f, f.Choose(n.bits)))
    requires f.Now() == Fields(None, Kid(f, down)[f.Choose(n.bits) := n], a)
    requires forall j :: j in g.nodes ==> g.nodes[j] in g.repr
                                          && g.nodes[j].Now() == Relinked(g.nodes[j], g.snap[j], a, f, down,
                                          Under(f, down))
    ensures Holds(h)
  {
  }

  /** What is left of a peer's list while it is being removed. */
  ghost predicate Left(peer: Peer, elems: seq<TrieEntry>, q: seq<Key>, m: map<Key, TrieEntry>,
        nodes: map<Key, TrieEntry>, e: map<Key, Peer>) {
    && Spells(elems, q, m) && Shrunk(m, nodes) && NoDup(q)
    && forall k :: k in q ==> k in e && e[k] == peer
  }

  lemma LeftStep(peer: Peer, elems: seq<TrieEntry>, q: seq<Key>, m: map<Key, TrieEntry>, nodes: map<Key, TrieEntry>,
        nodes': map<Key, TrieEntry>, e: map<Key, Peer>)
    requires Left(peer, elems, q, m, nodes, e) && q != [] && Shrunk(nodes, nodes')
    ensures Left(peer, elems[1..], q[1..], m, nodes', e - {q[0]})
  {
    assert forall k :: k in q[1..] ==> k in q && k != q[0];
  }

  class Table {
    var IPv4: TrieEntry?
    var IPv6: TrieEntry?
    var trieEntries: map<Peer, seq<TrieEntry>>
    ghost var g: Drawing
    ghost var keys: map<Peer, seq<Key>>

    ghost predicate Mirrors()
      reads `IPv4, `IPv6, `g, g.repr
    {
      Drawn(g, IPv4, IPv6) && Holds(g)
    }

    ghost predicate Valid()
      reads this, g.repr
    {
      && Mirrors() && Canonical(g.shape)
      && ListsOk(trieEntries, keys, g.nodes, Entries(g.shape))
    }

    /** The routing table. */
    ghost function Routes(): map<Key, Peer>
      reads this
    {
      Entries(g.shape)
    }

    /** `*a`. */
    function Deref(a: Indirection): TrieEntry?
      reads this, if a.OfChild? then {a.node} else {}
    {
      match a
      case OfRoot(v6) => if v6 then IPv6 else IPv4
      case OfChild(node, bit) => node.child[bit]
    }

    /** `*a = n`. */
    method Store(a: Indirection, n: TrieEntry?)
      modifies this`IPv4, this`IPv6, (if a.OfChild? then {a.node} else {})`child
      ensures a.OfRoot? ==> (if a.v6 then IPv6 == n && IPv4 == old(IPv4) else IPv4 == n && IPv6 == old(IPv6))
      ensures a.OfChild? ==> a.node.child == old(a.node.child)[a.bit := n] && IPv4 == old(IPv4) && IPv6 == old(IPv6)
    {
      match a
      case OfRoot(v6) => if v6 { IPv6 := n; } else { IPv4 := n; }
      case OfChild(node, bit) => node.child := node.child[bit := n];
    }

    /** Following a link on the heap and in the shape. */
    lemma DerefAt(a: Indirection, l: Link)
      requires Mirrors() && HasLink(g.shape, l) && Addresses(a, l, g.nodes)
      ensures Points(Deref(a), At(g.shape, l), g.nodes)
    {
      if l.Below? {
        assert DrawsAt(g.snap, g.shape, g.nodes, l.key);
        assert l.bit == 0 || l.bit == 1;
      }
    }

    // ---------- linking a node in ----------

    /** The pointer surgery of insert: `n` goes between `*a` and what it pointed at. */
    method LinkIn(a: Indirection, n: TrieEntry, ghost all: set<TrieEntry>)
      requires n.child == [null, null] && n !in all
      requires (a.OfChild? ==> a.node in all) && Deref(a) != n && (Deref(a) != null ==> Deref(a) in all)
      requires Deref(a) != null ==> n.cidr < |Deref(a).bits| && (a.OfChild? ==> a.node != Deref(a))
      modifies this`IPv4, this`IPv6, n`child, n`parent, all`child, all`parent
      ensures n.Now() == Fields(old(n.peer), Kid(n, old(Deref(a))), a)
      ensures forall e :: e in all ==> e.Now() == Relinked(e, old(e.Now()), a, n, old(Deref(a)),
                                       Under(n, old(Deref(a))))
      ensures IPv4 == (if a == OfRoot(false) then n else old(IPv4))
      ensures IPv6 == (if a == OfRoot(true) then n else old(IPv6))
    {
      var down := Deref(a);
      if down != null {
        var bit := n.Choose(down.bits);
        down.parent := OfChild(n, bit);
        n.child := n.child[bit := down];
      }
      n.parent := a;
      Store(a, n);
    }

    lemma BeforeLink(a: Indirection, n: TrieEntry, l: Link, k: Key)
      requires Mirrors() && Sound(g.shape) && CanPut(g.shape, l, k)
      requires Addresses(a, l, g.nodes) && n !in g.repr && n.Fits(k)
      ensures (a.OfChild? ==> a.node in g.repr) && Points(Deref(a), At(g.shape, l), g.nodes)
      ensures At(g.shape, l).Some? ==> |k.bits| < |At(g.shape, l).value.bits|
      ensures var down := Deref(a);
              down != null ==> n.cidr < |down.bits| && down in g.repr && (a.OfChild? ==> a.node != down)
    {
      DerefAt(a, l);
      if At(g.shape, l).Some? {
        CanPutBelow(g.shape, l, k);
        assert SoundAt(g.shape, l);
        NamedBits(g.nodes, At(g.shape, l).value, |k.bits|);
        if l.Below? { assert g.nodes[l.key].Fits(l.key) && g.nodes[At(g.shape, l).value].Fits(At(g.shape, l).value); }
      }
    }

    /** What LinkIn makes of every node's recorded fields. */
    method CutIn(a: Indirection, n: TrieEntry)
      requires Holds(g) && n.child == [null, null] && n !in g.repr
      requires (a.OfChild? ==> a.node in g.repr) && Deref(a) != n && (Deref(a) != null ==> Deref(a) in g.repr)
      requires Deref(a) != null ==> n.cidr < |Deref(a).bits| && (a.OfChild? ==> a.node != Deref(a))
      modifies this`IPv4, this`IPv6, n`child, n`parent, g.repr`child, g.repr`parent
      ensures n.Now() == Fields(old(n.peer), Kid(n, old(Deref(a))), a)
      ensures forall j :: j in g.nodes ==> g.nodes[j] in g.repr
                                           && g.nodes[j].Now() == Relinked(g.nodes[j], g.snap[j], a, n, old(Deref(a)),
                                           Under(n, old(Deref(a))))
      ensures IPv4 == (if a == OfRoot(false) then n else old(IPv4))
      ensures IPv6 == (if a == OfRoot(true) then n else old(IPv6))
    {
      LinkIn(a, n, g.repr);
    }

    /** LinkIn, and the record of it that is due. */
    method LinkNode(a: Indirection, n: TrieEntry, ghost l: Link, ghost k: Key) returns (ghost h: Drawing)
      requires Mirrors() && Sound(g.shape) && CanPut(g.shape, l, k)
      requires Addresses(a, l, g.nodes) && n !in g.repr && n.Fits(k) && n.child == [null, null]
      modifies this`IPv4, this`IPv6, g.repr`child, g.repr`parent, n`child, n`parent
      ensures At(g.shape, l).Some? ==> |k.bits| < |At(g.shape, l).value.bits|
      ensures h.nodes == g.nodes[k := n] && h.repr == g.repr + {n} && h.shape == Put(g.shape, l, k, n.peer)
      ensures Drawn(h, IPv4, IPv6) && Holds(h)
    {
      ghost var down := Deref(a);
      BeforeLink(a, n, l, k);
      CutIn(a, n);
      h := Hung(g, a, l, k, n, down, old(IPv4), old(IPv6), IPv4, IPv6);
    }

    ghost method Adopt(h: Drawing)
      requires Drawn(h, IPv4, IPv6) && Holds(h)
      modifies this`g
      ensures g == h && Mirrors()
    {
      g := h;
    }

    /** Hang `n` at `a`, above whatever was there. */
    method PutNode(a: Indirection, n: TrieEntry, ghost l: Link, ghost k: Key)
      requires Mirrors() && Sound(g.shape) && CanPut(g.shape, l, k)
      requires Addresses(a, l, g.nodes) && n !in g.repr && n.Fits(k) && n.child == [null, null]
      modifies this`IPv4, this`IPv6, this`g, g.repr, n
      ensures Mirrors() && n.peer == old(n.peer)
      ensures old(At(g.shape, l)).Some? ==> |k.bits| < |old(At(g.shape, l)).value.bits|
      ensures g.nodes == old(g.nodes)[k := n] && g.repr == old(g.repr) + {n}
      ensures g.shape == Put(old(g.shape), l, k, old(n.peer))
    {
      ghost var h := LinkNode(a, n, l, k);
      Adopt(h);
    }

    // ---------- taking a node out ----------

    /** The pointer surgery of remove: the only child of `n`, if any, takes its place. */
    method LinkOut(n: TrieEntry, c: TrieEntry?, ghost all: set<TrieEntry>)
      requires n in all && (c != null ==> c in all)
      requires n.parent.OfChild? ==> n.parent.node in all && n.parent.node != c
      modifies this`IPv4, this`IPv6, all`child, all`parent
      ensures forall e :: e in all ==> e.Now() == Unlinked(e, old(e.Now()), old(n.parent), c)
      ensures IPv4 == (if old(n.parent) == OfRoot(false) then c else old(IPv4))
      ensures IPv6 == (if old(n.parent) == OfRoot(true) then c else old(IPv6))
    {
      if c != null {
        c.parent := n.parent;
      }
      Store(n.parent, c);
    }

    lemma BeforeUnlink(n: TrieEntry, c: TrieEntry?, k: Key)
      requires Mirrors() && Sound(g.shape) && CanSplice(g.shape, k) && g.nodes[k] == n
      requires c == if n.child[0] != null then n.child[0] else n.child[1]
      ensures Points(c, OnlyChild(g.shape.nodes[k]), g.nodes) && Addresses(n.parent, g.shape.nodes[k].parent, g.nodes)
      ensures n in g.repr && (c != null ==> c in g.repr) && c != n
      ensures n.parent.OfChild? ==> n.parent.node in g.repr && n.parent.node != c && n.parent.node != n
    {
      assert DrawsAt(g.snap, g.shape, g.nodes, k);
      var d, l := OnlyChild(g.shape.nodes[k]), g.shape.nodes[k].parent;
      if d.Some? {
        var b := OnlyChildFits(g.shape, k);
        assert g.nodes[d.value].Fits(d.value);
      }
      if l.Below? { assert g.nodes[l.key].Fits(l.key) && SoundNode(g.shape, k) && SoundAt(g.shape, l); }
      assert n.Fits(k);
    }

    /** What LinkOut makes of every node's recorded fields. */
    method CutOut(n: TrieEntry, c: TrieEntry?)
      requires Holds(g) && n in g.repr && (c != null ==> c in g.repr) && c != n
      requires n.parent.OfChild? ==> n.parent.node in g.repr && n.parent.node != c && n.parent.node != n
      modifies this`IPv4, this`IPv6, g.repr`child, g.repr`parent
      ensures n.parent == old(n.parent)
      ensures IPv4 == (if n.parent == OfRoot(false) then c else old(IPv4))
      ensures IPv6 == (if n.parent == OfRoot(true) then c else old(IPv6))
      ensures forall j :: j in g.nodes ==> g.nodes[j] in g.repr
                                           && g.nodes[j].Now() == Unlinked(g.nodes[j], g.snap[j], n.parent, c)
    {
      LinkOut(n, c, g.repr);
    }

    /** LinkOut, and the record of it that is due. */
    method UnlinkNode(n: TrieEntry, ghost k: Key) returns (ghost h: Drawing)
      requires Mirrors() && Sound(g.shape) && CanSplice(g.shape, k) && g.nodes[k] == n
      modifies this`IPv4, this`IPv6, g.repr`child, g.repr`parent
      ensures n.parent == old(n.parent)
      ensures h.nodes == g.nodes - {k} && h.repr == g.repr && h.shape == Splice(g.shape, k)
      ensures Drawn(h, IPv4, IPv6) && Holds(h)
    {
      var bit: Bit := if n.child[0] == null then 1 else 0;
      var c := n.child[bit];
      BeforeUnlink(n, c, k);
      CutOut(n, c);
      h := Spliced(g, k, n.parent, c, old(IPv4), old(IPv6), IPv4, IPv6);
    }

    /** Take `n` out of the trie. */
    method SpliceNode(n: TrieEntry, ghost k: Key)
      requires Mirrors() && Sound(g.shape) && CanSplice(g.shape, k) && g.nodes[k] == n
      modifies this`IPv4, this`IPv6, this`g, g.repr`child, g.repr`parent
      ensures Mirrors() && n.parent == old(n.parent)
      ensures g.nodes == old(g.nodes) - {k} && g.repr == old(g.repr) && g.shape == Splice(old(g.shape), k)
    {
      ghost var h := UnlinkNode(n, k);
      Adopt(h);
    }

    // ---------- changing a peer ----------

    method WritePeer(n: TrieEntry, peer: Option<Peer>, ghost k: Key)
      requires Named(g.nodes) && Holds(g) && k in g.nodes && k in g.shape.nodes && g.nodes[k] == n
      modifies n`peer
      ensures Holds(PeerDrawing(g, k, peer)) && n.peer == peer
    {
      OnlyName(g.nodes, n, k);
      n.peer := peer;
    }

    /** `node.peer = peer`. */
    method ChangePeer(n: TrieEntry, peer: Option<Peer>, ghost k: Key)
      requires Mirrors() && k in g.nodes && g.nodes[k] == n
      modifies this`g, n`peer
      ensures Mirrors() && n.peer == peer
      ensures g.nodes == old(g.nodes) && g.repr == old(g.repr) && g.shape == SetPeer(old(g.shape), k, peer)
    {
      PeerDrawn(g, k, peer, IPv4, IPv6);
      WritePeer(n, peer, k);
      Adopt(PeerDrawing(g, k, peer));
    }

    /** removeFromPeerEntries. */
    method ListRemove(n: TrieEntry, p: Peer, ghost k: Key, ghost e: map<Key, Peer>)
      requires ListsOk(trieEntries, keys, g.nodes, e) && Named(g.nodes) && k in g.nodes && g.nodes[k] == n
      requires k in e && e[k] == p
      modifies this`trieEntries, this`keys
      ensures ListsOk(trieEntries, keys, g.nodes, e - {k}) && keys == Dropped(old(keys), p, k)
    {
      ListsOkDrop(trieEntries, keys, g.nodes, e, k);
      trieEntries := trieEntries[p := Without(trieEntries[p], n)];
      keys := keys[p := Without(keys[p], k)];
    }

    /** addToPeerEntries, for a node that is or is about to be the one of `k` in `m`. */
    method ListPush(n: TrieEntry, p: Peer, ghost k: Key, ghost e: map<Key, Peer>, ghost m: map<Key, TrieEntry>)
      requires ListsOk(trieEntries, keys, m, e) && k in m && m[k] == n
      requires k !in e && p in trieEntries
      modifies this`trieEntries, this`keys
      ensures ListsOk(trieEntries, keys, m, e[k := p])
    {
      ListsOkPush(trieEntries, keys, m, e, k, p);
      trieEntries := trieEntries[p := trieEntries[p] + [n]];
      keys := keys[p := keys[p] + [k]];
    }

    lemma StoredPeer(n: TrieEntry, k: Key)
      requires Mirrors() && k in g.nodes && g.nodes[k] == n
      ensures k in g.shape.nodes && g.shape.nodes[k].peer == n.peer
    {
      assert DrawsAt(g.snap, g.shape, g.nodes, k);
    }

    /** The recorded fields and the lists, brought up to date together. */
    method Commit(ghost h: Drawing, lists: map<Peer, seq<TrieEntry>>, ghost ks: map<Peer, seq<Key>>)
      requires Drawn(h, IPv4, IPv6) && Holds(h)
      modifies this`g, this`trieEntries, this`keys
      ensures g == h && trieEntries == lists && keys == ks && Mirrors()
    {
      g := h;
      trieEntries := lists;
      keys := ks;
    }

    lemma Unlisted(n: TrieEntry, p: Peer, k: Key)
      requires Mirrors() && ListsOk(trieEntries, keys, g.nodes, Entries(g.shape)) && k in g.nodes && g.nodes[k] == n
          && n.peer == Some(p)
      ensures k in g.shape.nodes && p in trieEntries && p in keys
      ensures ListsOk(trieEntries[p := Without(trieEntries[p], n)], Dropped(keys, p, k), g.nodes,
          Entries(g.shape) - {k})
    {
      StoredPeer(n, k);
      ListsOkDrop(trieEntries, keys, g.nodes, Entries(g.shape), k);
    }

    /** removeFromPeerEntries, and `node.peer = nil`. */
    method Detach(n: TrieEntry, p: Peer, ghost k: Key)
      requires Mirrors() && ListsOk(trieEntries, keys, g.nodes, Entries(g.shape)) && k in g.nodes && g.nodes[k] == n
          && n.peer == Some(p)
      modifies this`g, this`trieEntries, this`keys, n`peer
      ensures Mirrors() && ListsOk(trieEntries, keys, g.nodes, Entries(old(g.shape)) - {k})
      ensures g.nodes == old(g.nodes) && g.repr == old(g.repr) && g.shape == SetPeer(old(g.shape), k, None)
    {
      Unlisted(n, p, k);
      PeerDrawn(g, k, None, IPv4, IPv6);
      WritePeer(n, None, k);
      Commit(PeerDrawing(g, k, None), trieEntries[p := Without(trieEntries[p], n)], Dropped(keys, p, k));
    }

    // ---------- finding a place ----------

    /** The slot that the walk looks into next. */
    function Slot(v6: bool, parent: TrieEntry?, ip: seq<Bit>): Indirection {
      if parent == null || parent.cidr >= |ip| then OfRoot(v6) else OfChild(parent, parent.Choose(ip))
    }

    lemma MatchIsCover(n: TrieEntry, d: Key, ip: seq<Bit>, cidr: nat)
      requires n.Fits(d) && |ip| == |n.bits| && cidr <= |ip|
      ensures CommonBits(n.bits, ip) >= n.cidr <==> Covers(d, Key(d.v6, ip))
      ensures n.cidr <= cidr && CommonBits(n.bits, ip) >= n.cidr <==> Covers(d, Key(d.v6, ip[..cidr]))
    {
      var c := CommonBits(n.bits, ip);
      assert d.bits == n.bits[..n.cidr];
      if c >= n.cidr {
        assert ip[..c][..n.cidr] == n.bits[..c][..n.cidr];
        assert ip[..c][..n.cidr] == ip[..n.cidr] && n.bits[..c][..n.cidr] == n.bits[..n.cidr];
      } else {
        assert ip[..n.cidr][c] != n.bits[..n.cidr][c];
      }
      if n.cidr <= cidr { assert ip[..cidr][..n.cidr] == ip[..n.cidr]; }
    }

    /** Where a link leads: the node it draws, of the same width. */
    lemma WalkTo(a: Indirection, l: Link)
      requires Mirrors() && Sound(g.shape) && HasLink(g.shape, l) && Addresses(a, l, g.nodes)
      ensures Points(Deref(a), At(g.shape, l), g.nodes)
      ensures Deref(a) != null ==> Deref(a).Fits(At(g.shape, l).value) && Extends(l, At(g.shape, l).value)
    {
      DerefAt(a, l);
      assert SoundAt(g.shape, l);
    }

    /** The step of a walk from a node that covers the key but is not the key. */
    lemma StepDown(n: TrieEntry, d: Key, k: Key, ip: seq<Bit>)
      requires Named(g.nodes) && d in g.nodes && g.nodes[d] == n && Covers(d, k) && |d.bits| < |k.bits|
      requires |ip| == Width(k.v6) && |k.bits| <= |ip| && k.bits == ip[..|k.bits|]
      ensures n.cidr < |ip| && Extends(Below(d, n.Choose(ip)), k) && Slot(k.v6, n, ip) == OfChild(n, n.Choose(ip))
      ensures Addresses(Slot(k.v6, n, ip), Below(d, n.Choose(ip)), g.nodes)
    {
      assert n.Fits(d);
    }

    /** The walk has come to `node`, which hangs at `l` below `parent`; `k` is at `l` or further down. */
    ghost predicate Walked(node: TrieEntry?, parent: TrieEntry?, l: Link, k: Key, ip: seq<Bit>)
      reads `g
    {
      && HasLink(g.shape, l) && Extends(l, k) && Addresses(Slot(k.v6, parent, ip), l, g.nodes)
      && Points(node, At(g.shape, l), g.nodes)
      && (node != null ==> node.Fits(At(g.shape, l).value) && Extends(l, At(g.shape, l).value))
      && (if parent == null then l == Root(k.v6) else l.Below? && parent.cidr == |l.key.bits| < |k.bits|)
    }

    lemma WalkStep(node: TrieEntry, parent: TrieEntry?, l: Link, k: Key, ip: seq<Bit>)
      requires Mirrors() && Sound(g.shape) && Walked(node, parent, l, k, ip)
      requires |ip| == Width(k.v6) && |k.bits| <= |ip| && k.bits == ip[..|k.bits|]
      requires node.cidr <= |k.bits| && CommonBits(node.bits, ip) >= node.cidr
      ensures node.cidr == |k.bits| ==> k in g.nodes && g.nodes[k] == node
      ensures node.cidr < |k.bits| ==> Walked(node.child[node.Choose(ip)], node,
                                             Below(At(g.shape, l).value, node.Choose(ip)), k, ip)
      ensures parent != null ==> parent.cidr < node.cidr
    {
      var d := At(g.shape, l).value;
      MatchIsCover(node, d, ip, |k.bits|);
      if node.cidr == |k.bits| {
        Comparable(d, k, k);
      } else {
        StepDown(node, d, k, ip);
        WalkTo(OfChild(node, node.Choose(ip)), Below(d, node.Choose(ip)));
      }
    }

    lemma WalkEnds(node: TrieEntry?, parent: TrieEntry?, l: Link, k: Key, ip: seq<Bit>)
      requires Mirrors() && Linked(g.shape) && Walked(node, parent, l, k, ip)
      requires |ip| == Width(k.v6) && |k.bits| <= |ip| && k.bits == ip[..|k.bits|]
      requires node == null || node.cidr > |k.bits| || CommonBits(node.bits, ip) < node.cidr
      ensures Placed(g.shape, l, k)
    {
      if node != null {
        MatchIsCover(node, At(g.shape, l).value, ip, |k.bits|);
      }
    }

    method NodePlacement(v6: bool, ip: seq<Bit>, cidr: nat) returns (parent: TrieEntry?, exact: bool, ghost l: Link)
      requires Mirrors() && Linked(g.shape) && |ip| == Width(v6) && cidr <= |ip|
      ensures exact ==> parent != null && Key(v6, ip[..cidr]) in g.nodes && g.nodes[Key(v6, ip[..cidr])] == parent
      ensures !exact ==> Placed(g.shape, l, Key(v6, ip[..cidr])) && Addresses(Slot(v6, parent, ip), l, g.nodes)
      ensures !exact && parent != null ==> parent.cidr < cidr
    {
      ghost var k := Key(v6, ip[..cidr]);
      var node := Deref(OfRoot(v6));
      parent, exact, l := null, false, Root(v6);
      WalkTo(OfRoot(v6), l);
      while node != null && node.cidr <= cidr && CommonBits(node.bits, ip) >= node.cidr
        invariant Walked(node, parent, l, k, ip)
        decreases cidr - (if parent == null then -1 else parent.cidr)
      {
        WalkStep(node, parent, l, k, ip);
        if node.cidr == cidr {
          return node, true, l;
        }
        var bit := node.Choose(ip);
        parent, l := node, Below(At(g.shape, l).value, bit);
        node := node.child[bit];
      }
      WalkEnds(node, parent, l, k, ip);
    }

    // ---------- listing a peer ----------

    /** The prefixes of a peer, each once; the caller's early stop is not modelled. */
    method EntriesForPeer(peer: Peer) returns (r: seq<Key>)
      requires Valid()
      ensures NoDup(r) && forall k :: k in r <==> k in Routes() && Routes()[k] == peer
    {
      r := [];
      if peer in trieEntries {
        var elems := trieEntries[peer];
        ghost var q := keys[peer];
        assert Spells(elems, q, g.nodes);
        for i := 0 to |elems|
          invariant r == q[..i]
        {
          var n := elems[i];
          assert g.nodes[q[i]].Fits(q[i]);
          r := r + [Key(|n.bits| == 128, n.bits[..n.cidr])];
        }
        assert q[..|elems|] == q;
      }
    }

    // ---------- lookup ----------

    /** `found` is the peer of the longest match so far; longer ones hang under `l`. */
    ghost predicate BestSoFar(entries: map<Key, Peer>, ip: Key, l: Link, found: Option<Peer>, best: Key) {
      && (found.None? ==> forall e :: e in entries && Covers(e, ip) ==> Extends(l, e))
      && (found.Some? ==> best in entries && entries[best] == found.value && Covers(best, ip)
                          && forall e :: e in entries && Covers(e, ip) ==> Extends(l, e) || |e.bits| <= |best.bits|)
    }

    lemma LookupStep(s: Shape<Peer>, ip: Key, l: Link, found: Option<Peer>, best: Key, d: Key)
      requires Linked(s) && HasLink(s, l) && At(s, l) == Some(d) && d in s.nodes && Covers(d, ip)
      requires BestSoFar(Entries(s), ip, l, found, best)
      requires found.Some? ==> |best.bits| < |d.bits|
      ensures |d.bits| < |ip.bits| ==>
        var peer := s.nodes[d].peer;
        BestSoFar(Entries(s), ip, LinkTo(d, ip), if peer.Some? then peer else found, if peer.Some? then d else best)
      ensures |d.bits| == |ip.bits| ==>
        IsLongestMatch(Entries(s), ip, if s.nodes[d].peer.Some? then s.nodes[d].peer else found)
    {
      forall e | e in Entries(s) && Covers(e, ip) && Extends(l, e)
        ensures Covers(d, e) && (e == d || (|d.bits| < |ip.bits| && Extends(LinkTo(d, ip), e)))
      {
        Follow(s, l, e);
        Comparable(d, e, ip);
        if |d.bits| < |e.bits| { CoversTrans(d, e, ip); }
      }
      if |d.bits| == |ip.bits| {
        if s.nodes[d].peer.Some? {
          assert BestFor(Entries(s), ip, d);
        } else if found.Some? {
          assert BestFor(Entries(s), ip, best);
        }
      }
    }

    lemma LookupEnd(s: Shape<Peer>, ip: Key, l: Link, found: Option<Peer>, best: Key)
      requires Linked(s) && HasLink(s, l) && BestSoFar(Entries(s), ip, l, found, best)
      requires At(s, l).None? || !Covers(At(s, l).value, ip)
      ensures IsLongestMatch(Entries(s), ip, found)
    {
      forall e | e in Entries(s) && Covers(e, ip) ensures !Extends(l, e) {
        if Extends(l, e) {
          Follow(s, l, e);
          CoversTrans(At(s, l).value, e, ip);
        }
      }
      if found.Some? { assert BestFor(Entries(s), ip, best); }
    }

    lemma WidthOf(d: Key, l: Link, v6: bool)
      requires Extends(l, d) && (l == Root(v6) || (l.Below? && l.key.v6 == v6))
      ensures d.v6 == v6
    {
    }

    /** What a node that matches the address adds to the search. */
    lemma Visit(node: TrieEntry, l: Link, ip: seq<Bit>, v6: bool, found: Option<Peer>, best: Key) returns (d: Key)
      requires Mirrors() && Linked(g.shape) && HasLink(g.shape, l) && Points(node, At(g.shape, l), g.nodes)
      requires node.Fits(At(g.shape, l).value) && |ip| == Width(v6) && (l == Root(v6) || (l.Below? && l.key.v6 == v6))
      requires CommonBits(node.bits, ip) >= node.cidr
      requires BestSoFar(Routes(), Key(v6, ip), l, found, best)
          && (found.Some? ==> l.Below? && |best.bits| <= |l.key.bits|)
      ensures At(g.shape, l) == Some(d) && d in g.nodes && g.nodes[d] == node && node.Fits(d) && Covers(d, Key(v6, ip))
      ensures |d.bits| == node.cidr <= |ip|
      ensures var found', best' := if node.peer.Some? then node.peer else found, if node.peer.Some? then d else best;
              if node.cidr == |ip| then IsLongestMatch(Routes(), Key(v6, ip), found')
              else BestSoFar(Routes(), Key(v6, ip), LinkTo(d, Key(v6, ip)), found', best')
    {
      d := At(g.shape, l).value;
      assert SoundAt(g.shape, l);
      WidthOf(d, l, v6);
      MatchIsCover(node, d, ip, |ip|);
      StoredPeer(node, d);
      LookupStep(g.shape, Key(v6, ip), l, found, best, d);
    }

    /** From a node that matches to the child that the next bit of the address chooses. */
    lemma Descend(node: TrieEntry, d: Key, ip: seq<Bit>, v6: bool)
      requires Mirrors() && Sound(g.shape) && d in g.nodes && g.nodes[d] == node && Covers(d, Key(v6, ip))
      requires |ip| == Width(v6) && |d.bits| < |ip|
      ensures var bit := node.Choose(ip);
              var l := Below(d, bit);
              && l == LinkTo(d, Key(v6, ip)) && Extends(l, Key(v6, ip))
              && HasLink(g.shape, l) && Addresses(OfChild(node, bit), l, g.nodes)
              && node.child[bit] == Deref(OfChild(node, bit)) && Points(node.child[bit], At(g.shape, l), g.nodes)
              && (node.child[bit] != null ==> node.child[bit].Fits(At(g.shape, l).value)
                                              && Extends(l, At(g.shape, l).value))
    {
      assert ip[..|ip|] == ip;
      StepDown(node, d, Key(v6, ip), ip);
      WalkTo(OfChild(node, node.Choose(ip)), Below(d, node.Choose(ip)));
    }

    /** The walk ends at an empty slot or a node that does not match. */
    lemma NoneBelow(node: TrieEntry?, l: Link, ip: seq<Bit>, v6: bool, found: Option<Peer>, best: Key)
      requires Linked(g.shape) && HasLink(g.shape, l) && Points(node, At(g.shape, l), g.nodes) && |ip| == Width(v6)
      requires node != null ==> node.Fits(At(g.shape, l).value) && Extends(l, At(g.shape, l).value)
      requires node != null ==> CommonBits(node.bits, ip) < node.cidr
      requires (l == Root(v6) || (l.Below? && l.key.v6 == v6)) && BestSoFar(Routes(), Key(v6, ip), l, found, best)
      ensures IsLongestMatch(Routes(), Key(v6, ip), found)
    {
      if node != null {
        WidthOf(At(g.shape, l).value, l, v6);
        MatchIsCover(node, At(g.shape, l).value, ip, |ip|);
      }
      LookupEnd(g.shape, Key(v6, ip), l, found, best);
    }

    method Lookup(ip: seq<Bit>) returns (found: Option<Peer>)
      requires Valid() && (|ip| == 32 || |ip| == 128)
      ensures IsLongestMatch(Routes(), Key(|ip| == 128, ip), found)
    {
      var v6 := |ip| == 128;
      ghost var k := Key(v6, ip);
      var node := Deref(OfRoot(v6));
      found := None;
      ghost var l, best, a := Root(v6), k, OfRoot(v6);
      WalkTo(a, l);
      while node != null && CommonBits(node.bits, ip) >= node.cidr
        invariant HasLink(g.shape, l) && Addresses(a, l, g.nodes)
        invariant node == Deref(a) && Points(node, At(g.shape, l), g.nodes)
        invariant node != null ==> node.Fits(At(g.shape, l).value) && Extends(l, At(g.shape, l).value)
        invariant l == Root(v6) || (l.Below? && Extends(l, k))
        invariant BestSoFar(Routes(), k, l, found, best)
        invariant found.Some? ==> l.Below? && |best.bits| <= |l.key.bits|
        decreases |ip| - (if l.Below? then |l.key.bits| else -1)
      {
        ghost var d := Visit(node, l, ip, v6, found, best);
        if node.peer.Some? {
          found := node.peer;
          best := d;
        }
        if node.cidr == |ip| {
          return;
        }
        Descend(node, d, ip, v6);
        var bit := node.Choose(ip);
        l, a := Below(d, bit), OfChild(node, bit);
        node := node.child[bit];
      }
      NoneBelow(node, l, ip, v6, found, best);
    }

    // ---------- insert ----------

    constructor ()
      ensures Valid() && Routes() == map[] && fresh(g.repr)
    {
      IPv4, IPv6 := null, null;
      trieEntries := map[];
      keys := map[];
      g := Drawing(map[], map[], Empty(), {});
      new;
      EmptyIsCanonical();
    }

    /** A new node at a slot that is empty or holds a longer prefix. */
    method InsertNodeAt(a: Indirection, n: TrieEntry, peer: Peer, ghost l: Link, ghost k: Key)
      requires Mirrors() && Canonical(g.shape) && Placed(g.shape, l, k)
      requires At(g.shape, l).None? || Covers(k, At(g.shape, l).value)
      requires Addresses(a, l, g.nodes) && n !in g.repr && n.Fits(k) && n.child == [null, null] && n.peer == Some(peer)
      modifies this`IPv4, this`IPv6, this`g, g.repr, n
      ensures Mirrors() && Grown(old(g.nodes), g.nodes, k, n) && g.repr == old(g.repr) + {n}
      ensures Canonical(g.shape) && Entries(g.shape) == Entries(old(g.shape))[k := peer]
    {
      InsertNode(g.shape, l, k, peer);
      GrowOnce(g.nodes, k, n);
      PutNode(a, n, l, k);
    }

    /** The pointer surgery of insert where two prefixes part: `f` gets both as children. */
    method LinkFork(a: Indirection, f: TrieEntry, n: TrieEntry, ghost all: set<TrieEntry>)
      requires f.child == [null, null] && n.child == [null, null] && n !in all && f !in all && n != f
      requires (a.OfChild? ==> a.node in all) && Deref(a) != null && Deref(a) in all
      requires f.cidr < |Deref(a).bits| && f.cidr < |n.bits| && (a.OfChild? ==> a.node != Deref(a))
      requires f.Choose(Deref(a).bits) != f.Choose(n.bits)
      modifies this`IPv4, this`IPv6, n`parent, f`child, f`parent, all`child, all`parent
      ensures n.Now() == Fields(old(n.peer), [null, null], OfChild(f, f.Choose(n.bits)))
      ensures f.Now() == Fields(old(f.peer), Kid(f, old(Deref(a)))[f.Choose(n.bits) := n], a)
      ensures forall e :: e in all ==> e.Now() == Relinked(e, old(e.Now()), a, f, old(Deref(a)),
                                       Under(f, old(Deref(a))))
      ensures IPv4 == (if a == OfRoot(false) then f else old(IPv4))
      ensures IPv6 == (if a == OfRoot(true) then f else old(IPv6))
    {
      var down := Deref(a);
      var bit := f.Choose(down.bits);
      down.parent := OfChild(f, bit);
      f.child := f.child[bit := down];
      bit := f.Choose(n.bits);
      n.parent := OfChild(f, bit);
      f.child := f.child[bit := n];
      f.parent := a;
      Store(a, f);
    }

    lemma BeforeFork(a: Indirection, f: TrieEntry, n: TrieEntry, peer: Peer, l: Link, k: Key, q: Key)
      requires Mirrors() && Canonical(g.shape) && Placed(g.shape, l, k)
      requires At(g.shape, l).Some? && !Covers(k, At(g.shape, l).value) && q == Fork(At(g.shape, l).value, k)
      requires Addresses(a, l, g.nodes) && f !in g.repr && n.Fits(k) && f.Fits(q)
      ensures |q.bits| < |k.bits|
      ensures var down := Deref(a);
              && down != null && down in g.repr && (a.OfChild? ==> a.node in g.repr && a.node != down)
              && f.cidr < |down.bits| && f.cidr < |n.bits| && f.Choose(down.bits) != f.Choose(n.bits)
              && f.Choose(n.bits) == LinkTo(q, k).bit && Points(down, At(g.shape, l), g.nodes)
    {
      InsertFork(g.shape, l, k, peer);
      BeforeLink(a, f, l, q);
      WalkTo(a, l);
      ForkBits(Deref(a), f, n, At(g.shape, l).value, q, k);
    }

    /** LinkFork, and the record of it that is due: two puts. */
    method ForkNode(a: Indirection, f: TrieEntry, n: TrieEntry, peer: Peer, ghost l: Link, ghost k: Key, ghost q: Key)
      returns (ghost h: Drawing)
      requires Mirrors() && Canonical(g.shape) && Placed(g.shape, l, k)
      requires At(g.shape, l).Some? && !Covers(k, At(g.shape, l).value) && q == Fork(At(g.shape, l).value, k)
      requires Addresses(a, l, g.nodes) && n != f && n !in g.repr && f !in g.repr
      requires n.Fits(k) && n.child == [null, null] && n.peer == Some(peer)
      requires f.Fits(q) && f.child == [null, null] && f.peer == None
      modifies this`IPv4, this`IPv6, g.repr, n, f
      ensures Drawn(h, IPv4, IPv6) && Holds(h)
      ensures q !in g.nodes && h.nodes == g.nodes[q := f][k := n] && h.repr == g.repr + {f} + {n}
      ensures Canonical(h.shape) && Entries(h.shape) == Entries(g.shape)[k := peer]
    {
      ghost var down := Deref(a);
      BeforeFork(a, f, n, peer, l, k, q);
      LinkFork(a, f, n, g.repr);
      h := ForkDrawn(g, a, f, n, peer, l, k, q, down, old(IPv4), old(IPv6), IPv4, IPv6);
      ForkHolds(g, h, a, f, n, k, q, down);
    }

    method InsertForkAt(a: Indirection, f: TrieEntry, n: TrieEntry, peer: Peer, ghost l: Link, ghost k: Key,
          ghost q: Key)
      requires Mirrors() && Canonical(g.shape) && Placed(g.shape, l, k)
      requires At(g.shape, l).Some? && !Covers(k, At(g.shape, l).value) && q == Fork(At(g.shape, l).value, k)
      requires Addresses(a, l, g.nodes) && n != f && n !in g.repr && f !in g.repr
      requires n.Fits(k) && n.child == [null, null] && n.peer == Some(peer)
      requires f.Fits(q) && f.child == [null, null] && f.peer == None
      modifies this`IPv4, this`IPv6, this`g, g.repr, n, f
      ensures Mirrors() && g.repr == old(g.repr) + {f} + {n} && q !in old(g.nodes)
      ensures g.nodes == old(g.nodes)[q := f][k := n]
      ensures Canonical(g.shape) && Entries(g.shape) == Entries(old(g.shape))[k := peer]
    {
      ghost var h := ForkNode(a, f, n, peer, l, k, q);
      Adopt(h);
    }

    /** Where the new prefix is not stored yet: link it in, with a branching node if needed. */
    method InsertFresh(n: TrieEntry, slot: Indirection, peer: Peer, ghost l: Link, ghost k: Key)
      returns (fork: TrieEntry?)
      requires Mirrors() && Canonical(g.shape) && Placed(g.shape, l, k) && Addresses(slot, l, g.nodes)
      requires n !in g.repr && n.Fits(k) && n.child == [null, null] && n.peer == Some(peer)
      modifies this`IPv4, this`IPv6, this`g, g.repr, n
      ensures Mirrors() && (fork != null ==> fresh(fork))
      ensures fork == null ==> g.repr == old(g.repr) + {n}
      ensures fork != null ==> g.repr == old(g.repr) + {fork} + {n}
      ensures Grown(old(g.nodes), g.nodes, k, n)
      ensures Canonical(g.shape) && Entries(g.shape) == Entries(old(g.shape))[k := peer]
    {
      var down := Deref(slot);
      AtSlot(down, slot, n, l, k);
      fork := null;
      if down != null && CommonBits(down.bits, n.bits) < n.cidr {
        fork := InsertBranch(slot, n, CommonBits(down.bits, n.bits), peer, l, k);
      } else {
        InsertNodeAt(slot, n, peer, l, k);
      }
    }

    lemma AtSlot(down: TrieEntry?, slot: Indirection, n: TrieEntry, l: Link, k: Key)
      requires Mirrors() && Linked(g.shape) && Placed(g.shape, l, k) && Addresses(slot, l, g.nodes)
      requires n.Fits(k) && down == Deref(slot)
      ensures k !in g.nodes && (down == null <==> At(g.shape, l).None?)
      ensures down != null && CommonBits(down.bits, n.bits) < n.cidr ==>
        !Covers(k, At(g.shape, l).value)
        && Key(k.v6, n.bits[..CommonBits(down.bits, n.bits)]) == Fork(At(g.shape, l).value, k)
      ensures down != null && CommonBits(down.bits, n.bits) >= n.cidr ==> Covers(k, At(g.shape, l).value)
    {
      PlacedIsFresh(g.shape, l, k);
      WalkTo(slot, l);
      if down != null { ForkLength(down, At(g.shape, l).value, n, k); }
    }

    method InsertBranch(slot: Indirection, n: TrieEntry, common: nat, peer: Peer, ghost l: Link, ghost k: Key)
      returns (fork: TrieEntry)
      requires Mirrors() && Canonical(g.shape) && Placed(g.shape, l, k) && Addresses(slot, l, g.nodes)
      requires At(g.shape, l).Some? && !Covers(k, At(g.shape, l).value) && k !in g.nodes
      requires n !in g.repr && n.Fits(k) && n.child == [null, null] && n.peer == Some(peer)
      requires common < n.cidr && Key(k.v6, n.bits[..common]) == Fork(At(g.shape, l).value, k)
      modifies this`IPv4, this`IPv6, this`g, g.repr, n
      ensures Mirrors() && fresh(fork) && g.repr == old(g.repr) + {fork} + {n}
      ensures Grown(old(g.nodes), g.nodes, k, n)
      ensures Canonical(g.shape) && Entries(g.shape) == Entries(old(g.shape))[k := peer]
    {
      ghost var m, q := g.nodes, Fork(At(g.shape, l).value, k);
      fork := new TrieEntry(n.bits, common, None, OfRoot(false));
      InsertForkAt(slot, fork, n, peer, l, k, q);
      GrowTwice(m, q, fork, k, n);
    }

    /** Comparing full-width addresses decides how two prefixes relate. */
    lemma ForkLength(down: TrieEntry, d: Key, n: TrieEntry, k: Key)
      requires down.Fits(d) && n.Fits(k) && d.v6 == k.v6 && !Covers(d, k)
      ensures n.cidr <= CommonBits(down.bits, n.bits) <==> Covers(k, d)
      ensures CommonBits(down.bits, n.bits) < n.cidr ==>
        Key(k.v6, n.bits[..CommonBits(down.bits, n.bits)]) == Fork(d, k)
    {
      CommonOfPrefixes(down.bits, n.bits, down.cidr, n.cidr);
      PrefixByCommon(d.bits, k.bits);
      PrefixByCommon(k.bits, d.bits);
      var c := CommonBits(down.bits, n.bits);
      if c < n.cidr { assert n.bits[..c] == k.bits[..c]; }
    }

    /** The peer has a list, empty at first. */
    method Register(peer: Peer)
      requires Valid()
      modifies this`g, this`trieEntries, this`keys
      ensures Valid() && peer in trieEntries && g == old(g)
    {
      if peer !in trieEntries {
        ListsOkRegister(trieEntries, keys, g.nodes, Entries(g.shape), peer);
        Commit(g, trieEntries[peer := []], keys[peer := []]);
      }
    }

    /** The node leaves its old peer's list, if it has one, and joins another. */
    method MoveList(n: TrieEntry, peer: Peer, ghost k: Key, ghost e: map<Key, Peer>)
      requires ListsOk(trieEntries, keys, g.nodes, e) && Named(g.nodes) && k in g.nodes && g.nodes[k] == n
      requires peer in trieEntries && n.peer == if k in e then Some(e[k]) else None
      modifies this`trieEntries, this`keys
      ensures ListsOk(trieEntries, keys, g.nodes, e[k := peer])
    {
      assert (e - {k})[k := peer] == e[k := peer];
      if n.peer.Some? {
        ListRemove(n, n.peer.value, k, e);
      } else {
        assert e - {k} == e;
      }
      ListPush(n, peer, k, e - {k}, g.nodes);
    }

    /** The prefix is stored or has a branching node: only the peer changes. */
    method Reassign(n: TrieEntry, peer: Peer, ghost k: Key)
      requires Mirrors() && ListsOk(trieEntries, keys, g.nodes, Entries(g.shape))
      requires k in g.nodes && g.nodes[k] == n && peer in trieEntries
      modifies this`g, this`trieEntries, this`keys, n
      ensures Mirrors() && ListsOk(trieEntries, keys, g.nodes, Entries(old(g.shape))[k := peer])
      ensures g.shape == SetPeer(old(g.shape), k, Some(peer)) && g.repr == old(g.repr)
    {
      StoredPeer(n, k);
      MoveList(n, peer, k, Entries(g.shape));
      ChangePeer(n, Some(peer), k);
    }

    lemma ReassignShape(s: Shape<Peer>, k: Key, peer: Peer)
      requires Canonical(s) && k in s.nodes
      ensures Canonical(SetPeer(s, k, Some(peer))) && Entries(SetPeer(s, k, Some(peer))) == Entries(s)[k := peer]
    {
      SetPeerLinked(s, k, Some(peer));
    }

    /** A new node, already in its peer's list but not linked in. */
    method NewListed(ip: seq<Bit>, cidr: nat, peer: Peer, ghost k: Key) returns (n: TrieEntry)
      requires Mirrors() && ListsOk(trieEntries, keys, g.nodes, Entries(g.shape)) && peer in trieEntries
      requires (|ip| == 32 || |ip| == 128) && cidr <= |ip| && k == Key(|ip| == 128, ip[..cidr]) && k !in g.nodes
      modifies this`g, this`trieEntries, this`keys
      ensures g == old(g) && Mirrors() && fresh(n) && n.Fits(k) && n.child == [null, null] && n.peer == Some(peer)
      ensures ListsOk(trieEntries, keys, g.nodes[k := n], Entries(g.shape)[k := peer])
    {
      n := new TrieEntry(ip, cidr, Some(peer), OfRoot(false));
      ListsOkNew(trieEntries, keys, g.nodes, Entries(g.shape), k, n, peer);
      Commit(g, trieEntries[peer := trieEntries[peer] + [n]], keys[peer := keys[peer] + [k]]);
    }

    method LinkListed(n: TrieEntry, slot: Indirection, peer: Peer, ghost l: Link, ghost k: Key)
      returns (fork: TrieEntry?)
      requires Mirrors() && Canonical(g.shape) && Placed(g.shape, l, k) && Addresses(slot, l, g.nodes)
      requires n !in g.repr && n.Fits(k) && n.child == [null, null] && n.peer == Some(peer)
      requires ListsOk(trieEntries, keys, g.nodes[k := n], Entries(g.shape)[k := peer])
      modifies this`IPv4, this`IPv6, this`g, g.repr, n
      ensures Mirrors() && (fork != null ==> fresh(fork))
      ensures fork == null ==> g.repr == old(g.repr) + {n}
      ensures fork != null ==> g.repr == old(g.repr) + {fork} + {n}
      ensures Canonical(g.shape) && Entries(g.shape) == Entries(old(g.shape))[k := peer]
      ensures ListsOk(trieEntries, keys, g.nodes, Entries(g.shape))
    {
      ghost var e, m := Entries(g.shape), g.nodes;
      fork := InsertFresh(n, slot, peer, l, k);
      ListsOkGrown(trieEntries, keys, m, g.nodes, k, n, e[k := peer]);
    }

    method InsertNew(ip: seq<Bit>, cidr: nat, peer: Peer, node: TrieEntry?, ghost l: Link, ghost k: Key)
      returns (n: TrieEntry, fork: TrieEntry?)
      requires Mirrors() && Canonical(g.shape) && ListsOk(trieEntries, keys, g.nodes, Entries(g.shape))
          && peer in trieEntries
      requires (|ip| == 32 || |ip| == 128) && cidr <= |ip| && k == Key(|ip| == 128, ip[..cidr])
      requires Placed(g.shape, l, k) && Addresses(Slot(|ip| == 128, node, ip), l, g.nodes)
      modifies this, g.repr
      ensures Mirrors() && fresh(n) && (fork != null ==> fresh(fork))
      ensures fork == null ==> g.repr == old(g.repr) + {n}
      ensures fork != null ==> g.repr == old(g.repr) + {fork} + {n}
      ensures Canonical(g.shape) && Entries(g.shape) == Entries(old(g.shape))[k := peer]
      ensures ListsOk(trieEntries, keys, g.nodes, Entries(g.shape))
    {
      PlacedIsFresh(g.shape, l, k);
      var slot := Slot(|ip| == 128, node, ip);
      n := NewListed(ip, cidr, peer, k);
      fork := LinkListed(n, slot, peer, l, k);
    }

    /** `n` and `fork` are the nodes made, if any. */
    method Insert(ip: seq<Bit>, cidr: nat, peer: Peer) returns (ghost n: TrieEntry?, ghost fork: TrieEntry?)
      requires Valid() && (|ip| == 32 || |ip| == 128) && cidr <= |ip|
      modifies this, g.repr
      ensures Valid() && Routes() == old(Routes())[Key(|ip| == 128, ip[..cidr]) := peer]
      ensures n == null ==> fork == null && g.repr == old(g.repr)
      ensures n != null && fork == null ==> fresh(n) && g.repr == old(g.repr) + {n}
      ensures n != null && fork != null ==> fresh(n) && fresh(fork) && g.repr == old(g.repr) + {fork} + {n}
    {
      Register(peer);
      ghost var l;
      var node, exact;
      node, exact, l := NodePlacement(|ip| == 128, ip, cidr);
      if exact {
        InsertExact(node, peer, Key(|ip| == 128, ip[..cidr]));
        n, fork := null, null;
      } else {
        n, fork := InsertNew(ip, cidr, peer, node, l, Key(|ip| == 128, ip[..cidr]));
      }
    }

    method InsertExact(n: TrieEntry, peer: Peer, ghost k: Key)
      requires Valid() && k in g.nodes && g.nodes[k] == n && peer in trieEntries
      modifies this`g, this`trieEntries, this`keys, n
      ensures Valid() && Routes() == old(Routes())[k := peer] && g.repr == old(g.repr)
    {
      ReassignShape(g.shape, k, peer);
      Reassign(n, peer, k);
    }

    // ---------- remove ----------

    /** How many children a node has, on the heap and in the shape. */
    lemma ChildrenAt(n: TrieEntry, k: Key)
      requires Mirrors() && k in g.nodes && g.nodes[k] == n
      ensures n.child[0] != null <==> g.shape.nodes[k].child[0].Some?
      ensures n.child[1] != null <==> g.shape.nodes[k].child[1].Some?
      ensures Addresses(n.parent, g.shape.nodes[k].parent, g.nodes)
    {
      assert DrawsAt(g.snap, g.shape, g.nodes, k);
    }

    /** After the node lost its peer: take out what is not needed any more. */
    method Prune(n: TrieEntry, ghost k: Key, ghost s: Shape<Peer>)
      requires Mirrors() && Canonical(s) && k in s.nodes && g.shape == SetPeer(s, k, None)
      requires k in g.nodes && g.nodes[k] == n
      modifies this`IPv4, this`IPv6, this`g, g.repr
      ensures Mirrors() && g.repr == old(g.repr) && Shrunk(old(g.nodes), g.nodes)
      ensures g.shape == Removed(s, k)
    {
      ChildrenAt(n, k);
      if n.child[0] == null || n.child[1] == null {
        PruneNode(n, k, s);
      }
    }

    method PruneNode(n: TrieEntry, ghost k: Key, ghost s: Shape<Peer>)
      requires Mirrors() && Canonical(s) && k in s.nodes && g.shape == SetPeer(s, k, None) && !HasBoth(s.nodes[k])
      requires k in g.nodes && g.nodes[k] == n
      modifies this`IPv4, this`IPv6, this`g, g.repr
      ensures Mirrors() && g.repr == old(g.repr) && Shrunk(old(g.nodes), g.nodes)
      ensures g.shape == Removed(s, k)
    {
      var single := n.child[0] != null || n.child[1] != null;
      ChildrenAt(n, k);
      PruneFacts(s, k);
      ShrinkTwice(g.nodes, k, if s.nodes[k].parent.Below? then s.nodes[k].parent.key else k);
      SpliceNode(n, k);
      if !single && n.parent.OfChild? {
        PruneParent(n.parent.node, k, s);
      }
    }

    lemma PruneFacts(s: Shape<Peer>, k: Key)
      requires Canonical(s) && k in s.nodes && !HasBoth(s.nodes[k])
      ensures var t := SetPeer(s, k, None);
              Sound(t) && CanSplice(s, k) && CanSplice(t, k) && Splice(t, k) == Splice(s, k)
      ensures Sound(Splice(s, k))
      ensures s.nodes[k].parent.Below? ==> s.nodes[k].parent.key in Splice(s, k).nodes
      ensures s.nodes[k].parent.Root? || OnlyChild(s.nodes[k]).Some? ==> Splice(s, k) == Removed(s, k)
    {
      SetPeerLinked(s, k, None);
      DetachFirst(s, k);
      SpliceLinked(s, k);
      assert SoundNode(s, k) && SoundAt(s, s.nodes[k].parent);
    }

    /** The parent that is left with one child goes too, unless it has a peer. */
    method PruneParent(p: TrieEntry, ghost k: Key, ghost s: Shape<Peer>)
      requires Canonical(s) && k in s.nodes && !HasBoth(s.nodes[k]) && CanSplice(s, k)
      requires Mirrors() && Sound(g.shape) && g.shape == Splice(s, k)
      requires OnlyChild(s.nodes[k]).None? && s.nodes[k].parent.Below? && s.nodes[k].parent.key in g.nodes
      requires g.nodes[s.nodes[k].parent.key] == p
      modifies this`IPv4, this`IPv6, this`g, g.repr
      ensures Mirrors() && g.repr == old(g.repr) && g.shape == Removed(s, k)
      ensures g.nodes == old(g.nodes) || g.nodes == old(g.nodes) - {s.nodes[k].parent.key}
    {
      ghost var q := s.nodes[k].parent.key;
      StoredPeer(p, q);
      RemoveSteps(s, k);
      if p.peer.None? {
        SpliceNode(p, q);
      }
    }

    /** trieEntry.remove. */
    method RemoveNode(n: TrieEntry, ghost k: Key, p: Peer)
      requires Valid() && k in g.nodes && g.nodes[k] == n && n.peer == Some(p)
      modifies this, g.repr
      ensures Valid() && g.repr == old(g.repr) && Shrunk(old(g.nodes), g.nodes)
      ensures Routes() == old(Routes()) - {k}
    {
      ghost var s := g.shape;
      StoredPeer(n, k);
      Detach(n, p, k);
      PruneListed(n, k, s);
    }

    method PruneListed(n: TrieEntry, ghost k: Key, ghost s: Shape<Peer>)
      requires Mirrors() && Canonical(s) && k in s.nodes && s.nodes[k].peer.Some? && g.shape == SetPeer(s, k, None)
      requires k in g.nodes && g.nodes[k] == n && ListsOk(trieEntries, keys, g.nodes, Entries(s) - {k})
      modifies this`IPv4, this`IPv6, this`g, g.repr
      ensures Valid() && g.repr == old(g.repr) && Shrunk(old(g.nodes), g.nodes)
      ensures Routes() == Entries(s) - {k}
    {
      ghost var m := g.nodes;
      RemoveIsMapRemove(s, k);
      Prune(n, k, s);
      EntriesNamed();
      ListsOkShrunk(trieEntries, keys, m, g.nodes, Entries(s) - {k});
    }

    lemma EntriesNamed()
      requires Mirrors()
      ensures Routes().Keys <= g.nodes.Keys
    {
    }

    method Remove(ip: seq<Bit>, cidr: nat, peer: Peer)
      requires Valid() && (|ip| == 32 || |ip| == 128) && cidr <= |ip|
      modifies this, g.repr
      ensures Valid() && g.repr == old(g.repr)
      ensures var k := Key(|ip| == 128, ip[..cidr]);
              Routes() == if k in old(Routes()) && old(Routes())[k] == peer then old(Routes()) - {k} else old(Routes())
    {
      ghost var l;
      var node, exact;
      node, exact, l := NodePlacement(|ip| == 128, ip, cidr);
      RemovePlaced(node, exact, l, Key(|ip| == 128, ip[..cidr]), peer);
    }

    /** Remove, once the walk has ended at `node`. */
    method RemovePlaced(node: TrieEntry?, exact: bool, ghost l: Link, ghost k: Key, peer: Peer)
      requires Valid() && (exact ==> node != null && k in g.nodes && g.nodes[k] == node)
      requires !exact ==> Placed(g.shape, l, k)
      modifies this, g.repr
      ensures Valid() && g.repr == old(g.repr)
      ensures Routes() == if k in old(Routes()) && old(Routes())[k] == peer then old(Routes()) - {k} else old(Routes())
    {
      Found(node, exact, l, k, peer);
      if exact && node != null && node.peer == Some(peer) {
        RemoveNode(node, k, peer);
      }
    }

    /** The stored peer of a prefix, read off the walk's answer. */
    lemma Found(node: TrieEntry?, exact: bool, l: Link, k: Key, peer: Peer)
      requires Mirrors() && Linked(g.shape)
      requires exact ==> node != null && k in g.nodes && g.nodes[k] == node
      requires !exact ==> Placed(g.shape, l, k)
      ensures (k in Routes() && Routes()[k] == peer) == (exact && node != null && node.peer == Some(peer))
    {
      if exact { StoredPeer(node, k); } else { PlacedIsFresh(g.shape, l, k); }
    }

    /** One step of RemoveByPeer: the first node left. */
    method RemoveFirst(peer: Peer, elems: seq<TrieEntry>, ghost q: seq<Key>, ghost m: map<Key, TrieEntry>)
      requires Valid() && elems != [] && Left(peer, elems, q, m, g.nodes, Routes())
      modifies this, g.repr
      ensures Valid() && g.repr == old(g.repr) && Left(peer, elems[1..], q[1..], m, g.nodes, Routes())
      ensures Routes() == old(Routes()) - {q[0]}
    {
      ghost var nodes, e := g.nodes, Routes();
      FirstLeft(peer, elems, q, m);
      RemoveNode(elems[0], q[0], peer);
      LeftStep(peer, elems, q, m, nodes, g.nodes, e);
    }

    lemma FirstLeft(peer: Peer, elems: seq<TrieEntry>, q: seq<Key>, m: map<Key, TrieEntry>)
      requires Mirrors() && elems != [] && Left(peer, elems, q, m, g.nodes, Routes())
      ensures q[0] in g.nodes && g.nodes[q[0]] == elems[0] && elems[0].peer == Some(peer)
    {
      assert q[0] in q;
      EntriesNamed();
      StoredPeer(elems[0], q[0]);
    }

    method RemoveByPeer(peer: Peer)
      requires Valid()
      modifies this, g.repr
      ensures Valid() && g.repr == old(g.repr)
      ensures Routes() == map k | k in old(Routes()) && old(Routes())[k] != peer :: old(Routes())[k]
    {
      if peer in trieEntries {
        DroppingAll(keys, Routes(), peer);
        RemoveList(peer);
      }
    }

    /** `next` is read before the node goes, so the walk follows the list as it was. */
    /** While the list is walked: `elems` is left of it, and without them the routes are `goal`. */
    ghost predicate Leaving(peer: Peer, elems: seq<TrieEntry>, q: seq<Key>, m: map<Key, TrieEntry>,
          goal: map<Key, Peer>)
      reads this, g.repr
    {
      Valid() && Left(peer, elems, q, m, g.nodes, Routes()) && Dropping(Routes(), q) == goal
    }

    method RemoveNext(peer: Peer, elems: seq<TrieEntry>, ghost q: seq<Key>, ghost m: map<Key, TrieEntry>,
          ghost goal: map<Key, Peer>)
      requires elems != [] && Leaving(peer, elems, q, m, goal)
      modifies this, g.repr
      ensures g.repr == old(g.repr) && q != [] && Leaving(peer, elems[1..], q[1..], m, goal)
    {
      RemoveFirst(peer, elems, q, m);
    }

    method RemoveList(peer: Peer)
      requires Valid() && peer in trieEntries && peer in keys
      modifies this, g.repr
      ensures Valid() && g.repr == old(g.repr) && Routes() == Dropping(old(Routes()), old(keys)[peer])
    {
      var elems := trieEntries[peer];
      ghost var rest, m, goal := keys[peer], g.nodes, Dropping(Routes(), keys[peer]);
      while elems != []
        invariant g.repr == old(g.repr) && Leaving(peer, elems, rest, m, goal)
        decreases |elems|
      {
        RemoveNext(peer, elems, rest, m, goal);
        elems, rest := elems[1..], rest[1..];
      }
    }
  }

  /** The table without the listed prefixes. */
  ghost function Dropping(e: map<Key, Peer>, q: seq<Key>): map<Key, Peer> {
    if q == [] then e else Dropping(e - {q[0]}, q[1..])
  }

  lemma {:induction false} DroppingIs(e: map<Key, Peer>, q: seq<Key>)
    ensures Dropping(e, q) == map k | k in e && k !in q :: e[k]
  {
    if q != [] {
      DroppingIs(e - {q[0]}, q[1..]);
      assert forall k :: k in q <==> k == q[0] || k in q[1..];
    }
  }

  /** Dropping a peer's list drops exactly its prefixes. */
  lemma DroppingAll(keys: map<Peer, seq<Key>>, e: map<Key, Peer>, p: Peer)
    requires ListsExact(keys, e) && p in keys
    ensures Dropping(e, keys[p]) == map k | k in e && e[k] != p :: e[k]
  {
    DroppingIs(e, keys[p]);
  }

  lemma EmptyIsCanonical()
    ensures Canonical<Peer>(Empty()) && Entries<Peer>(Empty()) == map[]
  {
  }
}
