/**
 * The shape of the AllowedIPs trie (device/allowedips.go) as a value: which prefix each
 * link leads to. A node is named by its masked prefix. The pointer version in
 * AllowedIPs.dfy mirrors such a shape and changes it by the two edits proved here.
 */
module TrieShape {

  import opened Options

  type Bit = b: nat | b < 2

  /** A masked prefix: an address family and the bits that are fixed. */
  datatype Key = Key(v6: bool, bits: seq<Bit>)

  function Width(v6: bool): nat {
    if v6 then 128 else 32
  }

  /** Every address in `b` is in `a`. */
  predicate Covers(a: Key, b: Key) {
    a.v6 == b.v6 && |a.bits| <= |b.bits| && b.bits[..|a.bits|] == a.bits
  }

  /** A place that holds a node pointer: a root, or a child slot. */
  datatype Link = Root(v6: bool) | Below(key: Key, bit: Bit)

  /** The prefixes that may hang under a link. */
  predicate Extends(l: Link, k: Key) {
    match l
    case Root(v6) => k.v6 == v6
    case Below(key, bit) => Covers(key, k) && |key.bits| < |k.bits| && k.bits[|key.bits|] == bit
  }

  type Pair = s: seq<Option<Key>> | |s| == 2 witness [None, None]

  datatype View<P> = View(peer: Option<P>, child: Pair, parent: Link)

  datatype Shape<P> = Shape(nodes: map<Key, View<P>>, roots: map<bool, Key>)

  function Empty<P>(): Shape<P> {
    Shape(map[], map[])
  }

  predicate HasLink<P>(s: Shape<P>, l: Link) {
    l.Below? ==> l.key in s.nodes
  }

  /** What a link points at. */
  function At<P>(s: Shape<P>, l: Link): Option<Key>
    requires HasLink(s, l)
  {
    match l
    case Root(v6) => if v6 in s.roots then Some(s.roots[v6]) else None
    case Below(key, bit) => s.nodes[key].child[bit]
  }

  function Child<P>(v: View<P>, bit: Bit, c: Option<Key>): View<P> {
    v.(child := v.child[bit := c])
  }

  // ---------- what every reachable shape satisfies ----------

  /** A link leads to a known node that lies below it and points back. */
  ghost predicate SoundAt<P>(s: Shape<P>, l: Link) {
    HasLink(s, l) && At(s, l).Some? ==>
      var c := At(s, l).value; c in s.nodes && Extends(l, c) && s.nodes[c].parent == l
  }

  ghost predicate SoundNode<P>(s: Shape<P>, k: Key) {
    k in s.nodes ==>
      |k.bits| <= Width(k.v6) && HasLink(s, s.nodes[k].parent) && At(s, s.nodes[k].parent) == Some(k)
  }

  ghost predicate Sound<P>(s: Shape<P>) {
    && (forall l: Link :: SoundAt(s, l))
    && (forall k :: SoundNode(s, k))
  }

  /** Whatever may hang under a link is found by following it. */
  ghost predicate CompleteAt<P>(s: Shape<P>, l: Link, k: Key) {
    HasLink(s, l) && k in s.nodes && Extends(l, k) ==> At(s, l).Some? && Covers(At(s, l).value, k)
  }

  ghost predicate Complete<P>(s: Shape<P>) {
    forall l: Link, k :: CompleteAt(s, l, k)
  }

  /** Only branching nodes may lack a peer. */
  ghost predicate Compressed<P>(s: Shape<P>) {
    forall k :: k in s.nodes && s.nodes[k].peer.None? ==> s.nodes[k].child[0].Some? && s.nodes[k].child[1].Some?
  }

  ghost predicate Linked<P>(s: Shape<P>) {
    Sound(s) && Complete(s)
  }

  ghost predicate Canonical<P>(s: Shape<P>) {
    Linked(s) && Compressed(s)
  }

  /** The stored routing table. */
  function Entries<P>(s: Shape<P>): map<Key, P> {
    map k | k in s.nodes && s.nodes[k].peer.Some? :: s.nodes[k].peer.value
  }

  lemma CoversTrans(a: Key, b: Key, c: Key)
    requires Covers(a, b) && Covers(b, c)
    ensures Covers(a, c)
    ensures |a.bits| < |b.bits| ==> c.bits[|a.bits|] == b.bits[|a.bits|]
  {
    assert c.bits[..|a.bits|] == c.bits[..|b.bits|][..|a.bits|];
    assert |a.bits| < |b.bits| ==> c.bits[|a.bits|] == c.bits[..|b.bits|][|a.bits|];
  }

  lemma ExtendsTrans(l: Link, a: Key, b: Key)
    requires Extends(l, a) && Covers(a, b)
    ensures Extends(l, b)
  {
    if l.Below? {
      CoversTrans(l.key, a, b);
    }
  }

  /** Two prefixes of one address are comparable. */
  lemma Comparable(a: Key, b: Key, c: Key)
    requires Covers(a, c) && Covers(b, c) && |a.bits| <= |b.bits|
    ensures Covers(a, b) && (|a.bits| == |b.bits| ==> a == b)
  {
    assert b.bits[..|a.bits|] == c.bits[..|b.bits|][..|a.bits|] == c.bits[..|a.bits|];
  }

  // ---------- inserting a node at a link ----------

  ghost predicate CanPut<P>(s: Shape<P>, l: Link, k: Key) {
    && HasLink(s, l) && Extends(l, k) && k !in s.nodes && |k.bits| <= Width(k.v6)
    && (At(s, l).Some? ==> At(s, l).value in s.nodes && Covers(k, At(s, l).value))
  }

  function KidsOf(k: Key, d: Option<Key>): Pair {
    if d.None? || |d.value.bits| <= |k.bits| then [None, None]
    else [None, None][d.value.bits[|k.bits|] := d]
  }

  function LinkTo(k: Key, d: Key): Link
    requires |k.bits| < |d.bits|
  {
    Below(k, d.bits[|k.bits|])
  }

  /** A node's fields once `k` is put at `l`, which pointed at `d`. */
  function PutView<P>(s: Shape<P>, l: Link, k: Key, peer: Option<P>, d: Option<Key>, n: Key): View<P>
    requires n in s.nodes || n == k
    requires d.Some? ==> |k.bits| < |d.value.bits|
  {
    if n == k then View(peer, KidsOf(k, d), l)
    else
      var v := s.nodes[n];
      var v := if l.Below? && l.key == n then Child(v, l.bit, Some(k)) else v;
      if d == Some(n) then v.(parent := LinkTo(k, n)) else v
  }

  /** A new node between a link and what the link pointed at. */
  function Put<P>(s: Shape<P>, l: Link, k: Key, peer: Option<P>): Shape<P>
    requires HasLink(s, l)
    requires At(s, l).Some? ==> |k.bits| < |At(s, l).value.bits|
  {
    Shape(map n | n in s.nodes.Keys + {k} :: PutView(s, l, k, peer, At(s, l), n),
          if l.Root? then s.roots[l.v6 := k] else s.roots)
  }

  lemma CanPutBelow<P>(s: Shape<P>, l: Link, k: Key)
    requires CanPut(s, l, k) && At(s, l).Some?
    ensures |k.bits| < |At(s, l).value.bits| && Extends(LinkTo(k, At(s, l).value), At(s, l).value)
  {
    Comparable(k, At(s, l).value, At(s, l).value);
  }

  /** Where every link leads after Put. */
  lemma PutAt<P>(s: Shape<P>, l: Link, k: Key, peer: Option<P>, m: Link)
    requires CanPut(s, l, k) && (At(s, l).Some? ==> |k.bits| < |At(s, l).value.bits|)
    ensures HasLink(Put(s, l, k, peer), m) <==> HasLink(s, m) || (m.Below? && m.key == k)
    ensures HasLink(Put(s, l, k, peer), m) && m == l ==> At(Put(s, l, k, peer), m) == Some(k)
    ensures m != l && m.Below? && m.key == k ==>
      At(Put(s, l, k, peer), m) == if At(s, l).Some? && m == LinkTo(k, At(s, l).value) then At(s, l) else None
    ensures m != l && HasLink(s, m) ==> At(Put(s, l, k, peer), m) == At(s, m)
  {
  }

  lemma PutSoundAt<P>(s: Shape<P>, l: Link, k: Key, peer: Option<P>, m: Link)
    requires CanPut(s, l, k) && (At(s, l).Some? ==> |k.bits| < |At(s, l).value.bits|)
    requires SoundAt(s, l) && SoundAt(s, m)
    ensures SoundAt(Put(s, l, k, peer), m)
  {
    PutAt(s, l, k, peer, m);
    if At(s, l).Some? { CanPutBelow(s, l, k); }
  }

  lemma PutSoundNode<P>(s: Shape<P>, l: Link, k: Key, peer: Option<P>, n: Key)
    requires CanPut(s, l, k) && (At(s, l).Some? ==> |k.bits| < |At(s, l).value.bits|)
    requires SoundNode(s, n)
    ensures SoundNode(Put(s, l, k, peer), n)
  {
    PutAt(s, l, k, peer, l);
    if n in s.nodes && n != k {
      PutAt(s, l, k, peer, s.nodes[n].parent);
      if At(s, l) == Some(n) {
        PutAt(s, l, k, peer, LinkTo(k, n));
      }
    }
  }

  lemma PutSound<P>(s: Shape<P>, l: Link, k: Key, peer: Option<P>)
    requires Sound(s) && CanPut(s, l, k) && (At(s, l).Some? ==> |k.bits| < |At(s, l).value.bits|)
    ensures Sound(Put(s, l, k, peer))
  {
    var s' := Put(s, l, k, peer);
    forall m: Link ensures SoundAt(s', m) {
      PutSoundAt(s, l, k, peer, m);
    }
    forall n ensures SoundNode(s', n) {
      PutSoundNode(s, l, k, peer, n);
    }
  }

  lemma Follow<P>(s: Shape<P>, l: Link, k: Key)
    requires Complete(s) && HasLink(s, l) && k in s.nodes && Extends(l, k)
    ensures At(s, l).Some? && Covers(At(s, l).value, k)
  {
    assert CompleteAt(s, l, k);
  }

  /** No node lies strictly between the link and the new prefix. */
  lemma NothingBetween<P>(s: Shape<P>, l: Link, k: Key, n: Key)
    requires Linked(s) && CanPut(s, l, k) && n in s.nodes && Covers(n, k)
    ensures l.Below? && |n.bits| <= |l.key.bits|
  {
    if l.Root? || |l.key.bits| < |n.bits| {
      if l.Below? { Comparable(l.key, n, k); }
      if |n.bits| == |k.bits| { Comparable(n, k, k); }
      ExtendsBack(l, n, k);
      Follow(s, l, n);
    }
  }

  lemma ExtendsBack(l: Link, n: Key, k: Key)
    requires Covers(n, k) && Extends(l, k) && (l.Below? ==> Covers(l.key, n) && |l.key.bits| < |n.bits|)
    ensures Extends(l, n)
  {
    if l.Below? { CoversTrans(l.key, n, k); }
  }

  /** The links above the new node still lead to it. */
  lemma PutReaches<P>(s: Shape<P>, l: Link, k: Key, m: Link)
    requires Linked(s) && CanPut(s, l, k) && m != l && HasLink(s, m) && Extends(m, k)
    ensures At(s, m).Some? && Covers(At(s, m).value, k)
  {
    if m.Below? { NothingBetween(s, l, k, m.key); }
    if l.Below? {
      if m.Below? {
        Comparable(m.key, l.key, k);
        CoversTrans(m.key, l.key, k);
      }
      Follow(s, m, l.key);
      CoversTrans(At(s, m).value, l.key, k);
    }
  }

  lemma PutCompleteAt<P>(s: Shape<P>, l: Link, k: Key, peer: Option<P>, m: Link, n: Key)
    requires Linked(s) && CanPut(s, l, k) && (At(s, l).Some? ==> |k.bits| < |At(s, l).value.bits|)
    ensures CompleteAt(Put(s, l, k, peer), m, n)
  {
    var s' := Put(s, l, k, peer);
    if HasLink(s', m) && n in s'.nodes && Extends(m, n) {
      PutAt(s, l, k, peer, m);
      if m == l {
        assert CompleteAt(s, l, n);
        if n != k { CoversTrans(k, At(s, l).value, n); }
      } else if m.Below? && m.key == k {
        ExtendsTrans(l, k, n);
        assert CompleteAt(s, l, n);
        CoversTrans(k, At(s, l).value, n);
        CanPutBelow(s, l, k);
      } else if n == k {
        PutReaches(s, l, k, m);
      } else {
        assert CompleteAt(s, m, n);
      }
    }
  }

  lemma PutEntries<P>(s: Shape<P>, l: Link, k: Key, peer: Option<P>)
    requires CanPut(s, l, k) && (At(s, l).Some? ==> |k.bits| < |At(s, l).value.bits|)
    ensures Entries(Put(s, l, k, peer)) == if peer.Some? then Entries(s)[k := peer.value] else Entries(s)
  {
  }

  /** Put keeps the shape linked and stores exactly the new prefix. */
  lemma PutLinked<P>(s: Shape<P>, l: Link, k: Key, peer: Option<P>)
    requires Linked(s) && CanPut(s, l, k)
    ensures At(s, l).Some? ==> |k.bits| < |At(s, l).value.bits|
    ensures Linked(Put(s, l, k, peer))
    ensures Entries(Put(s, l, k, peer)) == if peer.Some? then Entries(s)[k := peer.value] else Entries(s)
  {
    if At(s, l).Some? { CanPutBelow(s, l, k); }
    PutSound(s, l, k, peer);
    PutEntries(s, l, k, peer);
    forall m: Link, n ensures CompleteAt(Put(s, l, k, peer), m, n) {
      PutCompleteAt(s, l, k, peer, m, n);
    }
  }

  // ---------- taking a node out ----------

  ghost predicate CanSplice<P>(s: Shape<P>, k: Key) {
    && k in s.nodes && HasLink(s, s.nodes[k].parent)
    && (s.nodes[k].child[0].None? || s.nodes[k].child[1].None?)
    && (OnlyChild(s.nodes[k]).Some? ==> OnlyChild(s.nodes[k]).value in s.nodes)
  }

  function OnlyChild<P>(v: View<P>): Option<Key> {
    if v.child[0].Some? then v.child[0] else v.child[1]
  }

  function SpliceView<P>(s: Shape<P>, l: Link, c: Option<Key>, n: Key): View<P>
    requires n in s.nodes
  {
    var v := s.nodes[n];
    var v := if l.Below? && l.key == n then Child(v, l.bit, c) else v;
    if c == Some(n) then v.(parent := l) else v
  }

  /** The only child, if any, takes the place of its parent. */
  function Splice<P>(s: Shape<P>, k: Key): Shape<P>
    requires CanSplice(s, k)
  {
    var l, c := s.nodes[k].parent, OnlyChild(s.nodes[k]);
    Shape(map n | n in s.nodes.Keys - {k} :: SpliceView(s, l, c, n),
          if l.Below? then s.roots else if c.Some? then s.roots[l.v6 := c.value] else s.roots - {l.v6})
  }

  lemma SpliceAt<P>(s: Shape<P>, k: Key, m: Link)
    requires SoundNode(s, k) && CanSplice(s, k)
    ensures HasLink(Splice(s, k), m) <==> HasLink(s, m) && !(m.Below? && m.key == k)
    ensures HasLink(Splice(s, k), m) ==>
      At(Splice(s, k), m) == (if m == s.nodes[k].parent then OnlyChild(s.nodes[k]) else At(s, m))
  {
  }

  /** The only child hangs under the spliced node, so it fits its place. */
  lemma OnlyChildFits<P>(s: Shape<P>, k: Key) returns (b: Bit)
    requires Sound(s) && CanSplice(s, k) && OnlyChild(s.nodes[k]).Some?
    ensures var c := OnlyChild(s.nodes[k]).value;
            At(s, Below(k, b)) == Some(c) && c != k && Covers(k, c) && Extends(s.nodes[k].parent, c)
            && s.nodes[c].parent == Below(k, b)
  {
    b := if s.nodes[k].child[0].Some? then 0 else 1;
    assert SoundAt(s, Below(k, b)) && SoundNode(s, k) && SoundAt(s, s.nodes[k].parent);
    ExtendsTrans(s.nodes[k].parent, k, OnlyChild(s.nodes[k]).value);
  }

  lemma SpliceSoundAt<P>(s: Shape<P>, k: Key, m: Link)
    requires Sound(s) && CanSplice(s, k)
    ensures SoundAt(Splice(s, k), m)
  {
    var s' := Splice(s, k);
    if HasLink(s', m) && At(s', m).Some? {
      assert SoundNode(s, k) && SoundAt(s, m);
      SpliceAt(s, k, m);
      if OnlyChild(s.nodes[k]).Some? { var b := OnlyChildFits(s, k); }
    }
  }

  lemma SpliceSoundNode<P>(s: Shape<P>, k: Key, n: Key)
    requires Sound(s) && CanSplice(s, k)
    ensures SoundNode(Splice(s, k), n)
  {
    if n in s.nodes && n != k {
      assert SoundNode(s, k) && SoundNode(s, n);
      SpliceAt(s, k, s.nodes[n].parent);
      SpliceAt(s, k, s.nodes[k].parent);
      if OnlyChild(s.nodes[k]).Some? { var b := OnlyChildFits(s, k); }
      var p := s.nodes[n].parent;
      assert p.Below? && p.key == k ==> OnlyChild(s.nodes[k]) == Some(n);
    }
  }

  lemma SpliceCompleteAt<P>(s: Shape<P>, k: Key, m: Link, n: Key)
    requires Linked(s) && CanSplice(s, k)
    ensures CompleteAt(Splice(s, k), m, n)
  {
    var s' := Splice(s, k);
    if HasLink(s', m) && n in s'.nodes && Extends(m, n) {
      assert SoundNode(s, k) && CompleteAt(s, m, n);
      SpliceAt(s, k, m);
      if m == s.nodes[k].parent {
        if |k.bits| == |n.bits| { Comparable(k, n, n); }
        assert CompleteAt(s, LinkTo(k, n), n);
      }
    }
  }

  /** Splice keeps the shape linked and forgets exactly the removed prefix. */
  lemma SpliceLinked<P>(s: Shape<P>, k: Key)
    requires Linked(s) && CanSplice(s, k)
    ensures Linked(Splice(s, k))
    ensures Entries(Splice(s, k)) == Entries(s) - {k}
  {
    forall m: Link ensures SoundAt(Splice(s, k), m) { SpliceSoundAt(s, k, m); }
    forall n ensures SoundNode(Splice(s, k), n) { SpliceSoundNode(s, k, n); }
    forall m: Link, n ensures CompleteAt(Splice(s, k), m, n) { SpliceCompleteAt(s, k, m, n); }
  }
}
