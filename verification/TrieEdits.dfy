/**
 * Insert and remove on trie shapes: where a prefix is placed, which nodes are made or
 * taken out, and that the stored map changes as a plain map would.
 */
module TrieEdits {
  import opened Options
  import opened TrieCanon
  import opened TrieShape

  /** Length of the longest common prefix. */
  function CommonBits(a: seq<Bit>, b: seq<Bit>): (n: nat)
    ensures n <= |a| && n <= |b| && a[..n] == b[..n]
    ensures n < |a| && n < |b| ==> a[n] != b[n]
  {
    if |a| == 0 || |b| == 0 || a[0] != b[0] then 0
    else
      var n := CommonBits(a[1..], b[1..]);
      assert a[..n + 1] == [a[0]] + a[1..][..n] && b[..n + 1] == [b[0]] + b[1..][..n];
      n + 1
  }

  lemma {:induction false} CommonIs(a: seq<Bit>, b: seq<Bit>, r: nat)
    requires r <= |a| && r <= |b| && a[..r] == b[..r]
    requires r < |a| && r < |b| ==> a[r] != b[r]
    ensures CommonBits(a, b) == r
  {
    if r > 0 {
      assert a[0] == a[..r][0] && b[0] == b[..r][0];
      assert a[1..][..r - 1] == a[..r][1..] && b[1..][..r - 1] == b[..r][1..];
      CommonIs(a[1..], b[1..], r - 1);
    }
  }

  /** Common bits of prefixes: those of the addresses, cut off at the shorter prefix. */
  lemma CommonOfPrefixes(a: seq<Bit>, b: seq<Bit>, m: nat, n: nat)
    requires |a| == |b| && m <= |a| && n <= |b|
    ensures var c := CommonBits(a, b);
            CommonBits(a[..m], b[..n]) == if c <= m && c <= n then c else if m <= n then m else n
  {
    var c := CommonBits(a, b);
    var r := if c <= m && c <= n then c else if m <= n then m else n;
    assert a[..m][..r] == a[..c][..r] && b[..n][..r] == b[..c][..r];
    CommonIs(a[..m], b[..n], r);
  }

  lemma PrefixByCommon(a: seq<Bit>, b: seq<Bit>)
    ensures CommonBits(a, b) == CommonBits(b, a)
    ensures CommonBits(a, b) == |a| <==> |a| <= |b| && b[..|a|] == a
  {
    CommonIs(b, a, CommonBits(a, b));
    assert a[..|a|] == a;
    if |a| <= |b| && b[..|a|] == a { CommonIs(a, b, |a|); }
  }

  /** Where the walk towards `k` ends without finding `k`. */
  ghost predicate Placed<P>(s: Shape<P>, l: Link, k: Key) {
    && HasLink(s, l) && Extends(l, k) && |k.bits| <= Width(k.v6)
    && (At(s, l).None? || !Covers(At(s, l).value, k))
  }

  lemma PlacedIsFresh<P>(s: Shape<P>, l: Link, k: Key)
    requires Linked(s) && Placed(s, l, k)
    ensures k !in s.nodes
  {
    if k in s.nodes { Follow(s, l, k); }
  }

  /** The branching prefix of two prefixes that part. */
  function Fork(d: Key, k: Key): Key {
    Key(k.v6, k.bits[..CommonBits(d.bits, k.bits)])
  }

  lemma ForkSeparates<P>(s: Shape<P>, l: Link, k: Key)
    requires Linked(s) && Placed(s, l, k) && At(s, l).Some? && !Covers(k, At(s, l).value)
    ensures var d := At(s, l).value; var g := Fork(d, k);
            && d in s.nodes && CanPut(s, l, g)
            && |g.bits| < |d.bits| && |g.bits| < |k.bits|
            && Extends(LinkTo(g, k), k) && LinkTo(g, k) != LinkTo(g, d)
  {
    assert SoundAt(s, l);
    var d := At(s, l).value;
    var g := Fork(d, k);
    var n := CommonBits(d.bits, k.bits);
    assert n < |d.bits| && n < |k.bits|;
    assert Covers(g, d) && Covers(g, k);
    if l.Below? {
      Comparable(l.key, l.key, k);
      Comparable(l.key, g, k);
    }
    ExtendsBack(l, g, k);
    if g in s.nodes { Follow(s, l, g); }
  }

  function SetPeer<P>(s: Shape<P>, k: Key, peer: Option<P>): Shape<P>
    requires k in s.nodes
  {
    s.(nodes := s.nodes[k := s.nodes[k].(peer := peer)])
  }

  lemma SetPeerLinked<P>(s: Shape<P>, k: Key, peer: Option<P>)
    requires k in s.nodes && Linked(s)
    ensures Linked(SetPeer(s, k, peer))
    ensures Entries(SetPeer(s, k, peer)) == if peer.Some? then Entries(s)[k := peer.value] else Entries(s) - {k}
  {
    var s' := SetPeer(s, k, peer);
    forall l: Link ensures SoundAt(s', l) && (HasLink(s', l) <==> HasLink(s, l))
                                                                  && (HasLink(s, l) ==> At(s', l) == At(s, l)) {
      assert SoundAt(s, l);
    }
    forall n ensures SoundNode(s', n) { assert SoundNode(s, n); }
    forall l: Link, n ensures CompleteAt(s', l, n) { assert CompleteAt(s, l, n); }
  }

  /** Insert at the place the walk found. */
  function Insert<P>(s: Shape<P>, l: Link, k: Key, peer: P): Shape<P>
    requires HasLink(s, l)
    requires At(s, l).Some? && !Covers(k, At(s, l).value) ==>
      |Fork(At(s, l).value, k).bits| < |At(s, l).value.bits| && |Fork(At(s, l).value, k).bits| < |k.bits|
    requires At(s, l).Some? && Covers(k, At(s, l).value) ==> |k.bits| < |At(s, l).value.bits|
  {
    if At(s, l).None? || Covers(k, At(s, l).value) then Put(s, l, k, Some(peer))
    else
      var g := Fork(At(s, l).value, k);
      var s1 := Put(s, l, g, None);
      if At(s1, LinkTo(g, k)).Some? then s1 else Put(s1, LinkTo(g, k), k, Some(peer))
  }

  lemma InsertNode<P>(s: Shape<P>, l: Link, k: Key, peer: P)
    requires Canonical(s) && Placed(s, l, k) && (At(s, l).None? || Covers(k, At(s, l).value))
    ensures CanPut(s, l, k) && (At(s, l).Some? ==> |k.bits| < |At(s, l).value.bits|)
    ensures Canonical(Insert(s, l, k, peer)) && Entries(Insert(s, l, k, peer)) == Entries(s)[k := peer]
  {
    assert SoundAt(s, l);
    PlacedIsFresh(s, l, k);
    PutLinked(s, l, k, Some(peer));
  }

  lemma InsertFork<P>(s: Shape<P>, l: Link, k: Key, peer: P)
    requires Canonical(s) && Placed(s, l, k) && At(s, l).Some? && !Covers(k, At(s, l).value)
    ensures var d := At(s, l).value; var g := Fork(d, k);
            && |g.bits| < |d.bits| && |g.bits| < |k.bits|
            && CanPut(s, l, g) && Linked(Put(s, l, g, None))
            && CanPut(Put(s, l, g, None), LinkTo(g, k), k) && At(Put(s, l, g, None), LinkTo(g, k)).None?
            && Insert(s, l, k, peer) == Put(Put(s, l, g, None), LinkTo(g, k), k, Some(peer))
    ensures Canonical(Insert(s, l, k, peer)) && Entries(Insert(s, l, k, peer)) == Entries(s)[k := peer]
  {
    ForkSeparates(s, l, k);
    PlacedIsFresh(s, l, k);
    var d := At(s, l).value;
    var g := Fork(d, k);
    PutLinked(s, l, g, None);
    var s1 := Put(s, l, g, None);
    PutAt(s, l, g, None, LinkTo(g, k));
    PutLinked(s1, LinkTo(g, k), k, Some(peer));
    ForkCompressed(s, l, g, k, peer);
  }

  /** The branching node gets both its children. */
  lemma ForkCompressed<P>(s: Shape<P>, l: Link, g: Key, k: Key, peer: P)
    requires Compressed(s) && CanPut(s, l, g) && At(s, l).Some? && |g.bits| < |At(s, l).value.bits|
    requires |g.bits| < |k.bits| && k !in s.nodes && k != g && LinkTo(g, k) != LinkTo(g, At(s, l).value)
    requires At(Put(s, l, g, None), LinkTo(g, k)).None?
    ensures Compressed(Put(Put(s, l, g, None), LinkTo(g, k), k, Some(peer)))
  {
    var d := At(s, l).value;
    var s2 := Put(Put(s, l, g, None), LinkTo(g, k), k, Some(peer));
    assert s2.nodes[g].child[d.bits[|g.bits|]] == Some(d);
    assert s2.nodes[g].child[k.bits[|g.bits|]] == Some(k);
  }

  // ---------- remove ----------

  function HasBoth<P>(v: View<P>): bool {
    v.child[0].Some? && v.child[1].Some?
  }

  /** A peerless parent that keeps one child only goes as well. */
  predicate ParentGoes<P>(s: Shape<P>, k: Key)
    requires k in s.nodes
  {
    && OnlyChild(s.nodes[k]).None? && s.nodes[k].parent.Below?
    && s.nodes[k].parent.key in s.nodes && s.nodes[s.nodes[k].parent.key].peer.None?
  }

  /** The shape after remove, and that each splice it makes is possible. */
  lemma RemoveSteps<P>(s: Shape<P>, k: Key)
    requires Canonical(s) && k in s.nodes && !HasBoth(s.nodes[k])
    ensures CanSplice(s, k)
    ensures ParentGoes(s, k) ==> s.nodes[k].parent.key != k && CanSplice(Splice(s, k), s.nodes[k].parent.key)
  {
    assert SoundNode(s, k) && SoundAt(s, Below(k, 0)) && SoundAt(s, Below(k, 1));
    if ParentGoes(s, k) {
      var p := s.nodes[k].parent;
      assert SoundAt(s, p) && SoundNode(s, p.key);
      SpliceLinked(s, k);
      var t := Splice(s, k);
      assert SoundNode(t, p.key) && SoundAt(t, Below(p.key, 0)) && SoundAt(t, Below(p.key, 1));
      assert t.nodes[p.key].child[p.bit].None?;
    }
  }

  ghost function Removed<P>(s: Shape<P>, k: Key): Shape<P>
    requires Canonical(s) && k in s.nodes
  {
    if HasBoth(s.nodes[k]) then SetPeer(s, k, None)
    else
      RemoveSteps(s, k);
      if ParentGoes(s, k) then Splice(Splice(s, k), s.nodes[k].parent.key) else Splice(s, k)
  }

  /** Taking the peer off first changes nothing that a splice looks at. */
  lemma DetachFirst<P>(s: Shape<P>, k: Key)
    requires Canonical(s) && k in s.nodes && !HasBoth(s.nodes[k])
    ensures var t := SetPeer(s, k, None);
            && CanSplice(s, k) && CanSplice(t, k) && Splice(t, k) == Splice(s, k)
            && OnlyChild(t.nodes[k]) == OnlyChild(s.nodes[k]) && t.nodes[k].parent == s.nodes[k].parent
  {
    RemoveSteps(s, k);
    assert SoundNode(s, k);
    var t := SetPeer(s, k, None);
    assert Splice(t, k).nodes == Splice(s, k).nodes;
  }

  lemma RemoveIsMapRemove<P>(s: Shape<P>, k: Key)
    requires Canonical(s) && k in s.nodes && s.nodes[k].peer.Some?
    ensures Canonical(Removed(s, k)) && Entries(Removed(s, k)) == Entries(s) - {k}
  {
    if HasBoth(s.nodes[k]) {
      SetPeerLinked(s, k, None);
    } else {
      RemoveSteps(s, k);
      SpliceLinked(s, k);
      if ParentGoes(s, k) {
        var p := s.nodes[k].parent.key;
        SpliceLinked(Splice(s, k), p);
        assert p !in Entries(s);
        RemoveBothCompressed(s, k);
      } else {
        RemoveOneCompressed(s, k);
      }
    }
  }

  lemma RemoveOneCompressed<P>(s: Shape<P>, k: Key)
    requires Canonical(s) && CanSplice(s, k) && !ParentGoes(s, k)
    ensures Compressed(Splice(s, k))
  {
    assert SoundNode(s, k);
  }

  lemma RemoveBothCompressed<P>(s: Shape<P>, k: Key)
    requires Canonical(s) && CanSplice(s, k) && ParentGoes(s, k) && s.nodes[k].parent.key != k
    requires CanSplice(Splice(s, k), s.nodes[k].parent.key)
    ensures Compressed(Splice(Splice(s, k), s.nodes[k].parent.key))
  {
    var l := s.nodes[k].parent;
    var p := l.key;
    var t := Splice(s, k);
    assert SoundNode(s, k) && SoundNode(s, p);
    assert HasBoth(s.nodes[p]);
    assert t.nodes[p].parent == s.nodes[p].parent;
    assert OnlyChild(t.nodes[p]).Some?;
  }

  /** Removing a freshly inserted prefix gives back the very same nodes and links. */
  lemma InsertThenRemove<P>(s: Shape<P>, l: Link, k: Key, peer: P)
    requires Canonical(s) && Placed(s, l, k)
    ensures var t := Inserted(s, l, k, peer); Canonical(t) && k in t.nodes && Removed(t, k) == s
  {
    InsertedIsMapUpdate(s, l, k, peer);
    var t := Inserted(s, l, k, peer);
    assert k in Entries(t);
    RemoveIsMapRemove(t, k);
    PlacedIsFresh(s, l, k);
    assert Entries(s)[k := peer] - {k} == Entries(s);
    ShapeIsUnique(Removed(t, k), s);
  }

  ghost function Inserted<P>(s: Shape<P>, l: Link, k: Key, peer: P): Shape<P>
    requires Canonical(s) && Placed(s, l, k)
  {
    if At(s, l).None? || Covers(k, At(s, l).value) then InsertNode(s, l, k, peer); Insert(s, l, k, peer)
    else InsertFork(s, l, k, peer); Insert(s, l, k, peer)
  }

  lemma InsertedIsMapUpdate<P>(s: Shape<P>, l: Link, k: Key, peer: P)
    requires Canonical(s) && Placed(s, l, k)
    ensures Canonical(Inserted(s, l, k, peer)) && Entries(Inserted(s, l, k, peer)) == Entries(s)[k := peer]
  {
    if At(s, l).None? || Covers(k, At(s, l).value) { InsertNode(s, l, k, peer); } else { InsertFork(s, l, k, peer); }
  }
}
