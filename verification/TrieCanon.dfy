/**
 * What the trie's shape is good for: it holds as few nodes as it can, it is fixed by the
 * stored prefixes alone, and a walk finds the longest stored prefix.
 */
module TrieCanon {
  import opened Options
  import opened TrieShape

  // ---------- the shape depends only on the stored map ----------

  /** Below every node there is a stored prefix. */
  lemma {:induction false} EntryBelow<P>(s: Shape<P>, k: Key) returns (e: Key)
    requires Canonical(s) && k in s.nodes
    ensures e in Entries(s) && Covers(k, e)
    decreases Width(k.v6) - |k.bits|
  {
    assert SoundNode(s, k);
    if s.nodes[k].peer.Some? {
      e := k;
    } else {
      assert SoundAt(s, Below(k, 0));
      var c := s.nodes[k].child[0].value;
      assert SoundNode(s, c);
      e := EntryBelow(s, c);
      CoversTrans(k, c, e);
    }
  }

  /** A node without a peer separates two stored prefixes. */
  lemma ForkOf<P>(s: Shape<P>, k: Key, b: Bit) returns (e: Key)
    requires Canonical(s) && k in s.nodes && s.nodes[k].peer.None?
    ensures e in Entries(s) && Extends(Below(k, b), e)
  {
    assert SoundAt(s, Below(k, b));
    assert b == 0 || b == 1;
    var c := s.nodes[k].child[b].value;
    e := EntryBelow(s, c);
    ExtendsTrans(Below(k, b), c, e);
  }

  /** Where two nodes part, there is a node. */
  lemma {:induction false} ForkIsNode<P>(s: Shape<P>, l: Link, k: Key, e0: Key, e1: Key)
    requires Linked(s) && HasLink(s, l) && Extends(l, k)
    requires e0 in s.nodes && Extends(Below(k, 0), e0)
    requires e1 in s.nodes && Extends(Below(k, 1), e1)
    ensures k in s.nodes
    decreases |k.bits| - if l.Below? then |l.key.bits| + 1 else 0
  {
    ExtendsTrans(l, k, e0);
    ExtendsTrans(l, k, e1);
    Follow(s, l, e0);
    Follow(s, l, e1);
    var c := At(s, l).value;
    assert SoundAt(s, l);
    ShortOfFork(c, k, e0, e1);
    if c != k {
      Comparable(c, k, k);
      ForkIsNode(s, LinkTo(c, k), k, e0, e1);
    }
  }

  lemma ShortOfFork(c: Key, k: Key, e0: Key, e1: Key)
    requires Extends(Below(k, 0), e0) && Extends(Below(k, 1), e1)
    requires Covers(c, e0) && Covers(c, e1)
    ensures Covers(c, k)
  {
    if |c.bits| <= |k.bits| {
      Comparable(c, k, e0);
    } else {
      CoversTrans(k, c, e0) by { Comparable(k, c, e0); }
      CoversTrans(k, c, e1) by { Comparable(k, c, e1); }
    }
  }

  lemma SameNodes<P>(s: Shape<P>, t: Shape<P>, k: Key)
    requires Canonical(s) && Canonical(t) && Entries(s) == Entries(t)
    requires k in s.nodes
    ensures k in t.nodes && s.nodes[k].peer == t.nodes[k].peer
  {
    if s.nodes[k].peer.Some? {
      assert k in Entries(s);
      assert k in Entries(t);
    } else {
      var e0 := ForkOf(s, k, 0);
      var e1 := ForkOf(s, k, 1);
      assert e0 in Entries(t) && e1 in Entries(t);
      ForkIsNode(t, Root(k.v6), k, e0, e1);
      assert k !in Entries(s);
      assert k !in Entries(t);
    }
  }

  lemma SameLink<P>(s: Shape<P>, t: Shape<P>, l: Link)
    requires Canonical(s) && Canonical(t) && Entries(s) == Entries(t)
    requires HasLink(s, l) && HasLink(t, l) && At(s, l).Some?
    ensures At(t, l) == At(s, l)
  {
    assert SoundAt(s, l) && SoundAt(t, l);
    var c := At(s, l).value;
    SameNodes(s, t, c);
    Follow(t, l, c);
    var d := At(t, l).value;
    SameNodes(t, s, d);
    Follow(s, l, d);
    Comparable(c, d, c);
  }

  lemma SameView<P>(s: Shape<P>, t: Shape<P>, k: Key)
    requires Canonical(s) && Canonical(t) && Entries(s) == Entries(t)
    requires k in s.nodes
    ensures k in t.nodes && s.nodes[k] == t.nodes[k]
  {
    SameNodes(s, t, k);
    forall b: Bit ensures s.nodes[k].child[b] == t.nodes[k].child[b] {
      var l := Below(k, b);
      if At(s, l).Some? { SameLink(s, t, l); } else if At(t, l).Some? { SameLink(t, s, l); }
    }
    assert s.nodes[k].child == t.nodes[k].child;
    var p := s.nodes[k].parent;
    assert SoundNode(s, k);
    if p.Below? { SameNodes(s, t, p.key); }
    SameLink(s, t, p);
    assert SoundAt(t, p);
  }

  /** Two tries that store the same prefixes have the same nodes, links and parents. */
  lemma ShapeIsUnique<P>(s: Shape<P>, t: Shape<P>)
    requires Canonical(s) && Canonical(t) && Entries(s) == Entries(t)
    ensures s == t
  {
    forall k | k in s.nodes ensures k in t.nodes && s.nodes[k] == t.nodes[k] { SameView(s, t, k); }
    forall k | k in t.nodes ensures k in s.nodes { SameNodes(t, s, k); }
    assert s.nodes == t.nodes;
    forall v6: bool ensures At(s, Root(v6)) == At(t, Root(v6)) {
      var l := Root(v6);
      if At(s, l).Some? { SameLink(s, t, l); } else if At(t, l).Some? { SameLink(t, s, l); }
    }
    forall v6: bool ensures v6 in s.roots <==> v6 in t.roots {
      assert At(s, Root(v6)) == At(t, Root(v6));
    }
    forall v6: bool | v6 in s.roots ensures s.roots[v6] == t.roots[v6] {
      assert At(s, Root(v6)) == At(t, Root(v6));
    }
    assert s.roots == t.roots;
  }

  // ---------- n prefixes need at most 2n - 1 nodes ----------

  function NodesUnder<P>(s: Shape<P>, l: Link): set<Key> {
    set n | n in s.nodes && Extends(l, n)
  }

  function StoredUnder<P>(s: Shape<P>, l: Link): set<Key> {
    set n | n in Entries(s) && Extends(l, n)
  }

  /** What hangs under a link is its node and what hangs under that node's two children. */
  lemma NodeSplits<P>(s: Shape<P>, l: Link)
    requires Linked(s) && HasLink(s, l) && At(s, l).Some?
    ensures var c := At(s, l).value;
            && c in s.nodes
            && NodesUnder(s, l) == {c} + NodesUnder(s, Below(c, 0)) + NodesUnder(s, Below(c, 1))
            && StoredUnder(s, l) == (if s.nodes[c].peer.Some? then {c} else {})
                                    + StoredUnder(s, Below(c, 0)) + StoredUnder(s, Below(c, 1))
  {
    assert SoundAt(s, l);
    var c := At(s, l).value;
    forall n | n in s.nodes
      ensures Extends(l, n) <==> n == c || Extends(Below(c, 0), n) || Extends(Below(c, 1), n)
    {
      if Extends(l, n) {
        Follow(s, l, n);
        Comparable(c, n, n);
      } else if Covers(c, n) {
        ExtendsTrans(l, c, n);
      }
    }
  }

  /** Under a link in use, the nodes number less than twice the stored prefixes. */
  lemma {:induction false} FewNodesUnder<P>(s: Shape<P>, l: Link)
    requires Canonical(s) && HasLink(s, l)
    ensures At(s, l).None? ==> NodesUnder(s, l) == {} && StoredUnder(s, l) == {}
    ensures At(s, l).Some? ==> |NodesUnder(s, l)| < 2 * |StoredUnder(s, l)|
    decreases if l.Root? then 129 else Width(l.key.v6) - |l.key.bits|
  {
    if At(s, l).None? {
      forall n | n in s.nodes ensures !Extends(l, n) {
        if Extends(l, n) { Follow(s, l, n); }
      }
    } else {
      assert SoundAt(s, l);
      var c := At(s, l).value;
      assert SoundNode(s, c);
      NodeSplits(s, l);
      FewNodesUnder(s, Below(c, 0));
      FewNodesUnder(s, Below(c, 1));
      CountSplit(c, true, NodesUnder(s, Below(c, 0)), NodesUnder(s, Below(c, 1)));
      CountSplit(c, s.nodes[c].peer.Some?, StoredUnder(s, Below(c, 0)), StoredUnder(s, Below(c, 1)));
    }
  }

  lemma CountSplit(c: Key, own: bool, a: set<Key>, b: set<Key>)
    requires forall n :: n in a ==> Extends(Below(c, 0), n)
    requires forall n :: n in b ==> Extends(Below(c, 1), n)
    ensures |(if own then {c} else {}) + a + b| == (if own then 1 else 0) + |a| + |b|
  {
    assert a !! b && c !in a && c !in b;
    var o: set<Key> := if own then {c} else {};
    assert |o + a + b| == |o + a| + |b|;
    assert |o + a| == |o| + |a|;
  }

  /** The whole table: per address family in use, one node less than twice the prefixes. */
  lemma FewNodes<P>(s: Shape<P>)
    requires Canonical(s)
    ensures |s.nodes| + |s.roots| <= 2 * |Entries(s)|
  {
    FewNodesUnder(s, Root(false));
    FewNodesUnder(s, Root(true));
    CountFamilies(s);
    CountRoots(s.roots);
    assert forall v6: bool :: At(s, Root(v6)).Some? <==> v6 in s.roots;
  }

  lemma CountFamilies<P>(s: Shape<P>)
    ensures |s.nodes| == |NodesUnder(s, Root(false))| + |NodesUnder(s, Root(true))|
    ensures |Entries(s)| == |StoredUnder(s, Root(false))| + |StoredUnder(s, Root(true))|
  {
    assert s.nodes.Keys == NodesUnder(s, Root(false)) + NodesUnder(s, Root(true));
    assert Entries(s).Keys == StoredUnder(s, Root(false)) + StoredUnder(s, Root(true));
    ByFamily(NodesUnder(s, Root(false)), NodesUnder(s, Root(true)));
    ByFamily(StoredUnder(s, Root(false)), StoredUnder(s, Root(true)));
    assert |s.nodes.Keys| == |s.nodes| && |Entries(s).Keys| == |Entries(s)|;
  }

  lemma ByFamily(a: set<Key>, b: set<Key>)
    requires (forall k :: k in a ==> !k.v6) && (forall k :: k in b ==> k.v6)
    ensures |a + b| == |a| + |b|
  {
    assert a !! b;
  }

  lemma CountRoots(r: map<bool, Key>)
    ensures |r| == (if false in r then 1 else 0) + (if true in r then 1 else 0)
  {
    var f: set<bool> := if false in r then {false} else {};
    var t: set<bool> := if true in r then {true} else {};
    forall b ensures b in r <==> b in f + t {
      if b {} else {}
    }
    assert r.Keys == f + t;
    assert |r.Keys| == |f| + |t|;
  }

  // ---------- longest-prefix lookup ----------

  /** The answer that routing asks for: the peer of the longest stored prefix of `ip`. */
  ghost predicate IsLongestMatch<P>(entries: map<Key, P>, ip: Key, r: Option<P>) {
    match r
    case None => forall k :: k in entries ==> !Covers(k, ip)
    case Some(p) => exists k :: k in entries && BestFor(entries, ip, k) && entries[k] == p
  }

  ghost predicate BestFor<P>(entries: map<Key, P>, ip: Key, k: Key) {
    Covers(k, ip) && forall j :: j in entries && Covers(j, ip) ==> |j.bits| <= |k.bits|
  }

  lemma LongestMatchUnique<P>(entries: map<Key, P>, ip: Key, q: Option<P>, r: Option<P>)
    requires IsLongestMatch(entries, ip, q) && IsLongestMatch(entries, ip, r)
    ensures q == r
  {
    if q.Some? && r.Some? {
      var j :| j in entries && BestFor(entries, ip, j) && entries[j] == q.value;
      var k :| k in entries && BestFor(entries, ip, k) && entries[k] == r.value;
      Comparable(j, k, ip);
    }
  }

  /** The naive router of the tests: a list in order of falling length, first match wins. */
  type SlowRouter<P> = seq<(Key, P)>

  function SlowLookup<P>(r: SlowRouter<P>, ip: Key): Option<P> {
    if r == [] then None
    else if Covers(r[0].0, ip) then Some(r[0].1)
    else SlowLookup(r[1..], ip)
  }

  ghost predicate Sorted<P>(r: SlowRouter<P>) {
    forall i, j :: 0 <= i < j < |r| ==> |r[i].0.bits| >= |r[j].0.bits|
  }

  ghost predicate Lists<P>(r: SlowRouter<P>, entries: map<Key, P>) {
    && (forall i :: 0 <= i < |r| ==> r[i].0 in entries && entries[r[i].0] == r[i].1)
    && (forall k :: k in entries ==> exists i :: 0 <= i < |r| && r[i].0 == k)
  }

  lemma {:induction false} SlowFinds<P>(r: SlowRouter<P>, ip: Key) returns (i: nat)
    ensures i <= |r| && forall j :: 0 <= j < i ==> !Covers(r[j].0, ip)
    ensures SlowLookup(r, ip) == if i < |r| then Some(r[i].1) else None
    ensures i < |r| ==> Covers(r[i].0, ip)
  {
    if r == [] || Covers(r[0].0, ip) {
      i := 0;
    } else {
      i := SlowFinds(r[1..], ip);
      i := i + 1;
    }
  }

  /** The naive router gives the longest match, so the trie and it agree everywhere. */
  lemma SlowIsLongestMatch<P>(r: SlowRouter<P>, entries: map<Key, P>, ip: Key)
    requires Sorted(r) && Lists(r, entries)
    ensures IsLongestMatch(entries, ip, SlowLookup(r, ip))
  {
    var i := SlowFinds(r, ip);
    if i < |r| {
      assert BestFor(entries, ip, r[i].0);
    }
  }
}
