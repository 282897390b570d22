/**
 * The state of an evaluation read as a plan: which steps of tun/offload_linux.go make which
 * moves of the reference.
 */
module GroPlans {
  import opened Bytes
  import opened GroItems
  import opened GroState
  import opened GroSteps
  import opened GroVerdicts
  import opened Headers
  import opened Options
  import R = GroReference
  import Wire

  function PlanOf(v: View): R.Plan {
    R.Plan(v.members, v.members.Keys - v.done)
  }

  // ---------- rooms ----------

  predicate RoomsWithin(bufs: seq<Buf>, offset: nat) {
    forall i :: 0 <= i < |bufs| ==> bufs[i].room <= MAX_UINT16 + offset
  }

  /** A packet not looked at lies in its own buffer, an open group in that of its first member. */
  predicate RoomOk(v: View, rooms: seq<int>, offset: nat, w: nat) {
    w < |v.bufs| == |rooms| ==>
      && (w >= |v.owner| ==> v.bufs[w].room - offset == rooms[w])
      && (w in v.members && w !in v.done ==>
            && v.members[w] != [] && v.members[w][0] < |rooms|
            && v.bufs[w].room - offset == rooms[v.members[w][0]])
  }

  ghost predicate RoomsOk(v: View, rooms: seq<int>, offset: nat) {
    |rooms| == |v.bufs| && RoomsWithin(v.bufs, offset) && forall w: nat :: RoomOk(v, rooms, offset, w)
  }

  /** The batch as it came. */
  ghost predicate Arrived(v: View, b: R.Arrivals, canUdp: bool) {
    b.pkts == v.orig && |b.rooms| == |b.pkts| && b.udp == canUdp
  }

  // ---------- candidates are the items of the flow ----------

  ghost predicate Ready(v: View, canUdp: bool, info: Info, b: R.Arrivals) {
    Next(v, canUdp, info) && Arrived(v, b, canUdp)
  }

  lemma HeldIsCandidate(v: View, canUdp: bool, info: Info, b: R.Arrivals, j: nat)
    requires Ready(v, canUdp, info, b) && info.key in v.flows && j < |v.flows[info.key]|
    ensures R.Candidate(b, PlanOf(v), |v.owner|, v.flows[info.key][j].bufsIndex) && v.flows[info.key][j].key == info.key
  {
    Held(v, canUdp, info.key, j);
    NextParses(v, canUdp, info);
    var it := v.flows[info.key][j];
    var w := it.bufsIndex;
    var parts, x := Parts(v.orig, v.members[w]), v.orig[|v.owner|];
    MergedIsGroup(it, v.bufs[w].pkt, parts);
    assert PartOk(it, parts, 0);
    OfOneFlow(parts[0], x);
    Wire.ParsesIff(x, canUdp);
    assert v.members[w][0] in v.members[w];
  }

  lemma KeysFollow(x: seq<Byte>, y: seq<Byte>)
    requires R.OneFlow(x, y)
    ensures Parse(x, true).Some? && Parse(y, true).Some? && Parse(x, true).value.key == Parse(y, true).value.key
  {
    Wire.KeysIff(x, y, true);
  }

  /** The item that tracks an open group. */
  lemma OpenIsTracked(v: View, canUdp: bool, w: nat) returns (k: FlowKey, a: nat)
    requires Inv(v) && Real(v, canUdp) && w in v.members && w !in v.done
    ensures k in v.flows && a < |v.flows[k]| && v.flows[k][a].bufsIndex == w < |v.bufs|
    ensures Merged(v.flows[k][a], v.bufs[w].pkt, Parts(v.orig, v.members[w])) && v.flows[k][a].key == k
  {
    assert TrackOk(v, w);
    k := v.infos[w].value.key;
    a :| 0 <= a < |v.flows[k]| && v.flows[k][a].bufsIndex == w;
    Held(v, canUdp, k, a);
  }

  lemma PartKey(it: Item, pkt: seq<Byte>, parts: seq<seq<Byte>>)
    requires Merged(it, pkt, parts)
    ensures parts != [] && Parse(parts[0], true).Some? && Parse(parts[0], true).value.key == it.key
  {
    assert PartOk(it, parts, 0);
  }

  lemma CandidateFlows(b: R.Arrivals, p: R.Plan, i: nat, w: nat)
    requires i < |b.pkts| && R.Candidate(b, p, i, w)
    ensures w in p.open && w in p.members && Parts(b.pkts, p.members[w]) != []
    ensures R.OneFlow(Parts(b.pkts, p.members[w])[0], b.pkts[i])
  {
    var parts := Parts(b.pkts, p.members[w]);
    assert R.OneFlow(parts[0], parts[0]);
  }

  lemma CandidateIsHeld(v: View, canUdp: bool, info: Info, b: R.Arrivals, w: nat)
    requires Ready(v, canUdp, info, b) && R.Candidate(b, PlanOf(v), |v.owner|, w)
    ensures info.key in v.flows && Tracked(v.flows[info.key], w)
  {
    CandidateFlows(b, PlanOf(v), |v.owner|, w);
    var k, a := OpenIsTracked(v, canUdp, w);
    NextParses(v, canUdp, info);
    var parts := Parts(v.orig, v.members[w]);
    PartKey(v.flows[k][a], v.bufs[w].pkt, parts);
    KeysFollow(parts[0], v.orig[|v.owner|]);
  }

  /** Just the items before `j` lie before `c`. */
  predicate Parted(items: seq<Item>, j: nat, c: nat) {
    && j <= |items| && (forall a :: 0 <= a < j ==> items[a].bufsIndex < c)
    && (forall a :: j <= a < |items| ==> items[a].bufsIndex >= c)
  }

  /** Where the item before `j` ends, seen from above. */
  function EndOf(items: seq<Item>, j: nat): nat
    requires j <= |items|
  {
    if j == 0 then 0 else items[j - 1].bufsIndex + 1
  }

  /** Between two items of the flow there is no candidate. */
  lemma NoneBetween(v: View, canUdp: bool, info: Info, b: R.Arrivals, j: nat, c: nat)
    requires Ready(v, canUdp, info, b) && info.key in v.flows && Parted(v.flows[info.key], j, c)
    ensures EndOf(v.flows[info.key], j) <= c
    ensures R.Between(b, PlanOf(v), |v.owner|, EndOf(v.flows[info.key], j), c)
  {
    var items, lo := v.flows[info.key], EndOf(v.flows[info.key], j);
    forall a | 0 <= a < j ensures items[a].bufsIndex < lo { assert SortedOk(v, info.key, a, j - 1); }
    forall w: nat | lo <= w < c ensures !R.Candidate(b, PlanOf(v), |v.owner|, w) {
      if R.Candidate(b, PlanOf(v), |v.owner|, w) { CandidateIsHeld(v, canUdp, info, b, w); }
    }
  }

  /** Going down from `c` is going down from `lo`. */
  ghost predicate Passes(b: R.Arrivals, p: R.Plan, i: nat, c: nat, lo: nat) {
    && i < |b.pkts| == |b.rooms|
    && R.Settle(b, p, i, c) == R.Settle(b, p, i, lo) && R.Follow(b, p, i, c) == R.Follow(b, p, i, lo)
  }

  /** So going down from `c` reaches the item before `j` next. */
  lemma PassesTo(v: View, canUdp: bool, info: Info, b: R.Arrivals, j: nat, c: nat, p: R.Plan, i: nat, lo: nat)
    requires Ready(v, canUdp, info, b) && info.key in v.flows && Parted(v.flows[info.key], j, c)
    requires p == PlanOf(v) && i == |v.owner| && lo == EndOf(v.flows[info.key], j)
    ensures Passes(b, p, i, c, lo)
  {
    NoneBetween(v, canUdp, info, b, j, c);
    R.SettlePasses(b, p, i, lo, c);
    R.FollowPasses(b, p, i, lo, c);
  }

  /** All items of the flow lie before the packet. */
  lemma AllBefore(v: View, canUdp: bool, info: Info)
    requires Next(v, canUdp, info) && info.key in v.flows
    ensures Parted(v.flows[info.key], |v.flows[info.key]|, |v.owner|)
  {
    forall a | 0 <= a < |v.flows[info.key]| ensures v.flows[info.key][a].bufsIndex < |v.owner| {
      Held(v, canUdp, info.key, a);
    }
  }

  lemma NoFlowNoCandidate(v: View, canUdp: bool, info: Info, b: R.Arrivals, c: nat)
    requires Ready(v, canUdp, info, b) && info.key !in v.flows
    ensures R.Between(b, PlanOf(v), |v.owner|, 0, c)
  {
    forall w: nat | w < c ensures !R.Candidate(b, PlanOf(v), |v.owner|, w) {
      if R.Candidate(b, PlanOf(v), |v.owner|, w) { CandidateIsHeld(v, canUdp, info, b, w); }
    }
  }

  // ---------- verdicts ----------

  /** The code's test of the packet against item `it`, and how the attempt ended if it passed. */
  ghost predicate Answered(v: View, r: CoalesceResult, mode: Mode, offset: nat, info: Info, it: Item) {
    && |v.owner| < |v.bufs| && it.bufsIndex < |v.bufs|
    && var x, target := v.bufs[|v.owner|], v.bufs[it.bufsIndex];
       && Comparable(it, target.pkt, info) && info.headersLen <= |x.pkt|
       && mode == ModeOf(x.pkt, info, it, target.pkt)
       && r == if mode == Unavailable then InsufficientCap else ResultOf(mode, info, it, x, target, offset)
  }

  /** The reference's verdict on group `w`. */
  ghost predicate Ruled(b: R.Arrivals, p: R.Plan, i: nat, w: nat, verdict: R.Verdict) {
    i < |b.pkts| == |b.rooms| && R.Candidate(b, p, i, w) && R.VerdictOn(b, p, i, w) == verdict
  }

  /** Packet, item and rooms, as the reference has them. */
  lemma RoomsAre(v: View, canUdp: bool, info: Info, b: R.Arrivals, j: nat, offset: nat)
    requires Ready(v, canUdp, info, b) && RoomsOk(v, b.rooms, offset)
    requires info.key in v.flows && j < |v.flows[info.key]|
    ensures var w, i := v.flows[info.key][j].bufsIndex, |v.owner|;
            && w < |v.bufs| && w in v.members && v.members[w] != [] && v.members[w][0] < |b.rooms|
            && v.bufs[w].room - offset == b.rooms[v.members[w][0]] && v.bufs[i].room - offset == b.rooms[i]
            && v.bufs[i].pkt == b.pkts[i] && Parse(b.pkts[i], true) == Some(info)
            && Merged(v.flows[info.key][j], v.bufs[w].pkt, Parts(b.pkts, v.members[w]))
  {
    var w, i := v.flows[info.key][j].bufsIndex, |v.owner|;
    Held(v, canUdp, info.key, j);
    NextParses(v, canUdp, info);
    assert RoomOk(v, b.rooms, offset, w) && RoomOk(v, b.rooms, offset, i) && GroupOk(v, i);
  }

  lemma RuledAs(v: View, info: Info, b: R.Arrivals, offset: nat, r: CoalesceResult, mode: Mode, it: Item, p: R.Plan)
    requires Answered(v, r, mode, offset, info, it) && p == PlanOf(v) && |v.owner| < |b.pkts| == |b.rooms|
    requires R.Candidate(b, p, |v.owner|, it.bufsIndex)
    requires var w, i := it.bufsIndex, |v.owner|;
             && v.bufs[w].room - offset == b.rooms[p.members[w][0]] && v.bufs[i].room - offset == b.rooms[i]
             && v.bufs[i].pkt == b.pkts[i] && Parse(b.pkts[i], true) == Some(info) && it.key == info.key
             && Merged(it, v.bufs[w].pkt, Parts(b.pkts, p.members[w]))
    ensures Ruled(b, p, |v.owner|, it.bufsIndex, VerdictOf(mode, r))
  {
    ResultIsVerdict(it, Parts(b.pkts, p.members[it.bufsIndex]), v.bufs[|v.owner|], v.bufs[it.bufsIndex], info, offset);
  }

  lemma HeldIsRuled(v: View, canUdp: bool, info: Info, b: R.Arrivals, j: nat, offset: nat, r: CoalesceResult,
        mode: Mode, it: Item)
    requires Ready(v, canUdp, info, b) && RoomsOk(v, b.rooms, offset) && Answered(v, r, mode, offset, info, it)
    requires info.key in v.flows && j < |v.flows[info.key]| && it == v.flows[info.key][j] && it.key == info.key
    requires R.Candidate(b, PlanOf(v), |v.owner|, it.bufsIndex)
    ensures Ruled(b, PlanOf(v), |v.owner|, it.bufsIndex, VerdictOf(mode, r))
  {
    RoomsAre(v, canUdp, info, b, j, offset);
    RuledAs(v, info, b, offset, r, mode, it, PlanOf(v));
  }

  lemma AnswerIsVerdict(v: View, canUdp: bool, info: Info, b: R.Arrivals, j: nat, offset: nat, r: CoalesceResult,
        mode: Mode, it: Item)
    requires Ready(v, canUdp, info, b) && RoomsOk(v, b.rooms, offset) && Answered(v, r, mode, offset, info, it)
    requires info.key in v.flows && j < |v.flows[info.key]| && it == v.flows[info.key][j]
    ensures Ruled(b, PlanOf(v), |v.owner|, it.bufsIndex, VerdictOf(mode, r))
  {
    HeldIsCandidate(v, canUdp, info, b, j);
    HeldIsRuled(v, canUdp, info, b, j, offset, r, mode, it);
  }

  // ---------- steps are moves ----------

  lemma SkipMoves(v: View, rooms: seq<int>, offset: nat)
    requires Inv(v) && |v.owner| < |v.bufs| && RoomsOk(v, rooms, offset)
    ensures PlanOf(Skip(v)) == R.Alone(PlanOf(v), |v.owner|) && RoomsOk(Skip(v), rooms, offset)
  {
    var t := Skip(v);
    assert GroupOk(v, |v.owner|);
    assert t.members.Keys - t.done == v.members.Keys - v.done;
    forall w: nat ensures RoomOk(t, rooms, offset, w) { assert RoomOk(v, rooms, offset, w); }
  }

  lemma EnterMoves(v: View, it: Item, rooms: seq<int>, offset: nat)
    requires Inv(v) && |v.owner| < |v.bufs| && RoomsOk(v, rooms, offset)
    ensures PlanOf(Enter(v, it)) == R.Started(PlanOf(v), |v.owner|) && RoomsOk(Enter(v, it), rooms, offset)
  {
    var t, i := Enter(v, it), |v.owner|;
    assert GroupOk(v, i) && DoneOk(v, i);
    assert t.members.Keys - t.done == (v.members.Keys - v.done) + {i};
    forall w: nat ensures RoomOk(t, rooms, offset, w) { assert RoomOk(v, rooms, offset, w); }
  }

  lemma DropMoves(v: View, k: FlowKey, a: nat, rooms: seq<int>, offset: nat)
    requires k in v.flows && a < |v.flows[k]| && v.flows[k][a].bufsIndex < |v.bufs| && RoomsOk(v, rooms, offset)
    ensures PlanOf(Drop(v, k, a)) == PlanOf(v).(open := PlanOf(v).open - {v.flows[k][a].bufsIndex})
        && RoomsOk(Drop(v, k, a), rooms, offset)
  {
    var t, w := Drop(v, k, a), v.flows[k][a].bufsIndex;
    assert t.members.Keys - t.done == (v.members.Keys - v.done) - {w};
    forall x: nat ensures RoomOk(t, rooms, offset, x) { assert RoomOk(v, rooms, offset, x); }
  }

  lemma JoinMoves(v: View, k: FlowKey, a: nat, it: Item, buf: Buf, other: Buf, front: bool, rooms: seq<int>,
        offset: nat)
    requires Inv(v) && k in v.flows && a < |v.flows[k]| && it.bufsIndex in v.members && it.bufsIndex !in v.done
        && it.bufsIndex < |v.bufs| && |v.owner| < |v.bufs| && RoomsOk(v, rooms, offset)
    requires buf.room == (if front then v.bufs[|v.owner|] else v.bufs[it.bufsIndex]).room
        && other.room <= MAX_UINT16 + offset
    ensures PlanOf(Join(v, k, a, it, buf, other, front)) == R.Merge(PlanOf(v), |v.owner|, it.bufsIndex, front)
    ensures RoomsOk(Join(v, k, a, it, buf, other, front), rooms, offset)
  {
    var t, w, i := Join(v, k, a, it, buf, other, front), it.bufsIndex, |v.owner|;
    assert GroupOk(v, i) && GroupOk(v, w);
    assert t.members.Keys == v.members.Keys;
    assert RoomOk(v, rooms, offset, w) && RoomOk(v, rooms, offset, i);
    forall x: nat ensures RoomOk(t, rooms, offset, x) { assert RoomOk(v, rooms, offset, x); }
  }
}
