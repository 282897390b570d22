/**
 * What an attempt to merge a packet into an item (tun/offload_linux.go) does to the state of
 * the evaluation and to the plan it stands for.
 */
module GroTries {
  import opened GroItems
  import opened GroPlans
  import opened GroState
  import opened GroSteps
  import opened GroVerdicts
  import opened Headers
  import opened Options
  import R = GroReference
  import Wire

  /** The packet joined item `j`, the last of its flow. */
  ghost predicate UdpJoined(s: View, t: View, offset: nat, info: Info, item: Item, j: nat) {
    && info.key in s.flows && j < |s.flows[info.key]| && item == s.flows[info.key][j] && item.key == info.key
    && item.bufsIndex < |s.bufs| == |t.bufs| && item.bufsIndex in s.members && |s.owner| < |s.bufs|
    && t == Join(s, info.key, j, AppendItem(item, info.psh), t.bufs[item.bufsIndex], t.bufs[|s.owner|], false)
    && Appended(s.bufs, t.bufs, offset, |s.owner|, info, item, AppendItem(item, info.psh))
  }

  lemma UdpJoinedKeeps(s: View, t: View, canUdp: bool, offset: nat, info: Info, item: Item, j: nat, rooms: seq<int>)
    requires Next(s, canUdp, info) && info.key.UdpKey? && RoomsOk(s, rooms, offset)
        && UdpJoined(s, t, offset, info, item, j)
    requires j == |s.flows[info.key]| - 1
    requires info.headersLen <= |s.bufs[|s.owner|].pkt| && Comparable(item, s.bufs[item.bufsIndex].pkt, info)
    requires UdpPacketsCanCoalesce(s.bufs[|s.owner|].pkt, info, item, s.bufs[item.bufsIndex].pkt) == Append
    ensures Inv(t) && RoomsOk(t, rooms, offset) && t.toWrite == s.toWrite && |t.owner| == |s.owner| + 1
    ensures PlanOf(t) == R.Merge(PlanOf(s), |s.owner|, item.bufsIndex, false)
  {
    AppendJoins(s, canUdp, info, j, AppendItem(item, info.psh), t.bufs, offset);
    JoinKeeps(s, info.key, j, AppendItem(item, info.psh), t.bufs[item.bufsIndex], t.bufs[|s.owner|], false);
    Held(s, canUdp, info.key, j);
    JoinMoves(s, info.key, j, AppendItem(item, info.psh), t.bufs[item.bufsIndex], t.bufs[|s.owner|], false, rooms,
      offset);
  }

  /** What became of the state `s` when the next packet tried item `j` of its flow. */
  ghost predicate Tried(s: View, t: View, r: CoalesceResult, mode: Mode, offset: nat, info: Info, item: Item,
        item': Item, j: nat) {
    && info.key in s.flows && j < |s.flows[info.key]| && item == s.flows[info.key][j]
    && item'.key == info.key && item'.bufsIndex == item.bufsIndex < |s.bufs| == |t.bufs| && item.bufsIndex in s.members
        && |s.owner| < |s.bufs|
    && match r
       case Success =>
         && t == Join(s, info.key, j, item', t.bufs[item.bufsIndex], t.bufs[|s.owner|], mode == Prepend)
         && (if mode == Prepend then Prepended(s.bufs, t.bufs, offset, |s.owner|, info, item, item')
             else Appended(s.bufs, t.bufs, offset, |s.owner|, info, item, item'))
       case ItemInvalidCSum => item.numMerged == 0 && t == Drop(s, info.key, j)
       case _ => t == s
  }

  lemma Untried(s: View, r: CoalesceResult, mode: Mode, offset: nat, info: Info, item: Item, j: nat)
    requires info.key in s.flows && j < |s.flows[info.key]| && item == s.flows[info.key][j] && item.key == info.key
    requires item.bufsIndex < |s.bufs| && item.bufsIndex in s.members && |s.owner| < |s.bufs|
    requires r != Success && r != ItemInvalidCSum
    ensures Tried(s, s, r, mode, offset, info, item, item, j)
  {
  }

  predicate SamePrefix(s: seq<Item>, t: seq<Item>, j: nat) {
    j <= |s| && j <= |t| && s[..j] == t[..j]
  }

  lemma KeepsPrefix(items: seq<Item>, j: nat, x: Item)
    requires j < |items|
    ensures SamePrefix(items[j := x], items, j) && SamePrefix(Without(items, j), items, j)
  {
  }

  lemma PrefixShrinks(s: seq<Item>, t: seq<Item>, j: nat)
    requires SamePrefix(s, t, j + 1)
    ensures SamePrefix(s, t, j) && s[j] == t[j]
  {
    assert s[..j] == s[..j + 1][..j] && t[..j] == t[..j + 1][..j];
    assert s[j] == s[..j + 1][j] && t[j] == t[..j + 1][j];
  }

  lemma PrefixPasses(s: seq<Item>, t: seq<Item>, u: seq<Item>, j: nat)
    requires SamePrefix(s, t, j) && SamePrefix(t, u, j)
    ensures SamePrefix(s, u, j)
  {
  }

  lemma JoinedKeeps(s: View, t: View, canUdp: bool, mode: Mode, offset: nat, info: Info, item: Item, item': Item,
        j: nat)
    requires Next(s, canUdp, info) && info.key.TcpKey? && RoomsWithin(s.bufs, offset)
        && Tried(s, t, Success, mode, offset, info, item, item', j)
    requires info.headersLen <= |s.bufs[|s.owner|].pkt| && Comparable(item, s.bufs[item.bufsIndex].pkt, info)
    requires mode == TcpPacketsCanCoalesce(s.bufs[|s.owner|].pkt, info, item, s.bufs[item.bufsIndex].pkt) != Unavailable
    ensures Inv(t)
  {
    if mode == Prepend {
      PrependJoins(s, canUdp, info, j, item', t.bufs, offset);
    } else {
      AppendJoins(s, canUdp, info, j, item', t.bufs, offset);
    }
    JoinKeeps(s, info.key, j, item', t.bufs[item.bufsIndex], t.bufs[|s.owner|], mode == Prepend);
  }

  /** The move that the attempt makes. */
  ghost predicate Moved(s: View, t: View, r: CoalesceResult, mode: Mode, w: nat)
    requires r == Success ==> w in s.members
  {
    match r
    case Success => PlanOf(t) == R.Merge(PlanOf(s), |s.owner|, w, mode == Prepend)
    case ItemInvalidCSum => PlanOf(t) == PlanOf(s).(open := PlanOf(s).open - {w})
    case _ => PlanOf(t) == PlanOf(s)
  }

  lemma TriedMoves(s: View, t: View, canUdp: bool, r: CoalesceResult, mode: Mode, offset: nat, info: Info, item: Item,
        item': Item, j: nat, rooms: seq<int>)
    requires Next(s, canUdp, info) && RoomsOk(s, rooms, offset) && Tried(s, t, r, mode, offset, info, item, item', j)
    ensures RoomsOk(t, rooms, offset) && t.toWrite == s.toWrite && Moved(s, t, r, mode, item.bufsIndex)
  {
    if r == Success {
      Held(s, canUdp, info.key, j);
      JoinMoves(s, info.key, j, item', t.bufs[item.bufsIndex], t.bufs[|s.owner|], mode == Prepend, rooms, offset);
    } else if r == ItemInvalidCSum {
      DropMoves(s, info.key, j, rooms, offset);
    }
  }

  lemma TriedKeeps(s: View, t: View, canUdp: bool, r: CoalesceResult, mode: Mode, offset: nat, info: Info, item: Item,
        item': Item, j: nat)
    requires Next(s, canUdp, info) && info.key.TcpKey? && RoomsWithin(s.bufs, offset)
        && Tried(s, t, r, mode, offset, info, item, item', j)
    requires info.headersLen <= |s.bufs[|s.owner|].pkt| && Comparable(item, s.bufs[item.bufsIndex].pkt, info)
    requires mode == TcpPacketsCanCoalesce(s.bufs[|s.owner|].pkt, info, item, s.bufs[item.bufsIndex].pkt) != Unavailable
    ensures Inv(t)
    ensures if r == Success then |t.owner| == |s.owner| + 1 else Next(t, canUdp, info) && |t.owner| == |s.owner|
  {
    if r == Success {
      JoinedKeeps(s, t, canUdp, mode, offset, info, item, item', j);
    } else if r == ItemInvalidCSum {
      DropsInvalid(s, canUdp, info.key, j);
      DropKeeps(s, info.key, j);
    }
  }

  /** What is left to do after the attempt leads where the reference goes from there. */
  ghost predicate Goes(b: R.Arrivals, s: View, t: View, r: CoalesceResult, w: nat, goal: R.Plan)
    requires |s.owner| < |b.pkts| == |b.rooms|
  {
    match r
    case Success => PlanOf(t) == goal
    case PktInvalidCSum => R.Alone(PlanOf(t), |s.owner|) == goal
    case _ => R.Settle(b, PlanOf(t), |s.owner|, w) == goal
  }

  lemma ReachedGoes(b: R.Arrivals, s: View, t: View, r: CoalesceResult, mode: Mode, w: nat, c: nat)
    requires Reached(b, PlanOf(s), |s.owner|, c, w, VerdictOf(mode, r))
    requires Moved(s, t, r, mode, w) && (mode == Unavailable ==> r == InsufficientCap)
    ensures Goes(b, s, t, r, w, R.Settle(b, PlanOf(s), |s.owner|, c))
  {
  }

  /** The items left of `j` are untried. */
  lemma TriedParts(s: View, t: View, canUdp: bool, r: CoalesceResult, mode: Mode, offset: nat, info: Info, item: Item,
        item': Item, j: nat)
    requires Next(s, canUdp, info) && Tried(s, t, r, mode, offset, info, item, item', j) && r != Success
    ensures info.key in t.flows && Parted(t.flows[info.key], j, item.bufsIndex)
  {
    var items := s.flows[info.key];
    forall a | 0 <= a < |items| ensures a < j ==> items[a].bufsIndex < item.bufsIndex
        ensures a > j ==> items[a].bufsIndex > item.bufsIndex {
      assert SortedOk(s, info.key, a, j) && SortedOk(s, info.key, j, a);
    }
    if r == ItemInvalidCSum {
      forall a | 0 <= a < |items| - 1
        ensures Without(items, j)[a].bufsIndex < item.bufsIndex <==> a < j {
        WithoutAt(items, j, a);
      }
    }
  }

  lemma AttemptKeeps(s: View, t: View, canUdp: bool, r: CoalesceResult, mode: Mode, offset: nat, info: Info, item: Item,
        item': Item, j: nat, rooms: seq<int>)
    requires Next(s, canUdp, info) && info.key.TcpKey? && RoomsOk(s, rooms, offset)
    requires Tried(s, t, r, mode, offset, info, item, item', j) && Answered(s, r, mode, offset, info, item)
    ensures Inv(t) && RoomsOk(t, rooms, offset) && t.toWrite == s.toWrite && Moved(s, t, r, mode, item.bufsIndex)
    ensures if r == Success then |t.owner| == |s.owner| + 1
            else Next(t, canUdp, info) && |t.owner| == |s.owner| && info.key in t.flows
                 && Parted(t.flows[info.key], j, item.bufsIndex)
  {
    if mode != Unavailable { TriedKeeps(s, t, canUdp, r, mode, offset, info, item, item', j); }
    TriedMoves(s, t, canUdp, r, mode, offset, info, item, item', j, rooms);
    if r != Success { TriedParts(s, t, canUdp, r, mode, offset, info, item, item', j); }
  }

  /** Coming down from `c`, group `w` is the next candidate, and this is the verdict on it. */
  ghost predicate Reached(b: R.Arrivals, p: R.Plan, i: nat, c: nat, w: nat, verdict: R.Verdict) {
    Passes(b, p, i, c, w + 1) && Ruled(b, p, i, w, verdict)
  }

  lemma ItemReached(s: View, canUdp: bool, r: CoalesceResult, mode: Mode, offset: nat, info: Info, item: Item,
        j: nat, b: R.Arrivals, c: nat)
    requires Ready(s, canUdp, info, b) && RoomsOk(s, b.rooms, offset) && Answered(s, r, mode, offset, info, item)
    requires info.key in s.flows && Parted(s.flows[info.key], j + 1, c) && item == s.flows[info.key][j]
    ensures Reached(b, PlanOf(s), |s.owner|, c, item.bufsIndex, VerdictOf(mode, r))
  {
    AnswerIsVerdict(s, canUdp, info, b, j, offset, r, mode, item);
    PassesTo(s, canUdp, info, b, j + 1, c, PlanOf(s), |s.owner|, item.bufsIndex + 1);
  }

  /** One step of the reference on the newest datagram group. */
  lemma ReachedFollows(b: R.Arrivals, p: R.Plan, i: nat, w: nat, mode: Mode, r: CoalesceResult, c: nat)
    requires Reached(b, p, i, c, w, VerdictOf(mode, r)) && mode != Prepend
    ensures w in p.members
    ensures R.Follow(b, p, i, c) == if mode == Append && r == Success then R.Merge(p, i, w, false) else R.Started(p, i)
  {
  }

  /** The last item of a flow is the one the reference tries, and the only one. */
  lemma LastReached(s: View, canUdp: bool, r: CoalesceResult, mode: Mode, offset: nat, info: Info, item: Item, j: nat,
        b: R.Arrivals)
    requires Ready(s, canUdp, info, b) && RoomsOk(s, b.rooms, offset) && Answered(s, r, mode, offset, info, item)
    requires info.key in s.flows && j == |s.flows[info.key]| - 1 && item == s.flows[info.key][j]
    ensures Reached(b, PlanOf(s), |s.owner|, |s.owner|, item.bufsIndex, VerdictOf(mode, r))
  {
    AllBefore(s, canUdp, info);
    ItemReached(s, canUdp, r, mode, offset, info, item, j, b, |s.owner|);
  }

  lemma NewFlowStarts(s: View, canUdp: bool, info: Info, b: R.Arrivals, c: nat)
    requires Ready(s, canUdp, info, b) && info.key !in s.flows
    ensures R.Settle(b, PlanOf(s), |s.owner|, c) == R.Started(PlanOf(s), |s.owner|)
        == R.Follow(b, PlanOf(s), |s.owner|, c)
  {
    NoFlowNoCandidate(s, canUdp, info, b, c);
    R.SettlePasses(b, PlanOf(s), |s.owner|, 0, c);
    R.FollowPasses(b, PlanOf(s), |s.owner|, 0, c);
  }

  lemma NoneLeftStarts(s: View, canUdp: bool, info: Info, b: R.Arrivals, c: nat)
    requires Ready(s, canUdp, info, b) && info.key in s.flows && Parted(s.flows[info.key], 0, c)
    ensures R.Settle(b, PlanOf(s), |s.owner|, c) == R.Started(PlanOf(s), |s.owner|)
  {
    PassesTo(s, canUdp, info, b, 0, c, PlanOf(s), |s.owner|, 0);
  }

  /** What the parser says of the next packet decides what the reference does with it. */
  lemma GoalIs(b: R.Arrivals, p: R.Plan, i: nat)
    requires i < |b.pkts| == |b.rooms|
    ensures var info := Parse(b.pkts[i], b.udp);
            R.Handle(b, p, i) == if info.None? then R.Alone(p, i)
                                 else if info.value.key.TcpKey? then R.Settle(b, p, i, i) else R.Follow(b, p, i, i)
  {
    Wire.ParsesIff(b.pkts[i], b.udp);
  }

  /** The tables aside, the state is the same. */
  lemma FlowsAside(s: View, t: View, rooms: seq<int>, offset: nat)
    requires t == s.(flows := t.flows)
    ensures (RoomsOk(s, rooms, offset) <==> RoomsOk(t, rooms, offset)) && PlanOf(s) == PlanOf(t)
  {
    assert forall w: nat :: RoomOk(s, rooms, offset, w) <==> RoomOk(t, rooms, offset, w);
  }
}
