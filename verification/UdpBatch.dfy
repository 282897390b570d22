/**
 * Batches of UDP datagrams in conn/bind_std.go: coalesceMessages joins datagrams into large
 * messages by appending within the capacity of the first one's buffer, and
 * splitCoalescedMessages takes large messages apart into the slots before them.
 */
module UdpBatch {
  import opened Bytes
  import opened Segments

  const MAX_DATAGRAMS: nat := 64
  const MAX_IPV4_PAYLOAD: nat := 65507
  const MAX_IPV6_PAYLOAD: nat := 65527

  // ---------- segmenting a message ----------

  /** What the kernel makes of a message sent with segment size `g`. */
  function Chop(data: seq<Byte>, g: nat): (r: seq<seq<Byte>>)
    requires g > 0
    ensures |r| >= 1
    decreases |data|
  {
    if |data| <= g then [data] else [data[..g]] + Chop(data[g..], g)
  }

  /** Segmenting undoes joining. */
  lemma {:induction false} ChopUndoesJoin(parts: seq<seq<Byte>>, g: nat)
    requires Cut(parts, 0, g)
    ensures Chop(Payloads(parts, 0), g) == parts
  {
    var rest := parts[1..];
    assert parts == [parts[0]] + rest;
    PayloadsPrepend(parts[0], rest, 0);
    assert parts[0][0..] == parts[0];
    if rest == [] {
      assert Payloads(parts, 0) == parts[0];
    } else {
      assert Cut(rest, 0, g);
      ChopUndoesJoin(rest, g);
      PayloadsLength(rest, 0, g);
      var all := Payloads(parts, 0);
      assert all[..g] == parts[0] && all[g..] == Payloads(rest, 0);
    }
  }

  lemma {:induction false} ChopCount(data: seq<Byte>, g: nat)
    requires g > 0 && |data| > 0
    ensures Times(|Chop(data, g)| - 1, g) < |data| <= Times(|Chop(data, g)|, g)
    decreases |data|
  {
    TimesNext(0, g);
    if |data| > g {
      ChopCount(data[g..], g);
      TimesNext(|Chop(data[g..], g)| - 1, g);
      TimesNext(|Chop(data[g..], g)|, g);
    }
  }

  lemma {:induction false} ChopAt(data: seq<Byte>, g: nat, j: nat)
    requires g > 0 && |data| > 0 && j < |Chop(data, g)|
    ensures Times(j, g) < |data|
    ensures Chop(data, g)[j] == data[Times(j, g)..if Times(j, g) + g < |data| then Times(j, g) + g else |data|]
    decreases |data|
  {
    TimesNext(0, g);
    if |data| > g && j > 0 {
      ChopAt(data[g..], g, j - 1);
      TimesNext(j - 1, g);
      var end := if Times(j, g) + g < |data| then Times(j, g) + g else |data|;
      assert data[g..][Times(j - 1, g)..end - g] == data[Times(j, g)..end];
    }
  }

  /** The number of pieces, as the code computes it. */
  lemma CountIsQuotient(data: seq<Byte>, g: nat)
    requires g > 0 && |data| > 0
    ensures (|data| + g - 1) / g == |Chop(data, g)|
  {
    ChopCount(data, g);
    var n := |Chop(data, g)|;
    TimesNext(n - 1, g);
    Quotient(|data| + g - 1, g, n, |data| + g - 1 - Times(n, g));
  }

  // ---------- coalesceMessages ----------

  /** A Go slice: `len` bytes of the array from `from` on; the rest of the array is its spare capacity. */
  datatype Slice = Slice(arr: array<Byte>, from: nat, len: nat)

  ghost predicate Fits(s: Slice)
    reads s.arr
  {
    s.from + s.len <= s.arr.Length
  }

  ghost function Visible(s: Slice): seq<Byte>
    requires Fits(s)
    reads s.arr
  {
    s.arr[s.from..s.from + s.len]
  }

  /** `gso` lists the segment sizes that have been set on the message. */
  datatype Msg = Msg(buf: Slice, gso: seq<nat>)

  predicate Disjoint(bufs: seq<Slice>) {
    forall i, j :: 0 <= i < |bufs| && 0 <= j < |bufs| && i != j ==> bufs[i].arr != bufs[j].arr
  }

  /** Datagrams `s` to `e` of `data`, one after the other. */
  function Joined(data: seq<seq<Byte>>, s: nat, e: nat): seq<Byte>
    requires e <= |data|
  {
    if e <= s then [] else Joined(data, s, e - 1) + data[e - 1]
  }

  lemma JoinedNext(data: seq<seq<Byte>>, s: nat, i: nat)
    requires s <= i < |data|
    ensures Joined(data, s, i + 1) == Joined(data, s, i) + data[i]
    ensures |Joined(data, s, i + 1)| == |Joined(data, s, i)| + |data[i]|
        && (s == i ==> Joined(data, s, i + 1) == data[i])
  {
    assert [] + data[i] == data[i];
  }

  lemma {:induction false} JoinedIsPayloads(data: seq<seq<Byte>>, s: nat, e: nat)
    requires s <= e <= |data|
    ensures Joined(data, s, e) == Payloads(data[s..e], 0)
  {
    if s < e {
      JoinedIsPayloads(data, s, e - 1);
      assert data[s..e] == data[s..e - 1] + [data[e - 1]];
      PayloadsAppend(data[s..e - 1], 0, data[e - 1]);
      assert data[e - 1][0..] == data[e - 1];
    }
  }

  lemma {:induction false} FirstWithin(data: seq<seq<Byte>>, s: nat, e: nat)
    requires s < e <= |data|
    ensures |Joined(data, s, e)| >= |data[s]|
  {
    if e > s + 1 { FirstWithin(data, s, e - 1); }
  }

  /** Datagrams `s` to `e` share one message: equal sizes, only the last may be shorter. */
  predicate Run(data: seq<seq<Byte>>, s: nat, e: nat, max: nat) {
    && s < e <= |data| && e - s <= MAX_DATAGRAMS
    && (forall j :: s <= j < e ==> |data[j]| <= |data[s]|)
    && (forall j :: s <= j < e - 1 ==> |data[j]| == |data[s]|)
    && (e - s > 1 ==> |data[s]| <= |Joined(data, s, e)| <= max)
  }

  /** Datagram `e` can still join: payload limit, size, capacity, count, and none shorter before it. */
  predicate CanJoin(data: seq<seq<Byte>>, s: nat, e: nat, max: nat, capacity: int) {
    && s < e < |data| && |data[e]| + |Joined(data, s, e)| <= max && |data[e]| <= |data[s]|
    && |data[e]| <= capacity - |Joined(data, s, e)| && e - s < MAX_DATAGRAMS && |data[e - 1]| >= |data[s]|
  }

  lemma RunGrows(data: seq<seq<Byte>>, s: nat, i: nat, max: nat, capacity: int)
    requires Run(data, s, i, max) && CanJoin(data, s, i, max, capacity)
    ensures Run(data, s, i + 1, max)
  {
    FirstWithin(data, s, i);
    JoinedNext(data, s, i);
  }

  // ---------- messages and their plan ----------

  /** Set once, on messages of several datagrams. */
  function GsoOf(data: seq<seq<Byte>>, s: nat, e: nat): seq<nat>
    requires s < |data|
  {
    if e - s > 1 then [|data[s]|] else []
  }

  /** A finished message is a maximal run and carries its segment size. */
  predicate Planned(gso: seq<nat>, capacity: int, data: seq<seq<Byte>>, s: nat, e: nat, max: nat, finished: bool) {
    && Run(data, s, e, max) && (finished ==> !CanJoin(data, s, e, max, capacity))
    && gso == if finished then GsoOf(data, s, e) else []
  }

  /** A message without its buffer: where it starts, the capacity there, and what was set on it. */
  datatype Plan = Plan(start: nat, capacity: int, gso: seq<nat>)

  predicate Starts(plan: seq<Plan>, i: nat) {
    && (i > 0 <==> |plan| > 0) && (|plan| > 0 ==> plan[0].start == 0 && plan[|plan| - 1].start < i)
    && forall a, b :: 0 <= a < b < |plan| ==> plan[a].start < plan[b].start
  }

  function Ending(plan: seq<Plan>, k: nat, i: nat): nat
    requires k < |plan|
  {
    if k + 1 < |plan| then plan[k + 1].start else i
  }

  predicate PlannedAt(plan: seq<Plan>, data: seq<seq<Byte>>, i: nat, max: nat, k: nat) {
    k < |plan| ==>
      Planned(plan[k].gso, plan[k].capacity, data, plan[k].start, Ending(plan, k, i), max, k + 1 < |plan|
          || i == |data|)
  }

  /** Consecutive maximal runs cover the first `i` datagrams. */
  ghost predicate AllPlanned(plan: seq<Plan>, data: seq<seq<Byte>>, i: nat, max: nat) {
    i <= |data| && Starts(plan, i) && forall k: nat :: PlannedAt(plan, data, i, max, k)
  }

  /** The last message takes datagram `i` as well. */
  lemma PlannedJoin(plan: seq<Plan>, data: seq<seq<Byte>>, i: nat, max: nat, gso: seq<nat>)
    requires AllPlanned(plan, data, i, max) && 0 < i < |data|
    requires var last := plan[|plan| - 1];
             CanJoin(data, last.start, i, max, last.capacity)
                 && gso == if i + 1 == |data| then [|data[last.start]|] else []
    ensures AllPlanned(plan[|plan| - 1 := plan[|plan| - 1].(gso := gso)], data, i + 1, max)
  {
    var b, last := |plan| - 1, plan[|plan| - 1];
    var plan', next := plan[b := last.(gso := gso)], i + 1;
    assert PlannedAt(plan, data, i, max, b);
    RunGrows(data, last.start, i, max, last.capacity);
    forall k: nat ensures PlannedAt(plan', data, next, max, k) { assert PlannedAt(plan, data, i, max, k); }
  }

  /** The last message is finished and datagram `i` starts the next. */
  lemma PlannedStart(plan: seq<Plan>, data: seq<seq<Byte>>, i: nat, max: nat, capacity: int)
    requires AllPlanned(plan, data, i, max) && i < |data|
    requires i > 0 ==> !CanJoin(data, plan[|plan| - 1].start, i, max, plan[|plan| - 1].capacity)
    ensures AllPlanned(Finished(plan, data, i) + [Plan(i, capacity, [])], data, i + 1, max)
  {
    var done := Finished(plan, data, i);
    var plan', next := done + [Plan(i, capacity, [])], i + 1;
    forall k: nat ensures PlannedAt(plan', data, next, max, k) {
      assert PlannedAt(plan, data, i, max, k);
      if k < |plan| { assert plan'[k] == done[k] && Ending(plan', k, next) == Ending(plan, k, i); }
    }
  }

  function Finished(plan: seq<Plan>, data: seq<seq<Byte>>, i: nat): (r: seq<Plan>)
    requires Starts(plan, i) && i <= |data|
    ensures |r| == |plan| && forall k :: 0 <= k < |plan| ==> r[k].start == plan[k].start
                                                             && r[k].capacity == plan[k].capacity
  {
    if plan == [] then [] else
    var b := |plan| - 1;
    plan[b := plan[b].(gso := GsoOf(data, plan[b].start, i))]
  }

  // ---------- the method ----------

  function Capacity(s: Slice): int { s.arr.Length - s.from }

  function MaxPayload(isV6: bool): nat { if isV6 then MAX_IPV6_PAYLOAD else MAX_IPV4_PAYLOAD }

  /** Every datagram reads as `data` says. */
  ghost predicate Intact(bufs: seq<Slice>, data: seq<seq<Byte>>)
    reads set j | 0 <= j < |bufs| :: bufs[j].arr
  {
    |data| == |bufs| && forall j :: 0 <= j < |bufs| ==> Fits(bufs[j]) && Visible(bufs[j]) == data[j]
  }

  /** Message `m` lies at the start of datagram `p.start`'s array. */
  predicate Based(m: Msg, p: Plan, bufs: seq<Slice>) {
    && p.start < |bufs| && m.buf.arr == bufs[p.start].arr && m.buf.from == bufs[p.start].from
    && p.capacity == Capacity(m.buf) && m.gso == p.gso
  }

  ghost predicate Reads(s: Slice, bytes: seq<Byte>)
    reads s.arr
  {
    Fits(s) && Visible(s) == bytes
  }

  /** The messages made of the first `i` datagrams read as those datagrams joined. */
  ghost predicate Made(msgs: seq<Msg>, plan: seq<Plan>, bufs: seq<Slice>, data: seq<seq<Byte>>, i: nat)
    reads set k | 0 <= k < |msgs| :: msgs[k].buf.arr
  {
    && |msgs| == |plan| && i <= |data| == |bufs| && Starts(plan, i)
    && forall k: nat :: MadeAt(msgs, plan, bufs, data, i, k)
  }

  ghost predicate MadeAt(msgs: seq<Msg>, plan: seq<Plan>, bufs: seq<Slice>, data: seq<seq<Byte>>, i: nat, k: nat)
    requires |msgs| == |plan|
    reads if k < |msgs| then {msgs[k].buf.arr} else {}
  {
    k < |msgs| ==> MadeOf(msgs[k], plan[k], Ending(plan, k, i), bufs, data)
  }

  ghost predicate MadeOf(m: Msg, p: Plan, e: nat, bufs: seq<Slice>, data: seq<seq<Byte>>)
    reads m.buf.arr
  {
    Based(m, p, bufs) && e <= |data| && Reads(m.buf, Joined(data, p.start, e))
  }

  lemma SizeIs(bufs: seq<Slice>, data: seq<seq<Byte>>, i: nat)
    requires Intact(bufs, data) && i < |bufs|
    ensures |data| == |bufs| && |data[i]| == bufs[i].len && Visible(bufs[i]) == data[i]
  {
  }

  lemma InFrame(msgs: seq<Msg>, plan: seq<Plan>, bufs: seq<Slice>, data: seq<seq<Byte>>, i: nat)
    requires Made(msgs, plan, bufs, data, i) && i > 0
    ensures plan[|plan| - 1].start < |bufs| && msgs[|msgs| - 1].buf.arr == bufs[plan[|plan| - 1].start].arr
  {
    assert MadeAt(msgs, plan, bufs, data, i, |msgs| - 1);
  }

  /** `append(s, b...)` within the capacity; what lies before the end of `s`, such as `head`, stays. */
  method Append(s: Slice, b: seq<Byte>, ghost head: Slice) returns (r: Slice)
    requires s.from + s.len + |b| <= s.arr.Length && head.arr == s.arr && head.from + head.len <= s.from + s.len
    modifies s.arr
    ensures r == Slice(s.arr, s.from, s.len + |b|) && Visible(r) == old(Visible(s)) + b
    ensures Visible(head) == old(Visible(head))
  {
    var at := s.from + s.len;
    forall k | 0 <= k < |b| { s.arr[at + k] := b[k]; }
    r := Slice(s.arr, s.from, s.len + |b|);
  }

  /** All datagrams but the one at `s`, and all messages but the last. */
  ghost predicate Others(msgs: seq<Msg>, plan: seq<Plan>, bufs: seq<Slice>, data: seq<seq<Byte>>, i: nat, s: nat)
    reads set j | 0 <= j < |bufs| && j != s :: bufs[j].arr, set k | 0 <= k < |msgs| - 1 :: msgs[k].buf.arr
  {
    && |msgs| == |plan| && i <= |data| == |bufs|
    && (forall j :: 0 <= j < |bufs| && j != s ==> Fits(bufs[j]) && Visible(bufs[j]) == data[j])
    && forall k: nat :: k < |msgs| - 1 ==> MadeAt(msgs, plan, bufs, data, i, k)
  }

  lemma OthersApart(msgs: seq<Msg>, plan: seq<Plan>, bufs: seq<Slice>, data: seq<seq<Byte>>, i: nat)
    requires Disjoint(bufs) && Intact(bufs, data) && 0 < i && Made(msgs, plan, bufs, data, i)
    ensures var s, arr := plan[|plan| - 1].start, msgs[|msgs| - 1].buf.arr;
            && Others(msgs, plan, bufs, data, i, s) && MadeOf(msgs[|msgs| - 1], plan[|plan| - 1], i, bufs, data)
            && (forall j :: 0 <= j < |bufs| && j != s ==> bufs[j].arr != arr)
            && (forall k :: 0 <= k < |msgs| - 1 ==> msgs[k].buf.arr != arr)
  {
    var b := |msgs| - 1;
    assert MadeAt(msgs, plan, bufs, data, i, b);
    forall k | 0 <= k < b ensures msgs[k].buf.arr != msgs[b].buf.arr {
      assert MadeAt(msgs, plan, bufs, data, i, k);
    }
  }

  /** The last message grows by one datagram. */
  lemma StartsKept(plan: seq<Plan>, i: nat, p: Plan)
    requires 0 < i && plan != [] && Starts(plan, i) && p.start == plan[|plan| - 1].start
    ensures var plan' := plan[|plan| - 1 := p];
            && Starts(plan', i + 1) && Ending(plan', |plan| - 1, i + 1) == i + 1
            && forall k :: 0 <= k < |plan| - 1 ==> Ending(plan', k, i + 1) == Ending(plan, k, i)
  {
  }

  lemma MadeBack(msgs: seq<Msg>, plan: seq<Plan>, bufs: seq<Slice>, data: seq<seq<Byte>>, i: nat, m: Msg, p: Plan)
    requires 0 < i < |bufs| && |msgs| == |plan| > 0 && Starts(plan, i) && p.start == plan[|plan| - 1].start
    requires Others(msgs, plan, bufs, data, i, p.start) && MadeOf(m, p, i + 1, bufs, data)
    ensures Made(msgs[|msgs| - 1 := m], plan[|plan| - 1 := p], bufs, data, i + 1)
  {
    var msgs', plan', next := msgs[|msgs| - 1 := m], plan[|plan| - 1 := p], i + 1;
    StartsKept(plan, i, p);
    forall k: nat ensures MadeAt(msgs', plan', bufs, data, next, k) {
      if k < |msgs| - 1 {
        assert MadeAt(msgs, plan, bufs, data, i, k) && Ending(plan', k, next) == Ending(plan, k, i);
      }
    }
  }

  lemma OthersBack(msgs: seq<Msg>, plan: seq<Plan>, bufs: seq<Slice>, data: seq<seq<Byte>>, i: nat, m: Msg, p: Plan)
    requires 0 < i < |bufs| && |msgs| == |plan| > 0 && Starts(plan, i) && p.start == plan[|plan| - 1].start < |bufs|
    requires Others(msgs, plan, bufs, data, i, p.start) && MadeOf(m, p, i + 1, bufs, data)
    requires Fits(bufs[p.start]) && Visible(bufs[p.start]) == data[p.start]
    ensures Intact(bufs, data) && Made(msgs[|msgs| - 1 := m], plan[|plan| - 1 := p], bufs, data, i + 1)
  {
    MadeBack(msgs, plan, bufs, data, i, m, p);
  }

  /** The last message, about to take datagram `i`. */
  lemma Grows(m: Msg, p: Plan, bufs: seq<Slice>, data: seq<seq<Byte>>, i: nat)
    requires Intact(bufs, data) && p.start < i < |bufs| && MadeOf(m, p, i, bufs, data)
    ensures Fits(m.buf) && bufs[p.start].arr == m.buf.arr && bufs[p.start].from == m.buf.from
    ensures bufs[p.start].len <= m.buf.len
    ensures Joined(data, p.start, i + 1) == Visible(m.buf) + Visible(bufs[i])
  {
    FirstWithin(data, p.start, i);
    JoinedNext(data, p.start, i);
    SizeIs(bufs, data, i);
    SizeIs(bufs, data, p.start);
  }

  /** Datagram `i` is appended to message `m`; the first datagram of `m` still reads as before. */
  method JoinTo(m: Msg, bufs: seq<Slice>, i: nat, gso: seq<nat>, ghost data: seq<seq<Byte>>, ghost p: Plan)
    returns (m': Msg)
    requires Intact(bufs, data) && p.start < i < |bufs| && MadeOf(m, p, i, bufs, data)
    requires bufs[i].len <= Capacity(m.buf) - m.buf.len
    modifies m.buf.arr
    ensures MadeOf(m', p.(gso := gso), i + 1, bufs, data) && m'.buf.arr == m.buf.arr
    ensures Fits(bufs[p.start]) && Visible(bufs[p.start]) == data[p.start]
  {
    Grows(m, p, bufs, data, i);
    var joined := Append(m.buf, bufs[i].arr[bufs[i].from..bufs[i].from + bufs[i].len], bufs[p.start]);
    m' := Msg(joined, gso);
  }

  method JoinLast(msgs: seq<Msg>, bufs: seq<Slice>, i: nat, gso: seq<nat>, ghost data: seq<seq<Byte>>,
        ghost plan: seq<Plan>) returns (msgs': seq<Msg>)
    requires Disjoint(bufs) && Intact(bufs, data) && 0 < i < |bufs| && Made(msgs, plan, bufs, data, i)
    requires bufs[i].len <= Capacity(msgs[|msgs| - 1].buf) - msgs[|msgs| - 1].buf.len
    modifies msgs[|msgs| - 1].buf.arr
    ensures Intact(bufs, data) && Made(msgs', plan[|plan| - 1 := plan[|plan| - 1].(gso := gso)], bufs, data, i + 1)
  {
    var base := |msgs| - 1;
    OthersApart(msgs, plan, bufs, data, i);
    var m := JoinTo(msgs[base], bufs, i, gso, data, plan[base]);
    OthersBack(msgs, plan, bufs, data, i, m, plan[base].(gso := gso));
    msgs' := msgs[base := m];
  }

  lemma LastMade(msgs: seq<Msg>, plan: seq<Plan>, bufs: seq<Slice>, data: seq<seq<Byte>>, i: nat)
    requires Made(msgs, plan, bufs, data, i) && 0 < i
    ensures var b := |plan| - 1;
            && msgs[b].buf.len == |Joined(data, plan[b].start, i)| && Capacity(msgs[b].buf) == plan[b].capacity
            && msgs[b].gso == plan[b].gso
  {
    var b := |plan| - 1;
    assert MadeAt(msgs, plan, bufs, data, i, b);
  }

  lemma LastPlanned(plan: seq<Plan>, data: seq<seq<Byte>>, i: nat, max: nat)
    requires AllPlanned(plan, data, i, max) && 0 < i < |data|
    ensures var last := plan[|plan| - 1]; last.gso == [] && (i - last.start > 1 ==> |data[last.start]| <= max)
  {
    assert PlannedAt(plan, data, i, max, |plan| - 1);
  }

  /** Only the list of messages grows. */
  lemma MadeStart(msgs: seq<Msg>, plan: seq<Plan>, bufs: seq<Slice>, data: seq<seq<Byte>>, i: nat, m: Msg, p: Plan)
    requires Intact(bufs, data) && Made(msgs, plan, bufs, data, i) && i < |bufs|
    requires m == Msg(bufs[i], []) && p == Plan(i, Capacity(bufs[i]), [])
    ensures Made(msgs + [m], plan + [p], bufs, data, i + 1)
  {
    var more, plan', next := msgs + [m], plan + [p], i + 1;
    StartsMore(plan, i, p);
    forall k: nat ensures MadeAt(more, plan', bufs, data, next, k) {
      if k < |msgs| { assert MadeAt(msgs, plan, bufs, data, i, k); } else {
        MadeAlone(bufs, data, i);
      }
    }
  }

  /** A new last message starts where the one before it ends. */
  lemma StartsMore(plan: seq<Plan>, i: nat, p: Plan)
    requires Starts(plan, i) && p.start == i
    ensures Starts(plan + [p], i + 1) && forall k :: 0 <= k < |plan|
                                                     ==> Ending(plan + [p], k, i + 1) == Ending(plan, k, i)
  {
  }

  lemma MadeAlone(bufs: seq<Slice>, data: seq<seq<Byte>>, i: nat)
    requires Intact(bufs, data) && i < |bufs|
    ensures MadeOf(Msg(bufs[i], []), Plan(i, Capacity(bufs[i]), []), i + 1, bufs, data)
  {
    JoinedNext(data, i, i);
  }

  lemma MadeFinished(msgs: seq<Msg>, plan: seq<Plan>, bufs: seq<Slice>, data: seq<seq<Byte>>, i: nat, msgs': seq<Msg>)
    requires Made(msgs, plan, bufs, data, i) && i < |data|
    requires |msgs'| == |msgs| && forall k :: 0 <= k < |msgs| - 1 ==> msgs'[k] == msgs[k]
    requires i > 0 ==> msgs'[|msgs| - 1] == msgs[|msgs| - 1].(gso := GsoOf(data, plan[|plan| - 1].start, i))
    ensures Made(msgs', Finished(plan, data, i), bufs, data, i)
  {
    var done := Finished(plan, data, i);
    forall k: nat ensures MadeAt(msgs', done, bufs, data, i, k) {
      assert MadeAt(msgs, plan, bufs, data, i, k);
    }
  }

  /** The code's test is CanJoin. */
  lemma Decision(data: seq<seq<Byte>>, s: nat, i: nat, max: nat, gsoSize: nat, dgramCnt: nat, endBatch: bool,
        msgLen: nat, baseLen: nat, free: int, capacity: int)
    requires i < |data| && Counted(data, s, i, gsoSize, dgramCnt, endBatch) && msgLen == |data[i]|
        && baseLen == |Joined(data, s, i)|
    requires free == capacity - baseLen && max < 0x1_0000
    ensures (msgLen + baseLen <= max && msgLen <= gsoSize && msgLen <= free && dgramCnt < MAX_DATAGRAMS && !endBatch)
        == CanJoin(data, s, i, max, capacity)
    ensures CanJoin(data, s, i, max, capacity) ==> [] + [gsoSize % 0x1_0000] == [|data[s]|]
  {
    FirstWithin(data, s, i);
  }

  /** The loop's own bookkeeping before datagram `i`. */
  ghost predicate Counting(data: seq<seq<Byte>>, plan: seq<Plan>, i: nat, gsoSize: nat, dgramCnt: nat, endBatch: bool) {
    if i == 0 then dgramCnt == 0 else |plan| > 0 && Counted(data, plan[|plan| - 1].start, i, gsoSize, dgramCnt,
                                      endBatch)
  }

  /** What is set when a message is finished. */
  lemma FinishedGso(data: seq<seq<Byte>>, s: nat, i: nat, max: nat, gsoSize: nat, dgramCnt: nat, endBatch: bool)
    requires i < |data| && Counted(data, s, i, gsoSize, dgramCnt, endBatch)
        && (i - s > 1 ==> |data[s]| <= max) && max < 0x1_0000
    ensures GsoOf(data, s, i) == if dgramCnt > 1 then [] + [gsoSize % 0x1_0000] else []
  {
  }

  ghost predicate Counted(data: seq<seq<Byte>>, s: nat, i: nat, gsoSize: nat, dgramCnt: nat, endBatch: bool) {
    s < i <= |data| && gsoSize == |data[s]| && dgramCnt == i - s && endBatch == (|data[i - 1]| < |data[s]|)
  }

  /** Append datagram `i` to the last message, if it can join. */
  method TryJoin(msgs: seq<Msg>, bufs: seq<Slice>, i: nat, max: nat, gsoSize: nat, dgramCnt: nat, endBatch: bool,
        ghost data: seq<seq<Byte>>, ghost plan: seq<Plan>)
    returns (joined: bool, msgs': seq<Msg>, dgramCnt': nat, endBatch': bool, ghost plan': seq<Plan>)
    requires Disjoint(bufs) && Intact(bufs, data) && Made(msgs, plan, bufs, data, i) && AllPlanned(plan, data, i, max)
        && max < 0x1_0000
    requires 0 < i < |bufs| && Counting(data, plan, i, gsoSize, dgramCnt, endBatch)
    modifies msgs[|msgs| - 1].buf.arr
    ensures joined == CanJoin(data, plan[|plan| - 1].start, i, max, plan[|plan| - 1].capacity)
    ensures Intact(bufs, data)
    ensures joined ==> Made(msgs', plan', bufs, data, i + 1) && AllPlanned(plan', data, i + 1, max)
    ensures joined ==> Counting(data, plan', i + 1, gsoSize, dgramCnt', endBatch')
    ensures !joined ==> msgs' == msgs && plan' == plan && dgramCnt' == dgramCnt && endBatch' == endBatch
                        && Made(msgs, plan, bufs, data, i)
  {
    var base := |msgs| - 1;
    var msgLen := bufs[i].len;
    var baseLenBefore := msgs[base].buf.len;
    var freeBaseCap := Capacity(msgs[base].buf) - baseLenBefore;
    LastMade(msgs, plan, bufs, data, i);
    LastPlanned(plan, data, i, max);
    SizeIs(bufs, data, i);
    Decision(data, plan[base].start, i, max, gsoSize, dgramCnt, endBatch, msgLen, baseLenBefore, freeBaseCap,
        plan[base].capacity);
    joined := msgLen + baseLenBefore <= max && msgLen <= gsoSize && msgLen <= freeBaseCap && dgramCnt < MAX_DATAGRAMS
        && !endBatch;
    msgs', plan', dgramCnt', endBatch' := msgs, plan, dgramCnt, endBatch;
    if joined {
      var gso := msgs[base].gso;
      if i == |bufs| - 1 {
        gso := gso + [gsoSize % 0x1_0000];
      }
      PlannedJoin(plan, data, i, max, gso);
      msgs' := JoinLast(msgs, bufs, i, gso, data, plan);
      plan' := plan[base := plan[base].(gso := gso)];
      dgramCnt' := dgramCnt + 1;
      if msgLen < gsoSize {
        endBatch' := true;
      }
    }
  }

  lemma LastFinishes(msgs: seq<Msg>, plan: seq<Plan>, bufs: seq<Slice>, data: seq<seq<Byte>>, i: nat, max: nat,
      gsoSize: nat, dgramCnt: nat, endBatch: bool)
    requires Made(msgs, plan, bufs, data, i) && AllPlanned(plan, data, i, max) && 0 < i < |data| && max < 0x1_0000
    requires Counting(data, plan, i, gsoSize, dgramCnt, endBatch)
    ensures var b := |msgs| - 1;
            msgs[b].gso == [] && GsoOf(data, plan[b].start, i) == if dgramCnt > 1 then [] + [gsoSize % 0x1_0000] else []
  {
    LastMade(msgs, plan, bufs, data, i);
    LastPlanned(plan, data, i, max);
    FinishedGso(data, plan[|plan| - 1].start, i, max, gsoSize, dgramCnt, endBatch);
  }

  /** Set the segment size of the last message if it holds several datagrams. */
  method FinishLast(msgs: seq<Msg>, bufs: seq<Slice>, i: nat, gsoSize: nat, dgramCnt: nat, ghost endBatch: bool,
        ghost max: nat, ghost data: seq<seq<Byte>>, ghost plan: seq<Plan>)
    returns (msgs': seq<Msg>)
    requires Intact(bufs, data) && Made(msgs, plan, bufs, data, i) && AllPlanned(plan, data, i, max) && i < |bufs|
        && max < 0x1_0000
    requires Counting(data, plan, i, gsoSize, dgramCnt, endBatch)
    ensures Made(msgs', Finished(plan, data, i), bufs, data, i)
  {
    msgs' := msgs;
    if i > 0 { LastFinishes(msgs, plan, bufs, data, i, max, gsoSize, dgramCnt, endBatch); }
    if dgramCnt > 1 {
      var base := |msgs| - 1;
      msgs' := msgs[base := msgs[base].(gso := msgs[base].gso + [gsoSize % 0x1_0000])];
    }
    MadeFinished(msgs, plan, bufs, data, i, msgs');
  }

  lemma Started(msgs: seq<Msg>, bufs: seq<Slice>, i: nat, max: nat, data: seq<seq<Byte>>, plan: seq<Plan>)
    returns (plan': seq<Plan>)
    requires Intact(bufs, data) && AllPlanned(plan, data, i, max) && i < |bufs|
    requires Made(msgs, Finished(plan, data, i), bufs, data, i)
    requires i > 0 ==> !CanJoin(data, plan[|plan| - 1].start, i, max, plan[|plan| - 1].capacity)
    ensures Made(msgs + [Msg(bufs[i], [])], plan', bufs, data, i + 1) && AllPlanned(plan', data, i + 1, max)
    ensures Counting(data, plan', i + 1, bufs[i].len, 1, false)
  {
    var p := Plan(i, Capacity(bufs[i]), []);
    plan' := Finished(plan, data, i) + [p];
    PlannedStart(plan, data, i, max, p.capacity);
    MadeStart(msgs, Finished(plan, data, i), bufs, data, i, Msg(bufs[i], []), p);
    CountingStarts(data, plan', i, bufs[i].len) by { SizeIs(bufs, data, i); }
  }

  lemma CountingStarts(data: seq<seq<Byte>>, plan: seq<Plan>, i: nat, len: nat)
    requires |plan| > 0 && plan[|plan| - 1].start == i < |data| && len == |data[i]|
    ensures Counting(data, plan, i + 1, len, 1, false)
  {
  }

  /** Finish the last message, if there is one, and let datagram `i` start the next. */
  method StartNew(msgs: seq<Msg>, bufs: seq<Slice>, i: nat, gsoSize: nat, dgramCnt: nat, ghost endBatch: bool,
        ghost max: nat, ghost data: seq<seq<Byte>>, ghost plan: seq<Plan>)
    returns (msgs': seq<Msg>, ghost plan': seq<Plan>)
    requires Intact(bufs, data) && Made(msgs, plan, bufs, data, i) && AllPlanned(plan, data, i, max) && i < |bufs|
        && max < 0x1_0000
    requires Counting(data, plan, i, gsoSize, dgramCnt, endBatch)
    requires i > 0 ==> !CanJoin(data, plan[|plan| - 1].start, i, max, plan[|plan| - 1].capacity)
    ensures Made(msgs', plan', bufs, data, i + 1) && AllPlanned(plan', data, i + 1, max)
    ensures Counting(data, plan', i + 1, bufs[i].len, 1, false)
  {
    msgs' := FinishLast(msgs, bufs, i, gsoSize, dgramCnt, endBatch, max, data, plan);
    plan' := Started(msgs', bufs, i, max, data, plan);
    msgs' := msgs' + [Msg(bufs[i], [])];
  }

  predicate Within(bufs: seq<Slice>, arrs: set<array<Byte>>) {
    forall j :: 0 <= j < |bufs| ==> bufs[j].arr in arrs
  }

  /** The first `i` datagrams are in `msgs`, as planned; the loop's counters fit the last message. */
  ghost predicate Taken(msgs: seq<Msg>, plan: seq<Plan>, bufs: seq<Slice>, data: seq<seq<Byte>>, i: nat, max: nat,
        counts: (nat, nat, bool))
    reads set j | 0 <= j < |bufs| :: bufs[j].arr, set k | 0 <= k < |msgs| :: msgs[k].buf.arr
  {
    && Intact(bufs, data) && Made(msgs, plan, bufs, data, i) && AllPlanned(plan, data, i, max)
    && Counting(data, plan, i, counts.0, counts.1, counts.2)
  }

  /** One turn of the loop. */
  method Take(msgs: seq<Msg>, bufs: seq<Slice>, i: nat, max: nat, gsoSize: nat, dgramCnt: nat, endBatch: bool,
        ghost data: seq<seq<Byte>>, ghost plan: seq<Plan>, ghost arrs: set<array<Byte>>)
    returns (msgs': seq<Msg>, gsoSize': nat, dgramCnt': nat, endBatch': bool, ghost plan': seq<Plan>)
    requires Disjoint(bufs) && Within(bufs, arrs) && max < 0x1_0000 && i < |bufs|
    requires Taken(msgs, plan, bufs, data, i, max, (gsoSize, dgramCnt, endBatch))
    modifies arrs
    ensures Taken(msgs', plan', bufs, data, i + 1, max, (gsoSize', dgramCnt', endBatch'))
  {
    msgs', gsoSize', dgramCnt', endBatch', plan' := msgs, gsoSize, dgramCnt, endBatch, plan;
    if i > 0 {
      InFrame(msgs, plan, bufs, data, i);
      var joined;
      joined, msgs', dgramCnt', endBatch', plan' := TryJoin(msgs, bufs, i, max, gsoSize, dgramCnt, endBatch, data,
          plan);
      if joined {
        return;
      }
    }
    msgs', plan' := StartNew(msgs, bufs, i, gsoSize, dgramCnt, endBatch, max, data, plan);
    gsoSize', dgramCnt', endBatch' := bufs[i].len, 1, false;
  }

  // ---------- what arrives ----------

  predicate NonEmpty(data: seq<seq<Byte>>) {
    forall j :: 0 <= j < |data| ==> data[j] != []
  }

  /** A finished message, cut at its segment size, is the datagrams that went into it. */
  lemma RunChops(data: seq<seq<Byte>>, s: nat, e: nat, max: nat)
    requires Run(data, s, e, max) && NonEmpty(data)
    ensures Chop(Joined(data, s, e), |data[s]|) == data[s..e]
  {
    JoinedIsPayloads(data, s, e);
    assert Cut(data[s..e], 0, |data[s]|);
    ChopUndoesJoin(data[s..e], |data[s]|);
  }

  /** What the kernel makes of a message: one datagram, or pieces of the segment size set on it. */
  ghost function Segmented(m: Msg): seq<seq<Byte>>
    requires Fits(m.buf)
    reads m.buf.arr
  {
    if m.gso == [] || m.gso[0] == 0 then [Visible(m.buf)] else Chop(Visible(m.buf), m.gso[0])
  }

  lemma RunSegmented(m: Msg, p: Plan, e: nat, bufs: seq<Slice>, data: seq<seq<Byte>>, max: nat)
    requires MadeOf(m, p, e, bufs, data) && Run(data, p.start, e, max) && m.gso == GsoOf(data, p.start, e)
        && NonEmpty(data)
    ensures Segmented(m) == data[p.start..e]
  {
    if e - p.start == 1 {
      JoinedNext(data, p.start, p.start);
      assert data[p.start..e] == [data[p.start]];
    } else {
      RunChops(data, p.start, e, max);
    }
  }

  /** What the first n messages deliver, in order. */
  ghost function Delivered(msgs: seq<Msg>, n: nat): seq<seq<Byte>>
    requires n <= |msgs| && forall k :: 0 <= k < |msgs| ==> Fits(msgs[k].buf)
    reads set k | 0 <= k < |msgs| :: msgs[k].buf.arr
  {
    if n == 0 then [] else Delivered(msgs, n - 1) + Segmented(msgs[n - 1])
  }

  /** The size is set, once, just when the message is several datagrams. */
  ghost predicate SetOnce(m: Msg)
    reads m.buf.arr
  {
    Fits(m.buf) && if |Segmented(m)| > 1 then |m.gso| == 1 else m.gso == []
  }

  lemma MessageDelivers(msgs: seq<Msg>, plan: seq<Plan>, bufs: seq<Slice>, data: seq<seq<Byte>>, max: nat, k: nat)
    requires Made(msgs, plan, bufs, data, |data|) && AllPlanned(plan, data, |data|, max) && NonEmpty(data) && k < |msgs|
    ensures Yields(msgs, plan, data, k) && SetOnce(msgs[k])
  {
    assert PlannedAt(plan, data, |data|, max, k);
    assert MadeAt(msgs, plan, bufs, data, |data|, k);
    RunSegmented(msgs[k], plan[k], Ending(plan, k, |data|), bufs, data, max);
  }

  ghost predicate Yields(msgs: seq<Msg>, plan: seq<Plan>, data: seq<seq<Byte>>, k: nat)
    reads if k < |msgs| then {msgs[k].buf.arr} else {}
  {
    && k < |msgs| == |plan| && plan[k].start <= Ending(plan, k, |data|) <= |data|
    && Fits(msgs[k].buf) && Segmented(msgs[k]) == data[plan[k].start..Ending(plan, k, |data|)]
  }

  lemma {:induction false} DeliveredUpTo(msgs: seq<Msg>, plan: seq<Plan>, data: seq<seq<Byte>>, n: nat)
    requires Starts(plan, |data|) && n <= |msgs| == |plan| && forall k :: 0 <= k < |msgs| ==> Fits(msgs[k].buf)
    requires forall k: nat :: k < |msgs| ==> Yields(msgs, plan, data, k)
    ensures n > 0 ==> Yields(msgs, plan, data, n - 1)
    ensures Delivered(msgs, n) == data[..if n == 0 then 0 else Ending(plan, n - 1, |data|)]
  {
    if n > 0 {
      DeliveredUpTo(msgs, plan, data, n - 1);
      assert Yields(msgs, plan, data, n - 1);
      var s, e := plan[n - 1].start, Ending(plan, n - 1, |data|);
      assert n > 1 ==> Ending(plan, n - 2, |data|) == s;
      assert data[..s] + data[s..e] == data[..e];
    }
  }

  /**
   * Segmented at the size set on them, the messages deliver exactly the datagrams, in order;
   * the size is set, once, on those and only those that hold several datagrams.
   */
  ghost predicate Delivers(msgs: seq<Msg>, data: seq<seq<Byte>>)
    reads set k | 0 <= k < |msgs| :: msgs[k].buf.arr
  {
    && (forall k :: 0 <= k < |msgs| ==> Fits(msgs[k].buf) && SetOnce(msgs[k]))
    && Delivered(msgs, |msgs|) == data
  }

  lemma {:induction false} AllDelivered(msgs: seq<Msg>, plan: seq<Plan>, bufs: seq<Slice>, data: seq<seq<Byte>>,
        max: nat)
    requires Made(msgs, plan, bufs, data, |data|) && AllPlanned(plan, data, |data|, max) && NonEmpty(data)
    ensures Delivers(msgs, data)
  {
    forall k: nat | k < |msgs| ensures SetOnce(msgs[k]) { MessageDelivers(msgs, plan, bufs, data, max, k); }
    forall k: nat | k < |msgs| ensures Yields(msgs, plan, data, k) { MessageDelivers(msgs, plan, bufs, data, max, k); }
    DeliveredUpTo(msgs, plan, data, |msgs|);
    assert data[..|data|] == data;
  }

  // ---------- what is joined ----------

  lemma {:induction false} JoinedGrows(data: seq<seq<Byte>>, s: nat, e: nat, n: nat)
    requires s <= e <= n <= |data|
    ensures |Joined(data, s, e)| <= |Joined(data, s, n)|
  {
    if e < n { JoinedGrows(data, s, e, n - 1); }
  }

  /** Equal sizes; the last may be shorter. */
  predicate EqualSizes(data: seq<seq<Byte>>) {
    && (forall j :: 0 <= j < |data| - 1 ==> |data[j]| == |data[0]|)
    && (data != [] ==> |data[|data| - 1]| <= |data[0]|)
  }

  lemma RunGoesOn(plan: seq<Plan>, data: seq<seq<Byte>>, max: nat)
    requires AllPlanned(plan, data, |data|, max) && 1 <= |data| <= 64 && EqualSizes(data)
    requires |Joined(data, 0, |data|)| <= max && |Joined(data, 0, |data|)| <= plan[0].capacity
    ensures |plan| == 1 && plan[0].gso == if |data| > 1 then [|data[0]|] else []
  {
    assert PlannedAt(plan, data, |data|, max, 0);
    if |plan| > 1 {
      var e := plan[1].start;
      assert PlannedAt(plan, data, |data|, max, 1);
      JoinedNext(data, 0, e);
      JoinedGrows(data, 0, e + 1, |data|);
      assert CanJoin(data, 0, e, max, plan[0].capacity);
    }
  }

  /**
   * Up to 64 datagrams of one size, with room in the first one's buffer and together within
   * the largest payload, leave as one message that carries their size.
   */
  lemma EqualSizesShareOneMessage(msgs: seq<Msg>, plan: seq<Plan>, bufs: seq<Slice>, data: seq<seq<Byte>>, isV6: bool)
    requires Made(msgs, plan, bufs, data, |data|) && AllPlanned(plan, data, |data|, MaxPayload(isV6))
    requires 1 <= |data| <= 64 && EqualSizes(data)
    requires |Joined(data, 0, |data|)| <= (if isV6 then 65527 else 65507)
    requires |Joined(data, 0, |data|)| <= Capacity(bufs[0])
    ensures |msgs| == 1 && msgs[0].gso == if |data| > 1 then [|data[0]|] else []
  {
    assert MadeAt(msgs, plan, bufs, data, |data|, 0);
    RunGoesOn(plan, data, MaxPayload(isV6));
  }

  // ---------- the loop ----------

  /** The loop: what is made of the first datagrams, for more and more of them. */
  method TakeAll(bufs: seq<Slice>, max: nat, ghost data: seq<seq<Byte>>, ghost arrs: set<array<Byte>>)
    returns (msgs: seq<Msg>, ghost plan: seq<Plan>)
    requires Disjoint(bufs) && Intact(bufs, data) && max < 0x1_0000 && Within(bufs, arrs)
    modifies arrs
    ensures Intact(bufs, data)
    ensures Made(msgs, plan, bufs, data, |bufs|) && AllPlanned(plan, data, |bufs|, max)
  {
    msgs, plan := [], [];
    var gsoSize: nat, dgramCnt: nat, endBatch := 0, 0, false;
    var i: nat := 0;
    while i < |bufs|
      invariant i <= |bufs| && Taken(msgs, plan, bufs, data, i, max, (gsoSize, dgramCnt, endBatch))
    {
      msgs, gsoSize, dgramCnt, endBatch, plan := Take(msgs, bufs, i, max, gsoSize, dgramCnt, endBatch, data, plan,
          arrs);
      i := i + 1;
    }
  }

  /**
   * The messages stand for consecutive maximal runs of the datagrams, and the datagrams
   * themselves, on disjoint arrays, read as before: a retry without offload can send them.
   */
  method CoalesceMessages(bufs: seq<Slice>, isV6: bool, ghost data: seq<seq<Byte>>)
    returns (msgs: seq<Msg>, ghost plan: seq<Plan>)
    requires Disjoint(bufs) && Intact(bufs, data)
    modifies set j | 0 <= j < |bufs| :: bufs[j].arr
    ensures Intact(bufs, data)
    ensures Made(msgs, plan, bufs, data, |bufs|) && AllPlanned(plan, data, |bufs|, MaxPayload(isV6))
    ensures NonEmpty(data) ==> Delivers(msgs, data)
  {
    msgs, plan := TakeAll(bufs, MaxPayload(isV6), data, set j | 0 <= j < |bufs| :: bufs[j].arr);
    if NonEmpty(data) { AllDelivered(msgs, plan, bufs, data, MaxPayload(isV6)); }
  }
}
