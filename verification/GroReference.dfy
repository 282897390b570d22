/**
 * What handleGRO of tun/offload_linux.go should make of a batch, said on the bytes of the
 * packets alone: no tables, no items, no buffers. A plan lists, for each packet to be
 * written, the packets it stands for, in sequence order; a group is open as long as others
 * may join it.
 */
module GroReference {
  import opened Bytes
  import GroState
  import opened Wire

  /** The packets in the order they came, and for each what its buffer could hold instead of it. */
  datatype Arrivals = Arrivals(pkts: seq<seq<Byte>>, rooms: seq<int>, udp: bool)

  predicate Proper(b: Arrivals) {
    |b.rooms| == |b.pkts| && forall i :: 0 <= i < |b.rooms| ==> b.rooms[i] <= 0xFFFF
  }

  datatype Plan = Plan(members: map<nat, seq<nat>>, open: set<nat>)

  // ---------- what may be merged ----------

  predicate OneFlow(a: seq<Byte>, b: seq<Byte>) {
    Joinable(a, true) && Joinable(b, true) && SameFlow(a, b)
  }

  /** Packets of one flow. */
  predicate Group(parts: seq<seq<Byte>>) {
    parts != [] && forall j :: 0 <= j < |parts| ==> OneFlow(parts[0], parts[j])
  }

  /** The length of `parts` as one packet with `h` header bytes. */
  function LengthOf(parts: seq<seq<Byte>>, h: nat): int {
    if parts == [] then h else LengthOf(parts[..|parts| - 1], h) + |parts[|parts| - 1]| - h
  }

  predicate Alike(a: seq<Byte>, b: seq<Byte>)
    requires Joinable(a, true) && Joinable(b, true)
  {
    SameOptions(a, b) && SameClass(a, b)
  }

  /** The packet is the next one: nothing shorter came before it, and nothing with PSH. */
  predicate Continues(parts: seq<seq<Byte>>, x: seq<Byte>)
    requires Group(parts) && Joinable(x, true)
  {
    var head, last := parts[0], parts[|parts| - 1];
    && SameFlow(head, x) && Alike(x, head) && Size(last) == Size(head) && Size(x) <= Size(head)
    && (HasTcp(head) ==> SeqNum(x) == (SeqNum(last) + Size(last)) % 0x1_0000_0000 && !Pushed(last))
  }

  /** The packet is the one before the first, without PSH and of its size, or larger than it alone. */
  predicate LeadsTo(parts: seq<seq<Byte>>, x: seq<Byte>)
    requires Group(parts) && Joinable(x, true)
  {
    var head := parts[0];
    && HasTcp(head) && SameFlow(head, x) && Alike(x, head)
    && (SeqNum(x) + Size(x)) % 0x1_0000_0000 == SeqNum(head) && !Pushed(x)
    && (Size(x) == Size(head) || (Size(x) > Size(head) && |parts| == 1))
  }

  datatype Verdict = Pass | Expel | Refuse | Behind | InFront

  /** Checksums are looked at when there is something to merge: the first packet's once. */
  function Checked(parts: seq<seq<Byte>>, x: seq<Byte>, verdict: Verdict): Verdict
    requires Group(parts) && Joinable(x, true)
  {
    if |parts| == 1 && !TransportSumHolds(parts[0]) then Expel
    else if !TransportSumHolds(x) then Refuse
    else verdict
  }

  /** Packet `i` and an open group of its flow. The merged packet lies in the buffer of its first. */
  function Judge(parts: seq<seq<Byte>>, x: seq<Byte>, groupRoom: int, ownRoom: int): Verdict
    requires Group(parts) && Joinable(x, true)
  {
    var length := LengthOf(parts, BodyAt(parts[0])) + Size(x);
    if Continues(parts, x) then if length <= groupRoom then Checked(parts, x, Behind) else Pass
    else if LeadsTo(parts, x) && length <= ownRoom then Checked(parts, x, InFront)
    else Pass
  }

  // ---------- one packet ----------

  function Alone(p: Plan, i: nat): Plan {
    p.(members := p.members[i := [i]])
  }

  function Started(p: Plan, i: nat): Plan {
    Plan(p.members[i := [i]], p.open + {i})
  }

  /** Group `w` is open and of the flow of packet `i`. */
  predicate Candidate(b: Arrivals, p: Plan, i: nat, w: nat)
    requires i < |b.pkts|
  {
    && w in p.open && w in p.members && Joinable(b.pkts[i], true)
    && Group(GroState.Parts(b.pkts, p.members[w])) && SameFlow(GroState.Parts(b.pkts, p.members[w])[0], b.pkts[i])
    && p.members[w][0] < |b.rooms|
  }

  function VerdictOn(b: Arrivals, p: Plan, i: nat, w: nat): Verdict
    requires i < |b.pkts| == |b.rooms| && Candidate(b, p, i, w)
  {
    Judge(GroState.Parts(b.pkts, p.members[w]), b.pkts[i], b.rooms[p.members[w][0]], b.rooms[i])
  }

  function Merge(p: Plan, i: nat, w: nat, front: bool): Plan
    requires w in p.members
  {
    p.(members := p.members[w := if front then [i] + p.members[w] else p.members[w] + [i]])
  }

  /**
   * A segment tries the groups below `c`, the newest first; one that turns out to be a lone
   * invalid packet closes, and if the segment itself is invalid it stays alone.
   */
  function Settle(b: Arrivals, p: Plan, i: nat, c: nat): Plan
    requires i < |b.pkts| == |b.rooms|
    decreases c
  {
    if c == 0 then Started(p, i)
    else if !Candidate(b, p, i, c - 1) then Settle(b, p, i, c - 1)
    else
      match VerdictOn(b, p, i, c - 1)
      case Pass => Settle(b, p, i, c - 1)
      case Expel => Settle(b, p.(open := p.open - {c - 1}), i, c - 1)
      case Refuse => Alone(p, i)
      case Behind => Merge(p, i, c - 1, false)
      case InFront => Merge(p, i, c - 1, true)
  }

  /** A datagram tries the newest group of its flow only: its flow stays in order. */
  function Follow(b: Arrivals, p: Plan, i: nat, c: nat): Plan
    requires i < |b.pkts| == |b.rooms|
    decreases c
  {
    if c == 0 then Started(p, i)
    else if !Candidate(b, p, i, c - 1) then Follow(b, p, i, c - 1)
    else if VerdictOn(b, p, i, c - 1).Behind? then Merge(p, i, c - 1, false)
    else Started(p, i)
  }

  function Handle(b: Arrivals, p: Plan, i: nat): Plan
    requires i < |b.pkts| == |b.rooms|
  {
    if !Joinable(b.pkts[i], b.udp) then Alone(p, i)
    else if HasTcp(b.pkts[i]) then Settle(b, p, i, i)
    else Follow(b, p, i, i)
  }

  /** The first `n` packets. */
  function Reference(b: Arrivals, n: nat): Plan
    requires n <= |b.pkts| == |b.rooms|
  {
    if n == 0 then Plan(map[], {}) else Handle(b, Reference(b, n - 1), n - 1)
  }

  // ---------- groups of other flows do not matter ----------

  ghost predicate Between(b: Arrivals, p: Plan, i: nat, lo: nat, hi: nat)
    requires i < |b.pkts|
  {
    forall w: nat :: lo <= w < hi ==> !Candidate(b, p, i, w)
  }

  lemma {:induction false} SettlePasses(b: Arrivals, p: Plan, i: nat, lo: nat, hi: nat)
    requires i < |b.pkts| == |b.rooms| && lo <= hi && Between(b, p, i, lo, hi)
    ensures Settle(b, p, i, hi) == Settle(b, p, i, lo)
  {
    if lo < hi { SettlePasses(b, p, i, lo, hi - 1); }
  }

  lemma {:induction false} FollowPasses(b: Arrivals, p: Plan, i: nat, lo: nat, hi: nat)
    requires i < |b.pkts| == |b.rooms| && lo <= hi && Between(b, p, i, lo, hi)
    ensures Follow(b, p, i, hi) == Follow(b, p, i, lo)
  {
    if lo < hi { FollowPasses(b, p, i, lo, hi - 1); }
  }

  // ---------- runs ----------

  function Upto(n: nat): (r: seq<nat>)
    ensures |r| == n && forall j :: 0 <= j < n ==> r[j] == j
  {
    seq(n, j => j)
  }

  function Downto(n: nat): (r: seq<nat>)
    ensures |r| == n && forall j :: 0 <= j < n ==> r[j] == n - 1 - j
  {
    seq(n, j requires 0 <= j < n => n - 1 - j)
  }

  /** A valid packet of the flow of the first, alike. */
  predicate Member(b: Arrivals, j: nat) {
    && j < |b.pkts| && Joinable(b.pkts[0], b.udp) && Joinable(b.pkts[j], b.udp) && TransportSumHolds(b.pkts[j])
    && SameFlow(b.pkts[0], b.pkts[j]) && Alike(b.pkts[j], b.pkts[0])
  }

  predicate Members(b: Arrivals) {
    Proper(b) && Member(b, 0) && forall j :: 0 <= j < |b.pkts| ==> Member(b, j)
  }

  /** Packet `j + 1` continues where packet `j`, full and without PSH, ends. */
  predicate Precedes(b: Arrivals, j: nat) {
    && Member(b, j) && Member(b, j + 1)
    && var x, y := b.pkts[j], b.pkts[j + 1];
       && Size(x) == Size(b.pkts[0]) && Size(y) <= Size(x)
       && (HasTcp(b.pkts[0]) ==> SeqNum(y) == (SeqNum(x) + Size(x)) % 0x1_0000_0000 && !Pushed(x))
  }

  /** Segments in order, or datagrams; the first one's buffer has room for them all. */
  predicate InOrder(b: Arrivals) {
    && Members(b) && (forall j :: 0 <= j < |b.pkts| - 1 ==> Precedes(b, j))
    && LengthOf(b.pkts, BodyAt(b.pkts[0])) <= b.rooms[0]
  }

  /** Segment `j + 1`, full and without PSH, ends where segment `j` starts; its buffer has room for all so far. */
  predicate Leads(b: Arrivals, j: nat) {
    && Member(b, j) && Member(b, j + 1) && HasTcp(b.pkts[0]) && |b.rooms| == |b.pkts|
    && var x, y := b.pkts[j], b.pkts[j + 1];
       && (Size(y) == Size(x) || (j == 0 && Size(y) > Size(x)))
       && (SeqNum(y) + Size(y)) % 0x1_0000_0000 == SeqNum(x) && !Pushed(y)
       && LengthOf(b.pkts[..j + 2], BodyAt(b.pkts[0])) <= b.rooms[j + 1]
  }

  predicate BackToFront(b: Arrivals) {
    Members(b) && forall j :: 0 <= j < |b.pkts| - 1 ==> Leads(b, j)
  }

  // ---------- the steps of a run ----------

  function First(n: nat): Plan {
    Plan(map[0 := Upto(n)], {0})
  }

  function Last(n: nat): Plan {
    Plan(map[0 := Downto(n)], {0})
  }

  lemma UptoNext(b: Arrivals, n: nat)
    requires n <= |b.pkts|
    ensures GroState.Parts(b.pkts, Upto(n)) == b.pkts[..n] && Upto(n) + [n] == Upto(n + 1)
  {
  }

  lemma DowntoNext(n: nat)
    ensures [n] + Downto(n) == Downto(n + 1)
  {
  }

  lemma {:induction false} Longer(parts: seq<seq<Byte>>, h: nat, m: nat, n: nat)
    requires m <= n <= |parts| && forall j :: 0 <= j < |parts| ==> |parts[j]| >= h
    ensures LengthOf(parts[..m], h) <= LengthOf(parts[..n], h)
  {
    if m < n {
      Longer(parts, h, m, n - 1);
      assert parts[..n][..n - 1] == parts[..n - 1];
    }
  }

  lemma MembersGroup(b: Arrivals, n: nat)
    requires Members(b) && 1 <= n <= |b.pkts|
    ensures Group(b.pkts[..n])
  {
    forall j | 0 <= j < n ensures OneFlow(b.pkts[0], b.pkts[..n][j]) {
      assert Member(b, j);
    }
  }

  lemma PrecedesAt(b: Arrivals, n: nat)
    requires InOrder(b) && 1 <= n < |b.pkts|
    ensures Member(b, n) && Precedes(b, n - 1)
  {
  }

  lemma RunContinues(b: Arrivals, n: nat)
    requires InOrder(b) && 1 <= n < |b.pkts|
    ensures Group(b.pkts[..n]) && Joinable(b.pkts[n], true) && Continues(b.pkts[..n], b.pkts[n])
  {
    MembersGroup(b, n);
    PrecedesAt(b, n);
    NextContinues(b, n, b.pkts[..n]);
  }

  lemma NextContinues(b: Arrivals, n: nat, parts: seq<seq<Byte>>)
    requires 1 <= n < |b.pkts| && Member(b, n) && Precedes(b, n - 1)
    requires Group(parts) && parts[0] == b.pkts[0] && parts[|parts| - 1] == b.pkts[n - 1]
    ensures Continues(parts, b.pkts[n])
  {
  }

  lemma JudgedBehind(parts: seq<seq<Byte>>, x: seq<Byte>, groupRoom: int, ownRoom: int)
    requires Group(parts) && Joinable(x, true) && Continues(parts, x)
    requires LengthOf(parts, BodyAt(parts[0])) + Size(x) <= groupRoom
    requires TransportSumHolds(parts[0]) && TransportSumHolds(x)
    ensures Judge(parts, x, groupRoom, ownRoom) == Behind
  {
  }

  lemma JudgedInFront(parts: seq<seq<Byte>>, x: seq<Byte>, groupRoom: int, ownRoom: int)
    requires Group(parts) && Joinable(x, true) && !Continues(parts, x) && LeadsTo(parts, x)
    requires LengthOf(parts, BodyAt(parts[0])) + Size(x) <= ownRoom
    requires TransportSumHolds(parts[0]) && TransportSumHolds(x)
    ensures Judge(parts, x, groupRoom, ownRoom) == InFront
  {
  }

  lemma MemberValid(b: Arrivals, j: nat)
    requires Member(b, j)
    ensures Joinable(b.pkts[j], true) && TransportSumHolds(b.pkts[j])
  {
  }

  /** In order, the packet goes behind the one group. */
  lemma NextGoesBehind(b: Arrivals, n: nat)
    requires InOrder(b) && 1 <= n < |b.pkts|
    ensures Candidate(b, First(n), n, 0) && VerdictOn(b, First(n), n, 0) == Behind
  {
    UptoNext(b, n);
    RunContinues(b, n);
    RoomForNext(b, n, BodyAt(b.pkts[0]));
    MemberValid(b, 0);
    MemberValid(b, n);
    JudgedBehind(b.pkts[..n], b.pkts[n], b.rooms[0], b.rooms[n]);
  }

  lemma RoomForNext(b: Arrivals, n: nat, h: nat)
    requires Members(b) && n < |b.pkts| && h == BodyAt(b.pkts[0])
    ensures Joinable(b.pkts[n], true) && LengthOf(b.pkts[..n], h) + Size(b.pkts[n]) <= LengthOf(b.pkts, h)
  {
    assert Member(b, n);
    forall j | 0 <= j < |b.pkts| ensures |b.pkts[j]| >= h { assert Member(b, j); }
    LongerNext(b.pkts, h, n);
  }

  lemma LongerNext(parts: seq<seq<Byte>>, h: nat, n: nat)
    requires n < |parts| && forall j :: 0 <= j < |parts| ==> |parts[j]| >= h
    ensures LengthOf(parts[..n], h) + |parts[n]| - h <= LengthOf(parts, h)
  {
    Longer(parts, h, n + 1, |parts|);
    assert parts[..n + 1][..n] == parts[..n] && parts[..|parts|] == parts;
  }

  lemma BehindFirst(b: Arrivals, n: nat)
    requires InOrder(b) && 1 <= n < |b.pkts|
    ensures Handle(b, First(n), n) == First(n + 1)
  {
    NextGoesBehind(b, n);
    UptoNext(b, n);
    assert Member(b, n);
    SettlePasses(b, First(n), n, 1, n);
    FollowPasses(b, First(n), n, 1, n);
  }

  lemma FirstStands(b: Arrivals)
    requires Members(b)
    ensures Reference(b, 1) == First(1) == Last(1)
  {
    assert Member(b, 0) && Upto(1) == [0] == Downto(1);
    var p := Reference(b, 0);
    assert p == Plan(map[], {}) && Handle(b, p, 0) == Started(p, 0);
  }

  predicate Grows(b: Arrivals, n: nat, plan: nat -> Plan)
    requires n < |b.pkts| == |b.rooms|
  {
    Handle(b, plan(n), n) == plan(n + 1)
  }

  lemma {:induction false} ByInduction(b: Arrivals, n: nat, plan: nat -> Plan)
    requires 1 <= n <= |b.pkts| == |b.rooms| && Reference(b, 1) == plan(1)
    requires forall k :: 1 <= k < n ==> Grows(b, k, plan)
    ensures Reference(b, n) == plan(n)
  {
    if n > 1 {
      ByInduction(b, n - 1, plan);
      assert Grows(b, n - 1, plan);
    }
  }

  /** A run of segments in order, or of datagrams, ends as one group with all of them. */
  lemma InOrderMerges(b: Arrivals, n: nat)
    requires InOrder(b) && 1 <= n <= |b.pkts|
    ensures Reference(b, n) == First(n)
  {
    FirstStands(b);
    forall k | 1 <= k < n ensures Grows(b, k, First) { BehindFirst(b, k); }
    ByInduction(b, n, First);
  }

  function Backwards(pkts: seq<seq<Byte>>, n: nat): seq<seq<Byte>>
    requires n <= |pkts|
  {
    if n == 0 then [] else [pkts[n - 1]] + Backwards(pkts, n - 1)
  }

  lemma {:induction false} BackwardsAt(pkts: seq<seq<Byte>>, n: nat, j: nat)
    requires n <= |pkts|
    ensures |Backwards(pkts, n)| == n && (j < n ==> Backwards(pkts, n)[j] == pkts[n - 1 - j])
  {
    if n > 0 { BackwardsAt(pkts, n - 1, if j > 0 then j - 1 else 0); }
  }

  lemma BackwardsParts(b: Arrivals, n: nat)
    requires n <= |b.pkts|
    ensures GroState.Parts(b.pkts, Downto(n)) == Backwards(b.pkts, n)
  {
    BackwardsAt(b.pkts, n, 0);
    forall j | 0 <= j < n ensures Backwards(b.pkts, n)[j] == GroState.Parts(b.pkts, Downto(n))[j] {
      BackwardsAt(b.pkts, n, j);
    }
  }

  lemma {:induction false} LengthInFront(x: seq<Byte>, parts: seq<seq<Byte>>, h: nat)
    ensures LengthOf([x] + parts, h) == LengthOf(parts, h) + |x| - h
  {
    if parts != [] {
      var front := parts[..|parts| - 1];
      LengthInFront(x, front, h);
      assert ([x] + parts)[..|parts|] == [x] + front;
    }
  }

  lemma {:induction false} BackwardsLength(pkts: seq<seq<Byte>>, n: nat, h: nat)
    requires n <= |pkts|
    ensures LengthOf(Backwards(pkts, n), h) == LengthOf(pkts[..n], h)
  {
    if n > 0 {
      BackwardsLength(pkts, n - 1, h);
      LengthInFront(pkts[n - 1], Backwards(pkts, n - 1), h);
      assert pkts[..n][..n - 1] == pkts[..n - 1];
    }
  }

  lemma SameFlowTurns(x: seq<Byte>, y: seq<Byte>, z: seq<Byte>)
    requires Joinable(x, true) && Joinable(y, true) && Joinable(z, true)
    requires SameFlow(x, y) && SameFlow(x, z) && Alike(y, x) && Alike(z, x)
    ensures SameFlow(y, z) && Alike(z, y) && BodyAt(z) == BodyAt(x) && HasTcp(y) == HasTcp(x) == HasTcp(z)
  {
  }

  lemma AllAlike(b: Arrivals, i: nat, j: nat)
    requires Members(b) && i < |b.pkts| && j < |b.pkts|
    ensures OneFlow(b.pkts[i], b.pkts[j]) && Alike(b.pkts[j], b.pkts[i]) && BodyAt(b.pkts[j]) == BodyAt(b.pkts[0])
        && HasTcp(b.pkts[i]) == HasTcp(b.pkts[0]) == HasTcp(b.pkts[j])
  {
    assert Member(b, 0) && Member(b, i) && Member(b, j);
    SameFlowTurns(b.pkts[0], b.pkts[i], b.pkts[j]);
  }

  lemma BackwardsInFlow(b: Arrivals, n: nat, j: nat)
    requires Members(b) && 1 <= n <= |b.pkts| && j < n == |Backwards(b.pkts, n)|
    ensures OneFlow(b.pkts[n - 1], Backwards(b.pkts, n)[j])
  {
    BackwardsAt(b.pkts, n, j);
    AllAlike(b, n - 1, n - 1 - j);
  }

  lemma BackwardsGroup(b: Arrivals, n: nat)
    requires Members(b) && 1 <= n <= |b.pkts|
    ensures Group(Backwards(b.pkts, n)) && |Backwards(b.pkts, n)| == n && Backwards(b.pkts, n)[0] == b.pkts[n - 1]
        && Backwards(b.pkts, n)[n - 1] == b.pkts[0]
  {
    BackwardsAt(b.pkts, n, 0);
    BackwardsAt(b.pkts, n, n - 1);
    forall j | 0 <= j < n ensures OneFlow(b.pkts[n - 1], Backwards(b.pkts, n)[j]) { BackwardsInFlow(b, n, j); }
  }

  /** The bytes from the end of packet `n` to the start of the first to come. */
  predicate Away(b: Arrivals, n: nat, d: int) {
    && n < |b.pkts| && Joinable(b.pkts[0], true) && Joinable(b.pkts[n], true) && HasTcp(b.pkts[0]) && HasTcp(b.pkts[n])
    && d >= 0 && (SeqNum(b.pkts[n]) + d) % 0x1_0000_0000 == SeqNum(b.pkts[0])
  }

  lemma NotAway(b: Arrivals, h: nat)
    requires Members(b) && HasTcp(b.pkts[0])
    ensures Away(b, 0, Past(b, 0, h))
  {
    assert b.pkts[..1] == [b.pkts[0]];
    LengthOfOne(b.pkts[0], h);
  }

  lemma LengthOfOne(x: seq<Byte>, h: nat)
    ensures LengthOf([x], h) == |x|
  {
    assert [x][..0] == [];
  }

  function Past(b: Arrivals, n: nat, h: nat): int
    requires n < |b.pkts|
  {
    LengthOf(b.pkts[..n + 1], h) - |b.pkts[0]|
  }

  lemma PastNext(b: Arrivals, n: nat, h: nat)
    requires BackToFront(b) && 1 <= n < |b.pkts| && h == BodyAt(b.pkts[0])
    ensures Leads(b, n - 1) && Past(b, n, h) == Past(b, n - 1, h) + Size(b.pkts[n])
  {
    RunIsShort(b, n, h);
    assert Leads(b, n - 1);
  }

  predicate KeepsAway(b: Arrivals, k: nat, h: nat) {
    1 <= k < |b.pkts| && (Away(b, k - 1, Past(b, k - 1, h)) ==> Away(b, k, Past(b, k, h)))
  }

  lemma Wraps(x: nat, g: nat, y: nat, t: nat, z: nat)
    requires (x + g) % 0x1_0000_0000 == y && (y + t) % 0x1_0000_0000 == z
    ensures (x + (g + t)) % 0x1_0000_0000 == z
  {
  }

  lemma FurtherAway(b: Arrivals, k: nat, d: nat, e: int)
    requires 1 <= k < |b.pkts| && Leads(b, k - 1) && Away(b, k - 1, d) && e == d + Size(b.pkts[k])
    ensures Away(b, k, e)
  {
    var x := b.pkts[k];
    Wraps(SeqNum(x), Size(x), SeqNum(b.pkts[k - 1]), d, SeqNum(b.pkts[0]));
  }

  lemma LeadKeepsAway(b: Arrivals, k: nat, h: nat)
    requires 1 <= k < |b.pkts| && Leads(b, k - 1) && Past(b, k, h) == Past(b, k - 1, h) + Size(b.pkts[k])
    ensures KeepsAway(b, k, h)
  {
    if Away(b, k - 1, Past(b, k - 1, h)) { FurtherAway(b, k, Past(b, k - 1, h), Past(b, k, h)); }
  }

  lemma LeadsAway(b: Arrivals, k: nat, h: nat)
    requires BackToFront(b) && 1 <= k < |b.pkts| && h == BodyAt(b.pkts[0])
    ensures KeepsAway(b, k, h)
  {
    PastNext(b, k, h);
    LeadKeepsAway(b, k, h);
  }

  lemma {:induction false} AwayByInduction(b: Arrivals, n: nat, h: nat)
    requires n < |b.pkts| && Away(b, 0, Past(b, 0, h)) && forall k :: 1 <= k <= n ==> KeepsAway(b, k, h)
    ensures Away(b, n, Past(b, n, h))
  {
    if n > 0 {
      AwayByInduction(b, n - 1, h);
      assert KeepsAway(b, n, h);
    }
  }

  lemma Distance(b: Arrivals, n: nat, h: nat)
    requires BackToFront(b) && n < |b.pkts| && HasTcp(b.pkts[0]) && h == BodyAt(b.pkts[0])
    ensures Away(b, n, Past(b, n, h))
  {
    NotAway(b, h);
    forall k | 1 <= k <= n ensures KeepsAway(b, k, h) { LeadsAway(b, k, h); }
    AwayByInduction(b, n, h);
  }

  lemma NoLoop(x: nat, t: nat, y: nat, g: nat)
    requires (x + t) % 0x1_0000_0000 == y && 0 < t + g < 0x1_0000_0000 && x < 0x1_0000_0000
    ensures x != (y + g) % 0x1_0000_0000
  {
  }

  lemma RunLeadsTo(b: Arrivals, n: nat, parts: seq<seq<Byte>>)
    requires BackToFront(b) && 1 <= n < |b.pkts| && Group(parts) && |parts| == n && parts[0] == b.pkts[n - 1]
    ensures Joinable(b.pkts[n], true) && HasTcp(b.pkts[0]) && LeadsTo(parts, b.pkts[n])
  {
    AllAlike(b, n - 1, n);
    assert Leads(b, n - 1);
    NextLeads(b, n, parts);
  }

  lemma NextLeads(b: Arrivals, n: nat, parts: seq<seq<Byte>>)
    requires 1 <= n < |b.pkts| && Leads(b, n - 1) && Group(parts) && |parts| == n && parts[0] == b.pkts[n - 1]
    requires OneFlow(parts[0], b.pkts[n]) && Alike(b.pkts[n], parts[0]) && HasTcp(parts[0])
    ensures LeadsTo(parts, b.pkts[n])
  {
  }

  lemma LeadsAt(b: Arrivals, n: nat)
    requires BackToFront(b) && 1 <= n < |b.pkts|
    ensures Leads(b, n - 1) && BodyAt(b.pkts[n]) == BodyAt(b.pkts[0]) && b.rooms[n] <= 0xFFFF
  {
    AllAlike(b, 0, n);
  }

  /** All together are shorter than the sequence space. */
  lemma RunIsShort(b: Arrivals, n: nat, h: nat)
    requires BackToFront(b) && 1 <= n < |b.pkts| && h == BodyAt(b.pkts[0])
    ensures Joinable(b.pkts[n], true) && LengthOf(b.pkts[..n], h) + Size(b.pkts[n]) <= b.rooms[n] <= 0xFFFF
    ensures LengthOf(b.pkts[..n + 1], h) == LengthOf(b.pkts[..n], h) + Size(b.pkts[n])
  {
    LeadsAt(b, n);
    assert b.pkts[..n + 1][..n] == b.pkts[..n];
  }

  lemma DoesNotContinue(b: Arrivals, n: nat, parts: seq<seq<Byte>>, h: nat)
    requires BackToFront(b) && 1 <= n < |b.pkts| && Group(parts) && parts[|parts| - 1] == b.pkts[0]
    requires Joinable(b.pkts[n], true) && HasTcp(b.pkts[0]) && h == BodyAt(b.pkts[0]) && parts[0] == b.pkts[n - 1]
    ensures !Continues(parts, b.pkts[n])
  {
    Distance(b, n, h);
    RunIsShort(b, n, h);
    AllAlike(b, 0, n - 1);
    NoLoop(SeqNum(b.pkts[n]), Past(b, n, h), SeqNum(b.pkts[0]), Size(b.pkts[0]));
  }

  /** Back to front, the packet goes in front of the one group. */
  lemma NextGoesInFront(b: Arrivals, n: nat)
    requires BackToFront(b) && 1 <= n < |b.pkts|
    ensures Candidate(b, Last(n), n, 0) && VerdictOn(b, Last(n), n, 0) == InFront
  {
    var parts, h := Backwards(b.pkts, n), BodyAt(b.pkts[0]);
    BackwardsParts(b, n);
    BackwardsGroup(b, n);
    BackwardsLength(b.pkts, n, h);
    RunLeadsTo(b, n, parts);
    RunIsShort(b, n, h);
    DoesNotContinue(b, n, parts, h);
    MemberValid(b, n - 1);
    MemberValid(b, n);
    AllAlike(b, 0, n - 1);
    JudgedInFront(parts, b.pkts[n], b.rooms[n - 1], b.rooms[n]);
  }

  lemma SettlesInFront(b: Arrivals, p: Plan, i: nat)
    requires i < |b.pkts| == |b.rooms| && Candidate(b, p, i, 0) && VerdictOn(b, p, i, 0) == InFront
    requires i >= 1 && Between(b, p, i, 1, i) && Joinable(b.pkts[i], b.udp) && HasTcp(b.pkts[i])
    ensures Handle(b, p, i) == Merge(p, i, 0, true)
  {
    SettlePasses(b, p, i, 1, i);
  }

  lemma InFrontOfLast(b: Arrivals, n: nat)
    requires BackToFront(b) && 1 <= n < |b.pkts|
    ensures Handle(b, Last(n), n) == Last(n + 1)
  {
    NextGoesInFront(b, n);
    DowntoNext(n);
    assert Member(b, n) && Leads(b, n - 1);
    AllAlike(b, 0, n);
    SettlesInFront(b, Last(n), n);
  }

  /** A run of segments back to front ends as one group with all of them, turned round. */
  lemma BackToFrontMerges(b: Arrivals, n: nat)
    requires BackToFront(b) && 1 <= n <= |b.pkts|
    ensures Reference(b, n) == Last(n)
  {
    FirstStands(b);
    forall k | 1 <= k < n ensures Grows(b, k, Last) { InFrontOfLast(b, k); }
    ByInduction(b, n, Last);
  }
}
