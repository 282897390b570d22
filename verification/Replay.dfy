/**
 * The anti-replay window of replay/replay.go (section 2 of RFC 6479): a ring of 128
 * 64-bit blocks that slides forward with the newest counter.
 *
 * The reference is a history: the newest counter and the set of all counters accepted
 * since the last Reset, with no ring and no forgetting.
 */
module Replay {

  const BLOCK_BITS: nat := 64
  const RING_BLOCKS: nat := 128
  const WINDOW_SIZE: nat := (RING_BLOCKS - 1) * BLOCK_BITS

  // ---------- the reference ----------

  datatype History = History(last: nat, seen: set<nat>)

  const EMPTY: History := History(0, {})

  /** Accepted: below the limit, not too far behind the newest counter, and never seen. */
  predicate Accepts(h: History, counter: nat, limit: nat) {
    && counter < limit
    && (counter > h.last || h.last - counter <= WINDOW_SIZE)
    && counter !in h.seen
  }

  function Record(h: History, counter: nat, limit: nat): History {
    if !Accepts(h, counter, limit) then h
    else History(if counter > h.last then counter else h.last, h.seen + {counter})
  }

  datatype Call = Reset | Validate(counter: nat, limit: nat)

  function Apply(h: History, c: Call): History {
    match c
    case Reset => EMPTY
    case Validate(counter, limit) => Record(h, counter, limit)
  }

  /** The answers of a whole call sequence. */
  function Answers(h: History, calls: seq<Call>): (r: seq<bool>)
    ensures |r| == |calls|
    decreases |calls|
  {
    if calls == [] then []
    else [calls[0].Validate? && Accepts(h, calls[0].counter, calls[0].limit)] + Answers(Apply(h, calls[0]), calls[1..])
  }

  lemma {:induction false} SeenStaysRejected(h: History, calls: seq<Call>, j: nat)
    requires j < |calls| && calls[j].Validate? && calls[j].counter in h.seen
    requires forall k :: 0 <= k < j ==> calls[k] != Reset
    ensures !Answers(h, calls)[j]
    decreases j
  {
    if j > 0 {
      assert calls[0].Validate?;
      SeenStaysRejected(Apply(h, calls[0]), calls[1..], j - 1);
    }
  }

  /** No counter is accepted twice without a Reset in between, over any call sequence. */
  lemma {:induction false} NoReplay(h: History, calls: seq<Call>, i: nat, j: nat)
    requires i < j < |calls| && calls[i].Validate? && calls[j].Validate?
    requires calls[i].counter == calls[j].counter
    requires forall k :: i < k < j ==> calls[k] != Reset
    requires Answers(h, calls)[i]
    ensures !Answers(h, calls)[j]
    decreases i
  {
    var h' := Apply(h, calls[0]);
    if i == 0 {
      SeenStaysRejected(h', calls[1..], j - 1);
    } else {
      NoReplay(h', calls[1..], i - 1, j - 1);
    }
  }

  // ---------- the ring ----------

  /** A uint64 block by its 64 bits; `old | 1 << bit` is the update of one of them. */
  type Block = b: seq<bool> | |b| == BLOCK_BITS witness seq(BLOCK_BITS, _ => false)

  function Clear(): (w: Block)
    ensures forall i :: 0 <= i < BLOCK_BITS ==> !w[i]
  {
    seq(BLOCK_BITS, _ => false)
  }

  /** The blocks that the window of `last` covers: its own and the 127 before it. */
  predicate Covers(last: nat, block: nat) {
    block <= last / BLOCK_BITS < block + RING_BLOCKS
  }

  function BlockOf(counter: nat): nat {
    counter / BLOCK_BITS
  }

  function SlotOf(block: nat): (r: nat)
    ensures r < RING_BLOCKS
  {
    block % RING_BLOCKS
  }

  /**
   * Each covered block holds exactly the history. The other blocks are unconstrained:
   * Reset leaves up to 127 of them with stale bits.
   */
  ghost predicate Agrees(ring: seq<Block>, h: History)
    requires |ring| == RING_BLOCKS
  {
    && (forall c :: c in h.seen ==> c <= h.last)
    && forall c: nat {:trigger BlockOf(c)} :: Covers(h.last, BlockOf(c)) ==>
         (ring[SlotOf(BlockOf(c))][c % BLOCK_BITS] <==> c in h.seen)
  }

  /** The blocks `from..to` (exclusive) are clear, and every other ring slot is as before. */
  ghost predicate Cleared(before: seq<Block>, after: seq<Block>, from: nat, to: nat)
    requires |before| == |after| == RING_BLOCKS
  {
    && (forall b: nat {:trigger SlotOf(b)} :: from <= b < to ==> after[SlotOf(b)] == Clear())
    && forall r: nat :: r < RING_BLOCKS && (forall b: nat {:trigger SlotOf(b)} :: from <= b < to ==> SlotOf(b) != r)
         ==> after[r] == before[r]
  }

  /** Clearing the skipped blocks, at most the whole ring, moves the window forward. */
  lemma Advance(before: seq<Block>, after: seq<Block>, h: History, counter: nat)
    requires |before| == |after| == RING_BLOCKS && Agrees(before, h) && counter > h.last
    requires var current := h.last / BLOCK_BITS;
             var diff := BlockOf(counter) - current;
             Cleared(before, after, current + 1, current + 1 + if diff > RING_BLOCKS then RING_BLOCKS else diff)
    ensures Agrees(after, h.(last := counter))
  {
    var current := h.last / BLOCK_BITS;
    var diff := BlockOf(counter) - current;
    var to := current + 1 + if diff > RING_BLOCKS then RING_BLOCKS else diff;
    forall c: nat | Covers(counter, BlockOf(c))
      ensures after[SlotOf(BlockOf(c))][c % BLOCK_BITS] <==> c in h.seen
    {
      var b := BlockOf(c);
      if b > current {
        var i := SameSlot(b, current + 1, to);
        assert after[SlotOf(i)] == Clear();
      } else {
        forall i: nat | current + 1 <= i < to ensures SlotOf(i) != SlotOf(b) {
          DifferentSlot(b, i);
        }
      }
    }
  }

  /** A block above `from` is either below `to` or shares its slot with a block that is. */
  lemma SameSlot(b: nat, from: nat, to: nat) returns (i: nat)
    requires from <= b && (b < to || to == from + RING_BLOCKS)
    ensures from <= i < to && SlotOf(i) == SlotOf(b)
  {
    i := if b < to then b else from + (b - from) % RING_BLOCKS;
  }

  lemma DifferentSlot(b: nat, i: nat)
    requires b < i < b + RING_BLOCKS
    ensures SlotOf(i) != SlotOf(b)
  {
  }

  /** Setting the bit of a counter in the window records exactly that counter. */
  lemma SetRecords(ring: seq<Block>, h: History, counter: nat)
    requires |ring| == RING_BLOCKS && Agrees(ring, h) && counter <= h.last && Covers(h.last, BlockOf(counter))
    ensures var r := SlotOf(BlockOf(counter));
            Agrees(ring[r := ring[r][counter % BLOCK_BITS := true]], h.(seen := h.seen + {counter}))
  {
    forall c: nat | Covers(h.last, BlockOf(c)) && SlotOf(BlockOf(c)) == SlotOf(BlockOf(counter))
      ensures BlockOf(c) == BlockOf(counter)
    {
      if BlockOf(c) < BlockOf(counter) { DifferentSlot(BlockOf(c), BlockOf(counter)); }
      if BlockOf(counter) < BlockOf(c) { DifferentSlot(BlockOf(counter), BlockOf(c)); }
    }
  }

  class Filter {
    var last: nat
    var ring: array<Block>
    ghost var history: History

    ghost predicate Valid()
      reads this, ring
    {
      && ring.Length == RING_BLOCKS
      && last == history.last
      && Agrees(ring[..], history)
    }

    constructor ()
      ensures Valid() && fresh(ring) && history == EMPTY
    {
      last := 0;
      ring := new Block[RING_BLOCKS](_ => Clear());
      history := EMPTY;
    }

    /** Clears one block only. */
    method Reset()
      requires Valid()
      modifies this, ring
      ensures Valid() && ring == old(ring)
      ensures history == Apply(old(history), Call.Reset)
    {
      last := 0;
      ring[0] := Clear();
      history := EMPTY;
    }

    method ValidateCounter(counter: nat, limit: nat) returns (ok: bool)
      requires Valid()
      modifies this, ring
      ensures Valid() && ring == old(ring)
      ensures ok <==> Accepts(old(history), counter, limit)
      ensures history == Apply(old(history), Validate(counter, limit))
    {
      if counter >= limit {
        return false;
      }
      var indexBlock := counter / BLOCK_BITS;
      if counter > last {
        var current := last / BLOCK_BITS;
        var diff := indexBlock - current;
        if diff > RING_BLOCKS {
          diff := RING_BLOCKS;
        }
        ClearBlocks(current + 1, current + diff + 1);
        Advance(old(ring[..]), ring[..], history, counter);
        last := counter;
        history := history.(last := counter);
      } else if last - counter > WINDOW_SIZE {
        return false;
      }
      ok := CheckAndSet(counter);
    }

    method ClearBlocks(from: nat, to: nat)
      requires ring.Length == RING_BLOCKS && from <= to
      modifies ring
      ensures Cleared(old(ring[..]), ring[..], from, to)
    {
      var i := from;
      while i < to
        invariant from <= i <= to
        invariant Cleared(old(ring[..]), ring[..], from, i)
      {
        ring[SlotOf(i)] := Clear();
        i := i + 1;
      }
    }

    method CheckAndSet(counter: nat) returns (ok: bool)
      requires Valid() && counter <= last && last - counter <= WINDOW_SIZE
      modifies this`history, ring
      ensures Valid()
      ensures ok <==> counter !in old(history).seen
      ensures history == old(history).(seen := old(history).seen + {counter})
    {
      SetRecords(ring[..], history, counter);
      var indexBlock := SlotOf(counter / BLOCK_BITS);
      var before := ring[indexBlock];
      var after := before[counter % BLOCK_BITS := true];
      ring[indexBlock] := after;
      history := history.(seen := history.seen + {counter});
      assert ring[..] == old(ring[..])[indexBlock := after];
      ok := before != after;
    }
  }

  // ---------- the answers, without a history ----------

  function Past(h: History, calls: seq<Call>): History {
    if calls == [] then h else Apply(Past(h, calls[..|calls| - 1]), calls[|calls| - 1])
  }

  lemma {:induction false} PastFront(h: History, calls: seq<Call>)
    requires calls != []
    ensures Past(h, calls) == Past(Apply(h, calls[0]), calls[1..])
  {
    if |calls| > 1 {
      PastFront(h, calls[..|calls| - 1]);
      assert calls[..|calls| - 1][1..] == calls[1..][..|calls| - 2];
    }
  }

  lemma {:induction false} AnswerAt(h: History, calls: seq<Call>, j: nat)
    requires j < |calls|
    ensures Answers(h, calls)[j]
        == (calls[j].Validate? && Accepts(Past(h, calls[..j]), calls[j].counter, calls[j].limit))
    decreases j
  {
    if j > 0 {
      AnswerAt(Apply(h, calls[0]), calls[1..], j - 1);
      PastFront(h, calls[..j]);
      assert calls[..j][1..] == calls[1..][..j - 1];
    }
  }

  /** Call i accepted its counter, and no Reset came since. */
  predicate StandsAt(calls: seq<Call>, i: nat, j: nat) {
    i < j <= |calls| && Answers(EMPTY, calls)[i] && calls[i].Validate? && forall k :: i < k < j ==> calls[k] != Reset
  }

  /** The history before call j is what stands. */
  ghost predicate Recalls(h: History, calls: seq<Call>, j: nat) {
    && (forall c :: c in h.seen ==> c <= h.last)
    && (h.seen != {} ==> h.last in h.seen) && (h.seen == {} ==> h.last == 0)
    && (forall i: nat :: StandsAt(calls, i, j) ==> calls[i].counter in h.seen)
    && forall c :: c in h.seen ==> exists i: nat :: StandsAt(calls, i, j) && calls[i].counter == c
  }

  lemma StandsNext(calls: seq<Call>, i: nat, j: nat)
    requires j < |calls|
    ensures StandsAt(calls, i, j + 1)
        <==> if i == j then Answers(EMPTY, calls)[j] && calls[j].Validate?
             else StandsAt(calls, i, j) && calls[j] != Reset
  {
  }

  lemma StillStands(h: History, h': History, calls: seq<Call>, j: nat, i: nat)
    requires j < |calls| && Recalls(h, calls, j) && h' == Apply(h, calls[j])
    requires Answers(EMPTY, calls)[j] == (calls[j].Validate? && Accepts(h, calls[j].counter, calls[j].limit))
    ensures StandsAt(calls, i, j + 1) ==> calls[i].counter in h'.seen
  {
    StandsNext(calls, i, j);
  }

  lemma HasStood(h: History, h': History, calls: seq<Call>, j: nat, c: nat) returns (i: nat)
    requires j < |calls| && Recalls(h, calls, j) && h' == Apply(h, calls[j]) && c in h'.seen
    requires Answers(EMPTY, calls)[j] == (calls[j].Validate? && Accepts(h, calls[j].counter, calls[j].limit))
    ensures StandsAt(calls, i, j + 1) && calls[i].counter == c
  {
    i := j;
    if c in h.seen { i :| StandsAt(calls, i, j) && calls[i].counter == c; }
    StandsNext(calls, i, j);
  }

  lemma RecallsNext(h: History, h': History, calls: seq<Call>, j: nat)
    requires j < |calls| && Recalls(h, calls, j) && h' == Apply(h, calls[j])
    requires Answers(EMPTY, calls)[j] == (calls[j].Validate? && Accepts(h, calls[j].counter, calls[j].limit))
    ensures Recalls(h', calls, j + 1)
  {
    forall i: nat ensures StandsAt(calls, i, j + 1) ==> calls[i].counter in h'.seen {
      StillStands(h, h', calls, j, i);
    }
    forall c | c in h'.seen ensures exists i: nat :: StandsAt(calls, i, j + 1) && calls[i].counter == c {
      var i := HasStood(h, h', calls, j, c);
    }
  }

  lemma {:induction false} HistoryRecalls(calls: seq<Call>, j: nat)
    requires j <= |calls|
    ensures Recalls(Past(EMPTY, calls[..j]), calls, j)
  {
    if j > 0 {
      HistoryRecalls(calls, j - 1);
      AnswerAt(EMPTY, calls, j - 1);
      assert calls[..j][..j - 1] == calls[..j - 1];
      RecallsNext(Past(EMPTY, calls[..j - 1]), Past(EMPTY, calls[..j]), calls, j - 1);
    }
  }

  /**
   * Of any sequence of calls: a counter is accepted exactly if it is below the limit and
   * every counter accepted since the last Reset is another one, at most 8128 ahead of it.
   */
  lemma AcceptedIff(calls: seq<Call>, j: nat)
    requires j < |calls| && calls[j].Validate?
    ensures Answers(EMPTY, calls)[j] <==>
              && calls[j].counter < calls[j].limit
              && forall i: nat :: StandsAt(calls, i, j) ==> calls[i].counter != calls[j].counter
                                                            && calls[i].counter <= calls[j].counter + 8128
  {
    var h := Past(EMPTY, calls[..j]);
    HistoryRecalls(calls, j);
    AnswerAt(EMPTY, calls, j);
    if h.seen != {} {
      var i: nat :| StandsAt(calls, i, j) && calls[i].counter == h.last;
    }
  }
}
