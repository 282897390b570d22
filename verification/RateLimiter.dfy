/**
 * The token bucket of ratelimiter/ratelimiter.go, whose entries are collected after a second
 * of silence. Times are nanoseconds; calls are sequential and the clock does not run back.
 */
module RateLimiter {

  const PACKETS_PER_SECOND: int := 20
  const PACKETS_BURSTABLE: int := 5
  const GARBAGE_COLLECT_TIME: int := 1_000_000_000
  const PACKET_COST: int := 1_000_000_000 / PACKETS_PER_SECOND
  const MAX_TOKENS: int := PACKET_COST * PACKETS_BURSTABLE

  type Addr = nat

  datatype Entry = Entry(lastTime: int, tokens: int)

  type Table = map<Addr, Entry>

  // ---------- one call as a function ----------

  function Refilled(e: Entry, now: int): int {
    var tokens := e.tokens + (now - e.lastTime);
    if tokens > MAX_TOKENS then MAX_TOKENS else tokens
  }

  function Packet(t: Table, a: Addr, now: int): (Table, bool) {
    if a !in t then (t[a := Entry(now, MAX_TOKENS - PACKET_COST)], true)
    else
      var tokens := Refilled(t[a], now);
      if tokens > PACKET_COST then (t[a := Entry(now, tokens - PACKET_COST)], true)
          else (t[a := Entry(now, tokens)], false)
  }

  predicate Idle(e: Entry, now: int) {
    now - e.lastTime > GARBAGE_COLLECT_TIME
  }

  /** Between `from` and `to`: what is gone was idle, what was idle all along is gone, the rest is as before. */
  ghost predicate Swept(t: Table, t': Table, from: int, to: int) {
    && (forall a :: a in t' ==> a in t && t'[a] == t[a] && !Idle(t[a], from))
    && (forall a :: a in t && a !in t' ==> Idle(t[a], to))
  }

  // ---------- the class ----------

  class Ratelimiter {
    var table: Table

    constructor ()
      ensures table == map[]
    {
      table := map[];
    }

    method Allow(ip: Addr, now: int) returns (allowed: bool)
      modifies this
      ensures (table, allowed) == Packet(old(table), ip, now)
    {
      if ip !in table {
        table := table[ip := Entry(now, MAX_TOKENS - PACKET_COST)];
        return true;
      }
      var entry := table[ip];
      entry := Entry(now, entry.tokens + (now - entry.lastTime));
      if entry.tokens > MAX_TOKENS {
        entry := entry.(tokens := MAX_TOKENS);
      }
      if entry.tokens > PACKET_COST {
        table := table[ip := entry.(tokens := entry.tokens - PACKET_COST)];
        return true;
      }
      table := table[ip := entry];
      return false;
    }

    /** The clock is read anew for each entry; `clock(k)` is the k-th reading. */
    method Cleanup(clock: nat -> int, ghost from: int, ghost to: int) returns (empty: bool)
      requires forall k :: from <= clock(k) <= to
      modifies this
      ensures Swept(old(table), table, from, to) && empty == (table == map[])
    {
      var todo := table.Keys;
      var k := 0;
      while todo != {}
        invariant todo <= old(table.Keys) && (forall a :: a in todo ==> a in table)
        invariant forall a :: a in table ==> a in old(table) && table[a] == old(table)[a]
        invariant forall a :: a in old(table) && a !in table ==> Idle(old(table)[a], to)
        invariant forall a :: a in table && a !in todo ==> !Idle(old(table)[a], from)
        decreases |todo|
      {
        var key :| key in todo;
        if clock(k) - table[key].lastTime > GARBAGE_COLLECT_TIME {
          table := table - {key};
        }
        todo := todo - {key};
        k := k + 1;
      }
      empty := |table| == 0;
    }
  }

  // ---------- runs ----------

  /** A packet, or a collection that ends at `now` and leaves `kept`. */
  datatype Event = Arrive(addr: Addr, now: int) | Collect(kept: set<Addr>, now: int)

  predicate Legal(t: Table, clock: int, e: Event) {
    clock <= e.now && (e.Collect? ==> forall a :: a in t && a !in e.kept ==> Idle(t[a], e.now))
  }

  function Next(t: Table, e: Event): (Table, bool) {
    match e
    case Arrive(a, now) => Packet(t, a, now)
    case Collect(kept, _) => (Restrict(t, kept), false)
  }

  function Restrict(t: Table, kept: set<Addr>): Table {
    map a | a in t && a in kept :: t[a]
  }

  predicate Run(t: Table, clock: int, events: seq<Event>)
    decreases |events|
  {
    events == [] || (Legal(t, clock, events[0]) && Run(Next(t, events[0]).0, events[0].now, events[1..]))
  }

  /** The answers to the packets, in order. */
  function Answers(t: Table, events: seq<Event>): seq<bool>
    decreases |events|
  {
    if events == [] then [] else
    var (t', allowed) := Next(t, events[0]);
    (if events[0].Arrive? then [allowed] else []) + Answers(t', events[1..])
  }

  /** A collection is a legal Collect: nothing is removed that had not been idle for a second. */
  lemma SweepIsLegal(t: Table, t': Table, from: int, to: int)
    requires Swept(t, t', from, to) && from <= to
    ensures Legal(t, from, Collect(t'.Keys, to)) && Next(t, Collect(t'.Keys, to)).0 == t'
  {
    assert Restrict(t, t'.Keys).Keys == t'.Keys;
  }

  predicate Sane(t: Table, clock: int) {
    forall a :: a in t ==> t[a].lastTime <= clock && 0 <= t[a].tokens <= MAX_TOKENS
  }

  lemma NextIsSane(t: Table, clock: int, e: Event)
    requires Sane(t, clock) && Legal(t, clock, e)
    ensures Sane(Next(t, e).0, e.now)
  {
  }

  // ---------- collection is invisible ----------

  /** `twin` never forgets: it knows all that `t` knows, and what `t` forgot has been idle. */
  predicate Twin(t: Table, twin: Table, clock: int) {
    && (forall a :: a in t ==> a in twin && twin[a] == t[a])
    && (forall a :: a in twin && a !in t ==> Idle(twin[a], clock))
  }

  function Packets(events: seq<Event>): seq<Event> {
    if events == [] then [] else (if events[0].Arrive? then [events[0]] else []) + Packets(events[1..])
  }

  lemma TwinStep(t: Table, twin: Table, clock: int, e: Event)
    requires Sane(t, clock) && Sane(twin, clock) && Twin(t, twin, clock) && Legal(t, clock, e)
    ensures e.Arrive? ==> Next(t, e).1 == Next(twin, e).1 && Twin(Next(t, e).0, Next(twin, e).0, e.now)
    ensures e.Collect? ==> Twin(Next(t, e).0, twin, e.now)
  {
  }

  /** The limiter answers every packet of every run like one that never collects. */
  lemma {:induction false} CollectionIsInvisible(t: Table, twin: Table, clock: int, events: seq<Event>)
    requires Sane(t, clock) && Sane(twin, clock) && Twin(t, twin, clock) && Run(t, clock, events)
    ensures Answers(t, events) == Answers(twin, Packets(events))
    decreases |events|
  {
    if events != [] {
      var e := events[0];
      TwinStep(t, twin, clock, e);
      NextIsSane(t, clock, e);
      if e.Arrive? {
        NextIsSane(twin, clock, e);
        CollectionIsInvisible(Next(t, e).0, Next(twin, e).0, e.now, events[1..]);
        assert Packets(events)[1..] == Packets(events[1..]);
      } else {
        LaterTwin(twin, clock, e.now);
        CollectionIsInvisible(Next(t, e).0, twin, e.now, events[1..]);
        assert Packets(events) == Packets(events[1..]);
        assert Answers(t, events) == Answers(Next(t, e).0, events[1..]);
      }
    }
  }

  lemma LaterTwin(twin: Table, clock: int, now: int)
    requires Sane(twin, clock) && clock <= now
    ensures Sane(twin, now)
  {
  }

  // ---------- how many packets a span lets through ----------

  /** What address `a` could spend at `now`. */
  function Credit(t: Table, a: Addr, now: int): int {
    if a in t then Refilled(t[a], now) else MAX_TOKENS
  }

  function Passed(t: Table, a: Addr, events: seq<Event>): nat
    decreases |events|
  {
    if events == [] then 0 else
    var (t', allowed) := Next(t, events[0]);
    (if events[0].Arrive? && events[0].addr == a && allowed then 1 else 0) + Passed(t', a, events[1..])
  }

  function Cost(n: nat): int { n * PACKET_COST }

  lemma CreditStep(t: Table, a: Addr, clock: int, e: Event)
    requires Sane(t, clock) && Legal(t, clock, e)
    ensures Credit(t, a, e.now) <= Credit(t, a, clock) + (e.now - clock)
    ensures var (t', allowed) := Next(t, e);
            if e.Arrive? && e.addr == a && allowed
            then Credit(t, a, e.now) > PACKET_COST && Credit(t', a, e.now) == Credit(t, a, e.now) - PACKET_COST
            else Credit(t', a, e.now) == Credit(t, a, e.now)
  {
  }

  lemma CostNext(n: nat)
    ensures Cost(n + 1) == Cost(n) + PACKET_COST && Cost(0) == 0
  {
  }

  predicate Until(events: seq<Event>, end: int) {
    forall k :: 0 <= k < |events| ==> events[k].now <= end
  }

  lemma {:induction false} SpendIsCovered(t: Table, a: Addr, clock: int, events: seq<Event>, end: int)
    requires Sane(t, clock) && Run(t, clock, events) && Until(events, end) && clock <= end
    ensures var n := Passed(t, a, events);
            Cost(n) <= Credit(t, a, clock) + (end - clock) && (n > 0 ==> Cost(n) < Credit(t, a, clock) + (end - clock))
    decreases |events|
  {
    if events != [] {
      var e := events[0];
      CreditStep(t, a, clock, e);
      NextIsSane(t, clock, e);
      SpendIsCovered(Next(t, e).0, a, e.now, events[1..], end);
      CostNext(Passed(Next(t, e).0, a, events[1..]));
    }
  }

  /** In any span, whatever came before: N packets let through cost less than a full bucket and the span. */
  lemma BurstIsBounded(t: Table, a: Addr, clock: int, events: seq<Event>, end: int)
    requires Sane(t, clock) && Run(t, clock, events) && Until(events, end) && clock <= end
    ensures 50_000_000 * Passed(t, a, events) < 250_000_000 + (end - clock)
  {
    SpendIsCovered(t, a, clock, events, end);
  }

  // ---------- and how many it must let through ----------

  function Arrivals(a: Addr, events: seq<Event>): nat {
    if events == [] then 0 else (if events[0].Arrive? && events[0].addr == a then 1 else 0) + Arrivals(a, events[1..])
  }

  /** The packets of `a` come at `from` or later, and then at least 50 ms apart. */
  predicate Spaced(a: Addr, events: seq<Event>, from: int) {
    events == [] ||
    if events[0].Arrive? && events[0].addr == a
    then events[0].now >= from && Spaced(a, events[1..], events[0].now + 50_000_000)
    else Spaced(a, events[1..], from)
  }

  lemma CreditLater(t: Table, a: Addr, clock: int, e: Event, from: int)
    requires Sane(t, clock) && Legal(t, clock, e) && Credit(t, a, from) > PACKET_COST
    requires e.Arrive? && e.addr == a ==> e.now >= from
    ensures if e.Arrive? && e.addr == a then Next(t, e).1 && Credit(Next(t, e).0, a, e.now + 50_000_000) > PACKET_COST
            else Credit(Next(t, e).0, a, from) > PACKET_COST
  {
  }

  /** An address that sends at most 20 packets a second, evenly, is never refused, whatever else happens. */
  lemma {:induction false} SlowSenderPasses(t: Table, a: Addr, clock: int, events: seq<Event>, from: int)
    requires Sane(t, clock) && Run(t, clock, events) && Credit(t, a, from) > PACKET_COST && Spaced(a, events, from)
    ensures Passed(t, a, events) == Arrivals(a, events)
    decreases |events|
  {
    if events != [] {
      var e := events[0];
      CreditLater(t, a, clock, e, from);
      NextIsSane(t, clock, e);
      SlowSenderPasses(Next(t, e).0, a, e.now, events[1..],
                       if e.Arrive? && e.addr == a then e.now + 50_000_000 else from);
    }
  }

  /** The table after the first k of the packets that `a` sends at `times`. */
  function AfterBurst(t: Table, a: Addr, times: seq<int>, k: nat): Table
    requires k <= |times|
  {
    if k == 0 then t else Packet(AfterBurst(t, a, times, k - 1), a, times[k - 1]).0
  }

  ghost predicate BurstTimes(times: seq<int>) {
    && (forall i, j :: 0 <= i < j < |times| ==> times[i] <= times[j])
    && forall i :: 0 <= i < |times| ==> times[i] < times[0] + 50_000_000
  }

  lemma {:induction false} BurstTokens(t: Table, a: Addr, times: seq<int>, k: nat)
    requires a !in t && BurstTimes(times) && 0 < k <= |times|
    ensures var passed := if k <= 4 then k else if times[k - 1] > times[0] then 5 else 4;
            var s := AfterBurst(t, a, times, k);
            a in s && s[a] == Entry(times[k - 1], 250_000_000 - 50_000_000 * passed + (times[k - 1] - times[0]))
  {
    if k > 1 { BurstTokens(t, a, times, k - 1); }
  }

  /**
   * Of the packets that a new address sends within 50 ms, the first four pass, and of the
   * others exactly the first that comes later than the very first one.
   */
  lemma BurstIsExact(t: Table, a: Addr, times: seq<int>, k: nat)
    requires a !in t && BurstTimes(times) && k < |times|
    ensures Packet(AfterBurst(t, a, times, k), a, times[k]).1 <==>
              k < 4 || (times[k] > times[0] && (k == 4 || times[k - 1] == times[0]))
  {
    if k > 0 { BurstTokens(t, a, times, k); }
  }
}
