/** Per-node credit timers (lib/schedule.ts). Times are in microseconds. */
module Schedule {
  import opened Wrappers
  import opened Selection

  const SECOND := 1_000_000

  const MAX_NODES_PER_TICK: nat := 200

  /** next_credit_at, last_credit_at, credits_count */
  datatype Timer = Timer(next: int, last: Option<int>, count: nat)

  type Timers = map<nat, Timer>

  function DueSet(timers: Timers, now: int): set<nat> {
    set id | id in timers && timers[id].next <= now
  }

  /** Oldest due first. */
  function NextOrder(timers: Timers): (nat, nat) -> bool {
    (x: nat, y: nat) =>
      if x in timers && y in timers then timers[x].next <= timers[y].next else x in timers || y !in timers
  }

  /** The credit is recorded, and the next one is due a fresh delay from now, whenever this one was due. */
  function Advanced(timers: Timers, ids: set<nat>, now: int, delay: nat -> int): Timers {
    map id | id in timers ::
      if id in ids then Timer(now + delay(id) * SECOND, Some(now), timers[id].count + 1) else timers[id]
  }

  /** Those timers count one credit more, given now; no other timer moved. */
  ghost predicate AdvancedOnly(before: Timers, after: Timers, ids: set<nat>, now: int) {
    && after.Keys == before.Keys
    && forall id :: id in before ==>
         if id in ids then after[id].last == Some(now) && after[id].count == before[id].count + 1
           else after[id] == before[id]
  }

  /** Delays from a range put the next time into that range, from now on. */
  lemma AdvancedIn(timers: Timers, ids: set<nat>, now: int, delay: nat -> int, low: int, high: int)
    requires forall id :: low <= delay(id) <= high
    ensures var after := Advanced(timers, ids, now, delay);
            && AdvancedOnly(timers, after, ids, now)
            && forall id :: id in ids && id in after ==> now + low * SECOND <= after[id].next <= now + high * SECOND
  {
  }

  /** Everything due is pushed out, without a credit. */
  function Deferred(timers: Timers, now: int, seconds: int): Timers {
    map id | id in timers :: if timers[id].next <= now then timers[id].(next := now + seconds * SECOND) else timers[id]
  }

  /** `past` is when this timer was advanced: each time at least d after the time before, and not due again sooner. */
  ghost predicate TimerSpaced(t: Timer, past: seq<int>, d: int) {
    && |past| == t.count && Apart(past, d)
    && (past != [] ==> t.last == Some(past[|past| - 1]) && t.next >= past[|past| - 1] + d)
  }

  ghost predicate Apart(past: seq<int>, d: int) {
    forall i :: 0 < i < |past| ==> past[i] - past[i - 1] >= d
  }

  ghost predicate AllSpaced(timers: Timers, past: map<nat, seq<int>>, d: int) {
    past.Keys == timers.Keys && forall id :: id in timers ==> TimerSpaced(timers[id], past[id], d)
  }

  function Noted(past: map<nat, seq<int>>, ids: set<nat>, now: int): map<nat, seq<int>> {
    map id | id in past :: if id in ids then past[id] + [now] else past[id]
  }

  lemma AdvanceStaysSpaced(timers: Timers, past: map<nat, seq<int>>, ids: set<nat>, now: int, delay: nat -> int, d: int)
    requires AllSpaced(timers, past, d) && MayAdvance(timers, ids, now, delay, d)
    ensures AllSpaced(Advanced(timers, ids, now, delay), Noted(past, ids, now), d)
  {
    forall id | id in timers ensures TimerSpaced(Advanced(timers, ids, now, delay)[id], Noted(past, ids, now)[id], d) {
      assert TimerSpaced(timers[id], past[id], d);
    }
  }

  ghost predicate MayAdvance(timers: Timers, ids: set<nat>, now: int, delay: nat -> int, d: int) {
    forall id :: id in ids && id in timers ==> timers[id].next <= now && delay(id) * SECOND >= d
  }

  class Schedule {
    var timers: Timers
    ghost var past: map<nat, seq<int>>

    /** No timer was ever advanced twice within d. */
    ghost predicate Spaced(d: int)
      reads this
    {
      AllSpaced(timers, past, d)
    }

    constructor ()
      ensures timers == map[] && forall d :: Spaced(d)
    {
      timers, past := map[], map[];
    }

    method ScheduleNewNode(id: nat, now: int, delaySeconds: int)
      modifies this
      ensures timers == if id in old(timers)
                        then old(timers) else old(timers)[id := Timer(now + delaySeconds * SECOND, None, 0)]
      ensures forall d :: old(Spaced(d)) ==> Spaced(d)
    {
      if id !in timers {
        timers := timers[id := Timer(now + delaySeconds * SECOND, None, 0)];
        past := past[id := []];
      }
    }

    method DueNodes(now: int, limit: nat) returns (due: seq<nat>)
      ensures IsFirst(DueSet(timers, now), NextOrder(timers), limit, due)
      ensures forall id :: id in due ==> id in timers && timers[id].next <= now
      ensures forall i, j :: 0 <= i < j < |due| ==> timers[due[i]].next <= timers[due[j]].next
      ensures forall x, y :: x in due && y in timers && timers[y].next <= now && y !in due ==>
                timers[x].next <= timers[y].next
    {
      due := TakeFirst(DueSet(timers, now), NextOrder(timers), limit);
      assert forall i :: 0 <= i < |due| ==> due[i] in due;
    }

    /** Only for nodes that were due, which is what keeps a timer's advances apart. */
    method AdvanceSchedules(ids: set<nat>, now: int, delay: nat -> int)
      modifies this
      ensures timers == Advanced(old(timers), ids, now, delay)
      ensures AdvancedOnly(old(timers), timers, ids, now)
      ensures forall id :: id in ids && id in timers ==> timers[id].next == now + delay(id) * SECOND
      ensures forall d :: old(Spaced(d)) && MayAdvance(old(timers), ids, now, delay, d) ==> Spaced(d)
    {
      forall d | Spaced(d) && MayAdvance(timers, ids, now, delay, d)
        ensures AllSpaced(Advanced(timers, ids, now, delay), Noted(past, ids, now), d)
      {
        AdvanceStaysSpaced(timers, past, ids, now, delay, d);
      }
      timers := Advanced(timers, ids, now, delay);
      past := Noted(past, ids, now);
    }

    method DeferAll(now: int, seconds: int)
      requires seconds >= 0
      modifies this`timers
      ensures timers == Deferred(old(timers), now, seconds)
      ensures timers.Keys == old(timers).Keys && forall id :: id in timers ==>
                && timers[id].last == old(timers)[id].last && timers[id].count == old(timers)[id].count
                && (if old(timers)[id].next > now then timers[id].next == old(timers)[id].next
                    else timers[id].next - now == seconds * SECOND)
      ensures seconds > 0 ==> DueSet(timers, now) == {}
      ensures forall d :: old(Spaced(d)) ==> Spaced(d)
    {
      timers := Deferred(timers, now, seconds);
    }
  }

  /* ------------------------------------------------------------- no backlog */

  function CountWithin(past: seq<int>, lo: int, hi: int): nat {
    if past == [] then 0 else
    CountWithin(past[..|past| - 1], lo, hi) + if lo <= past[|past| - 1] <= hi then 1 else 0
  }

  /** At most length / d + 1 advances in the stretch of that length from lo on. */
  ghost predicate NoBurst(past: seq<int>, d: int, lo: int, length: nat)
    requires d > 0
  {
    CountWithin(past, lo, lo + length) <= length / d + 1
  }

  /**
   * No backlog payout. However long an outage or a deferral lasted, a timer is
   * advanced at most length / d + 1 times in any stretch of time.
   */
  lemma NoBacklog(t: Timer, past: seq<int>, d: int, lo: int, length: nat)
    requires TimerSpaced(t, past, d) && d > 0
    ensures NoBurst(past, d, lo, length)
  {
    CountBound(past, d, lo, lo + length);
    if CountWithin(past, lo, lo + length) > 0 {
      Quotient(CountWithin(past, lo, lo + length) - 1, d, length);
    }
  }

  /** k advances inside a stretch lie k − 1 gaps apart. */
  lemma {:induction false} CountBound(past: seq<int>, d: int, lo: int, hi: int)
    requires Apart(past, d) && d > 0
    ensures past != [] && past[|past| - 1] < lo ==> CountWithin(past, lo, hi) == 0
    ensures CountWithin(past, lo, hi) > 0 ==> (CountWithin(past, lo, hi) - 1) * d <= Min(past[|past| - 1], hi) - lo
  {
    if past != [] {
      var front, last := past[..|past| - 1], past[|past| - 1];
      CountBound(front, d, lo, hi);
      if front != [] {
        assert last - past[|past| - 2] >= d;
        assert front[|front| - 1] == past[|past| - 2];
      }
      if lo <= last <= hi {
        assert (CountWithin(past, lo, hi) - 1) * d == (CountWithin(front, lo, hi) - 1) * d + d;
      }
    }
  }

  lemma Quotient(k: nat, d: nat, x: int)
    requires d > 0 && k * d <= x
    ensures k <= x / d
  {
    var q := x / d;
    assert x < (q + 1) * d;
    if k >= q + 1 {
      TimesMonotone(q + 1, k, d);
      assert false;
    }
  }

  lemma TimesMonotone(a: int, b: int, d: nat)
    requires a <= b
    ensures a * d <= b * d
  {
  }

  /* ------------------------------------------------------------- starvation */

  /** How many of these nodes' timers come up no later than node n's. */
  function Rank(timers: Timers, nodes: set<nat>, n: nat): nat
    requires n in timers
  {
    |Ahead(timers, nodes, n)|
  }

  function Ahead(timers: Timers, nodes: set<nat>, n: nat): set<nat>
    requires n in timers
  {
    set id | id in timers && id in nodes && timers[id].next <= timers[n].next
  }

  /**
   * A credited pass as a waiting node sees it: whom it took when it looked, who was creditable then,
   * and when those were advanced.
   */
  datatype Pass = Pass(due: seq<nat>, good: set<nat>, looked: int, advanced: int, delay: nat -> int)

  /** Rows a pass took and then dropped as unknown. */
  function Inert(due: seq<nat>, good: set<nat>): set<nat> {
    set id | id in due && id !in good
  }

  function Batch(due: seq<nat>, good: set<nat>): set<nat> {
    set id | id in due && id in good
  }

  /**
   * A pass that credited every creditable row it took, and not n although n was
   * due; meanwhile new nodes may have got timers of their own.
   */
  ghost predicate PassedOver(before: Timers, p: Pass, after: Timers, n: nat) {
    && n in before && n in p.good && before[n].next <= p.looked <= p.advanced && n !in p.due
    && IsFirst(DueSet(before, p.looked), NextOrder(before), MAX_NODES_PER_TICK, p.due)
    && (forall id :: id in p.due ==> p.delay(id) >= 1)
    && (forall id :: id in before ==>
            id in after && after[id] == Advanced(before, Batch(p.due, p.good), p.advanced, p.delay)[id])
    && (forall id :: id in after && id !in before ==> after[id].next > p.looked)
  }

  /** Advancing exactly the creditable rows among the first due passes over a due node it did not take. */
  lemma AdvancingPassesOver(before: Timers, p: Pass, n: nat)
    requires n in before && n in p.good && before[n].next <= p.looked <= p.advanced && n !in p.due
    requires IsFirst(DueSet(before, p.looked), NextOrder(before), MAX_NODES_PER_TICK, p.due)
    requires forall id :: id in p.due ==> p.delay(id) >= 1
    ensures PassedOver(before, p, Advanced(before, Batch(p.due, p.good), p.advanced, p.delay), n)
  {
    hide IsFirst, DueSet, NextOrder, Batch;
  }

  /** Being passed over means 200 rows went first, and those of them that were creditable are now behind. */
  lemma RankFalls(before: Timers, p: Pass, after: Timers, ever: set<nat>, n: nat)
    requires PassedOver(before, p, after, n) && p.good <= ever
    ensures n in after && after[n] == before[n]
    ensures Rank(after, ever, n) == Rank(before, ever, n) - (MAX_NODES_PER_TICK - |Inert(p.due, p.good)|)
  {
    FullBatch(before, p, after, n);
    OnlyBatchMoves(before, p, after, ever, n);
    hide PassedOver, Ahead;
    var ahead, batch := Ahead(before, ever, n), Batch(p.due, p.good);
    assert |ahead - batch| == |ahead| - |batch|;
  }

  lemma OnlyBatchMoves(before: Timers, p: Pass, after: Timers, ever: set<nat>, n: nat)
    requires PassedOver(before, p, after, n) && p.good <= ever
    ensures n in after && after[n] == before[n] && Batch(p.due, p.good) <= Ahead(before, ever, n)
    ensures Ahead(after, ever, n) == Ahead(before, ever, n) - Batch(p.due, p.good)
  {
    forall id | id in p.due ensures id in before && before[id].next <= before[n].next {
      assert id in DueSet(before, p.looked) && n in DueSet(before, p.looked) && NextOrder(before)(id, n);
    }
  }

  lemma FullBatch(before: Timers, p: Pass, after: Timers, n: nat)
    requires PassedOver(before, p, after, n)
    ensures |p.due| == MAX_NODES_PER_TICK && |Batch(p.due, p.good)| == MAX_NODES_PER_TICK - |Inert(p.due, p.good)|
  {
    var taken := set id | id in p.due;
    DistinctSize(p.due);
    if |p.due| == |DueSet(before, p.looked)| {
      assert taken <= DueSet(before, p.looked) - {n};
      SubsetSize(taken, DueSet(before, p.looked) - {n});
    }
    assert taken == Batch(p.due, p.good) + Inert(p.due, p.good);
    assert Batch(p.due, p.good) !! Inert(p.due, p.good);
  }

  /** A run of credited passes, each of which passed over n with at most m inert rows, whoever was creditable when. */
  ghost predicate PassedOverBy(states: seq<Timers>, passes: seq<Pass>, ever: set<nat>, n: nat, m: nat) {
    && |states| == |passes| + 1
    && forall i :: 0 <= i < |passes| ==>
         PassedOver(states[i], passes[i], states[i + 1], n) && passes[i].good <= ever &&
         |Inert(passes[i].due, passes[i].good)| <= m
  }

  /**
   * Nobody starves. If passes keep crediting and at most m < 200 of the rows each
   * one takes are inert, a due creditable node is passed over at most
   * (rank − 1) / (200 − m) times in a row.
   */
  lemma {:induction false} WaitIsBounded(states: seq<Timers>, passes: seq<Pass>, ever: set<nat>, n: nat, m: nat)
    requires PassedOverBy(states, passes, ever, n, m) && m < MAX_NODES_PER_TICK && n in states[0] && n in ever
    ensures n in states[|passes|] && states[|passes|][n] == states[0][n]
    ensures |passes| * (MAX_NODES_PER_TICK - m) + Rank(states[|passes|], ever, n) <= Rank(states[0], ever, n)
    ensures |passes| <= (Rank(states[0], ever, n) - 1) / (MAX_NODES_PER_TICK - m)
    decreases |passes|
  {
    hide PassedOver, Rank;
    RankCountsItself(states[0], ever, n);
    if passes != [] {
      var k, d := |passes| - 1, MAX_NODES_PER_TICK - m;
      assert PassedOver(states[k], passes[k], states[k + 1], n);
      WaitIsBounded(states[..k + 1], passes[..k], ever, n, m);
      RankFalls(states[k], passes[k], states[k + 1], ever, n);
      RankCountsItself(states[k + 1], ever, n);
      assert |passes| * d == k * d + d;
      Quotient(|passes|, d, Rank(states[0], ever, n) - 1);
    } else {
      Quotient(0, MAX_NODES_PER_TICK - m, Rank(states[0], ever, n) - 1);
    }
  }

  lemma RankCountsItself(timers: Timers, nodes: set<nat>, n: nat)
    requires n in timers && n in nodes
    ensures Rank(timers, nodes, n) >= 1
  {
    assert n in Ahead(timers, nodes, n);
  }
}
