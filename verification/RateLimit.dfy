/** The fixed-window limiter that forgets expired buckets (lib/rateLimit.ts). Times are in milliseconds. */
module RateLimit {
  import opened Wrappers

  const DEFAULT_WINDOW_MS := 60_000

  datatype Bucket = Bucket(count: nat, resetAt: int)

  datatype Call = Call(key: string, now: int, limit: nat, windowMs: nat)

  datatype Outcome = Outcome(ok: bool, remaining: nat, resetAt: int, retryAfterSec: int)

  /** A key's bucket after one more hit. */
  function Hit(b: Option<Bucket>, now: int, windowMs: nat): Bucket {
    if b.None? || b.value.resetAt <= now then Bucket(1, now + windowMs) else Bucket(b.value.count + 1, b.value.resetAt)
  }

  function Lookup(store: map<string, Bucket>, key: string): Option<Bucket> {
    if key in store then Some(store[key]) else None
  }

  function OutcomeOf(b: Bucket, c: Call): Outcome {
    Outcome(b.count <= c.limit, Max(0, c.limit - b.count), b.resetAt, Max(1, (b.resetAt - c.now + 999) / 1000))
  }

  /** The limiter that never deletes a bucket. */
  function Unswept(calls: seq<Call>): map<string, Bucket> {
    if calls == [] then map[] else
    var before, c := Unswept(calls[..|calls| - 1]), calls[|calls| - 1];
    before[c.key := Hit(Lookup(before, c.key), c.now, c.windowMs)]
  }

  /** One key's calls, in order. */
  function CallsOf(calls: seq<Call>, key: string): seq<Call> {
    if calls == [] then [] else
    CallsOf(calls[..|calls| - 1], key) + if calls[|calls| - 1].key == key then [calls[|calls| - 1]] else []
  }

  /**
   * Which of a key's calls opened the window the last one falls in: the first to come when the
   * window before was over.
   */
  function Opener(cs: seq<Call>): (o: nat)
    requires cs != []
    ensures o < |cs|
  {
    if |cs| == 1 then 0 else
    var o := Opener(cs[..|cs| - 1]);
    if cs[o].now + cs[o].windowMs <= cs[|cs| - 1].now then |cs| - 1 else o
  }

  /**
   * What a caller is told, from the key's own calls and nothing else: let through exactly if
   * fewer than the limit came before it in the open window; how many more would be; when
   * the window ends; and the least whole number of seconds, at least one, that reaches its end.
   */
  ghost predicate Fair(r: Outcome, cs: seq<Call>)
    requires cs != []
  {
    var o, c := Opener(cs), cs[|cs| - 1];
    var earlier := |cs| - 1 - o;
    && (r.ok <==> earlier < c.limit)
    && r.remaining == (if earlier + 1 <= c.limit then c.limit - (earlier + 1) else 0)
    && r.resetAt == cs[o].now + cs[o].windowMs
    && IsLeast(r.retryAfterSec, c.now, r.resetAt)
  }

  /** No shorter wait of whole seconds, one at least, gets there. */
  ghost predicate IsLeast(seconds: int, now: int, until: int) {
    && seconds >= 1 && now + 1000 * seconds >= until
    && forall n :: n >= 1 && now + 1000 * n >= until ==> seconds <= n
  }

  /** The bucket counts the calls since its opener, and ends when the opener's window does. */
  lemma {:induction false} BucketIsTheWindow(calls: seq<Call>, key: string)
    ensures var cs := CallsOf(calls, key);
            Lookup(Unswept(calls), key) ==
              if cs == [] then None
              else Some(Bucket(|cs| - Opener(cs), cs[Opener(cs)].now + cs[Opener(cs)].windowMs))
  {
    if calls != [] {
      var front, c := calls[..|calls| - 1], calls[|calls| - 1];
      BucketIsTheWindow(front, key);
      if c.key == key {
        assert CallsOf(calls, key)[..|CallsOf(front, key)|] == CallsOf(front, key);
      } else {
        assert CallsOf(calls, key) == CallsOf(front, key);
      }
    }
  }

  lemma OutcomeIsFair(calls: seq<Call>, c: Call)
    requires calls != [] && calls[|calls| - 1] == c
    ensures c.key in Unswept(calls) && CallsOf(calls, c.key) != []
    ensures CallsOf(calls, c.key)[|CallsOf(calls, c.key)| - 1] == c
    ensures Fair(OutcomeOf(Unswept(calls)[c.key], c), CallsOf(calls, c.key))
  {
    BucketIsTheWindow(calls, c.key);
  }

  /** A sweep may only have dropped buckets nobody will look inside again. */
  ghost predicate Forgets(store: map<string, Bucket>, full: map<string, Bucket>, now: int) {
    && (forall k :: k in store ==> k in full && full[k] == store[k])
    && (forall k :: k in full && full[k].resetAt > now ==> k in store)
  }

  class Limiter {
    var store: map<string, Bucket>
    var lastSweep: int
    ghost var calls: seq<Call>

    ghost predicate Valid()
      reads this
    {
      && (calls == [] ==> store == map[])
      && (calls != [] ==> Forgets(store, Unswept(calls), calls[|calls| - 1].now))
    }

    constructor ()
      ensures Valid() && calls == [] && store == map[] && lastSweep == 0
    {
      store, lastSweep, calls := map[], 0, [];
    }

    method Sweep(now: int)
      modifies this`store, this`lastSweep
      ensures forall k :: k in store ==> k in old(store) && old(store)[k] == store[k]
      ensures forall k :: k in old(store) && k !in store ==> old(store)[k].resetAt <= now
      ensures if now - old(lastSweep) < DEFAULT_WINDOW_MS then store == old(store) && lastSweep == old(lastSweep)
              else lastSweep == now && forall k :: k in store ==> store[k].resetAt > now
    {
      if now - lastSweep < DEFAULT_WINDOW_MS { return; }
      lastSweep := now;
      var keys := store.Keys;
      while keys != {}
        invariant keys <= store.Keys <= old(store).Keys && lastSweep == now
        invariant forall k :: k in store ==> old(store)[k] == store[k]
        invariant forall k :: k in old(store) && k !in store ==> old(store)[k].resetAt <= now
        invariant forall k :: k in store && k !in keys ==> store[k].resetAt > now
        decreases keys
      {
        var k :| k in keys;
        keys := keys - {k};
        if store[k].resetAt <= now { store := store - {k}; }
      }
    }

    /** Under a clock that does not run backwards, sweeping is never seen: the answer is the unswept limiter's. */
    method RateLimit(c: Call) returns (r: Outcome)
      requires Valid() && (calls != [] ==> calls[|calls| - 1].now <= c.now)
      modifies this
      ensures Valid() && calls == old(calls) + [c]
      ensures r == OutcomeOf(Unswept(calls)[c.key], c)
      ensures CallsOf(calls, c.key) != [] && Fair(r, CallsOf(calls, c.key))
      ensures c.now - old(lastSweep) >= DEFAULT_WINDOW_MS ==> forall k :: k in store && k != c.key ==>
                store[k].resetAt > c.now
    {
      hide Fair, CallsOf;
      Sweep(c.now);
      ghost var full := Unswept(calls);
      var bucket := Hit(Lookup(store, c.key), c.now, c.windowMs);
      assert bucket == Hit(Lookup(full, c.key), c.now, c.windowMs);
      store := store[c.key := bucket];
      calls := calls + [c];
      assert calls[..|calls| - 1] == old(calls);
      r := OutcomeOf(bucket, c);
      OutcomeIsFair(calls, c);
    }

    /**
     * A run of calls from a fresh start. Of one key's requests under a fixed limit no more
     * than twice that are let through in any closed interval one window long.
     */
    method Serve(cs: seq<Call>) returns (rs: seq<Outcome>)
      requires Valid() && calls == [] && forall i, j :: 0 <= i < j < |cs| ==> cs[i].now <= cs[j].now
      modifies this
      ensures Valid() && calls == cs && |rs| == |cs|
      ensures forall key, limit: nat, windowMs: nat, lo, hi ::
                windowMs >= 1 && hi == lo + windowMs && Uniform(cs, key, limit, windowMs) ==>
                LetThrough(cs, rs, key, lo, hi) <= 2 * limit
    {
      NothingAsked();
      hide Truthful, Fair, Uniform, LetThrough;
      rs := [];
      for i := 0 to |cs|
        invariant Valid() && calls == cs[..i] && |rs| == i && Truthful(cs[..i], rs)
      {
        var r := RateLimit(cs[i]);
        TruthfulStep(cs[..i], rs, cs[i], r);
        assert cs[..i] + [cs[i]] == cs[..i + 1];
        rs := rs + [r];
      }
      assert cs[..|cs|] == cs;
      forall key, limit: nat, windowMs: nat, lo, hi |
        windowMs >= 1 && hi == lo + windowMs && Uniform(cs, key, limit, windowMs)
        ensures LetThrough(cs, rs, key, lo, hi) <= 2 * limit
      {
        LetThroughIsAdmitted(cs, rs, key, limit, windowMs, lo, hi);
        TimesAscend(cs, key);
        AtMostTwicePerWindow(TimesOf(cs, key), windowMs, limit, lo);
      }
    }
  }

  lemma NothingAsked()
    ensures Truthful([], [])
  {
  }

  ghost predicate Uniform(calls: seq<Call>, key: string, limit: nat, windowMs: nat) {
    forall c :: c in calls && c.key == key ==> c.limit == limit && c.windowMs == windowMs
  }

  /** Each answer is the unswept limiter's. */
  ghost predicate Truthful(calls: seq<Call>, rs: seq<Outcome>) {
    |rs| == |calls| && forall i :: 0 <= i < |calls| ==>
      calls[i].key in Unswept(calls[..i + 1]) && rs[i] == OutcomeOf(Unswept(calls[..i + 1])[calls[i].key], calls[i])
  }

  lemma TruthfulStep(calls: seq<Call>, rs: seq<Outcome>, c: Call, r: Outcome)
    requires Truthful(calls, rs)
    requires c.key in Unswept(calls + [c]) && r == OutcomeOf(Unswept(calls + [c])[c.key], c)
    ensures Truthful(calls + [c], rs + [r])
  {
    var all := calls + [c];
    forall i | 0 <= i < |all|
      ensures all[i].key in Unswept(all[..i + 1])
      ensures (rs + [r])[i] == OutcomeOf(Unswept(all[..i + 1])[all[i].key], all[i])
    {
      if i < |calls| { assert all[..i + 1] == calls[..i + 1]; } else { assert all[..i + 1] == all; }
    }
  }

  /** How many of a key's requests between lo and hi were answered ok. */
  function LetThrough(calls: seq<Call>, rs: seq<Outcome>, key: string, lo: int, hi: int): nat
    requires |rs| == |calls|
  {
    if calls == [] then 0 else
    var n := |calls| - 1;
    LetThrough(calls[..n], rs[..n], key, lo, hi)
      + if calls[n].key == key && lo <= calls[n].now <= hi && rs[n].ok then 1 else 0
  }

  lemma TruthfulFront(calls: seq<Call>, rs: seq<Outcome>)
    requires Truthful(calls, rs) && calls != []
    ensures Truthful(calls[..|calls| - 1], rs[..|calls| - 1])
    ensures var c := calls[|calls| - 1];
            c.key in Unswept(calls) && rs[|calls| - 1] == OutcomeOf(Unswept(calls)[c.key], c)
  {
    var n := |calls| - 1;
    assert calls[..n + 1] == calls;
    forall i | 0 <= i < n
      ensures calls[..n][i].key in Unswept(calls[..n][..i + 1])
      ensures rs[..n][i] == OutcomeOf(Unswept(calls[..n][..i + 1])[calls[..n][i].key], calls[..n][i])
    {
      assert calls[..n][..i + 1] == calls[..i + 1];
    }
  }

  /** The answers given are the ones the count of admissions speaks of. */
  lemma {:induction false} LetThroughIsAdmitted(calls: seq<Call>, rs: seq<Outcome>, key: string, limit: nat,
                                                windowMs: nat, lo: int, hi: int)
    requires Truthful(calls, rs) && Uniform(calls, key, limit, windowMs)
    ensures LetThrough(calls, rs, key, lo, hi) == Admitted(TimesOf(calls, key), windowMs, limit, lo, hi)
  {
    if calls != [] {
      var n := |calls| - 1;
      TruthfulFront(calls, rs);
      assert forall c :: c in calls[..n] ==> c in calls;
      assert calls[n] in calls;
      LetThroughIsAdmitted(calls[..n], rs[..n], key, limit, windowMs, lo, hi);
      KeysAreIndependent(calls, key, windowMs);
      if calls[n].key == key {
        assert TimesOf(calls, key)[..|TimesOf(calls[..n], key)|] == TimesOf(calls[..n], key);
      } else {
        assert TimesOf(calls, key) == TimesOf(calls[..n], key);
      }
    }
  }

  lemma {:induction false} TimesAscend(calls: seq<Call>, key: string)
    requires forall i, j :: 0 <= i < j < |calls| ==> calls[i].now <= calls[j].now
    ensures Monotone(TimesOf(calls, key))
    ensures forall t :: t in TimesOf(calls, key) ==> calls != [] && t <= calls[|calls| - 1].now
  {
    if calls != [] {
      var front := calls[..|calls| - 1];
      TimesAscend(front, key);
      if front != [] { assert front[|front| - 1].now <= calls[|calls| - 1].now; }
      var times := TimesOf(calls, key);
      forall i, j | 0 <= i < j < |times| ensures times[i] <= times[j] {
        if j == |TimesOf(front, key)| { assert times[i] in TimesOf(front, key); }
      }
    }
  }

  /* ------------------------------------------------- one key, over its time */

  /** When a key was hit. */
  function TimesOf(calls: seq<Call>, key: string): seq<int> {
    if calls == [] then [] else
    var c := calls[|calls| - 1];
    TimesOf(calls[..|calls| - 1], key) + if c.key == key then [c.now] else []
  }

  function BucketAfter(times: seq<int>, windowMs: nat): Option<Bucket> {
    if times == [] then None else
    Some(Hit(BucketAfter(times[..|times| - 1], windowMs), times[|times| - 1], windowMs))
  }

  /** Other keys never matter. */
  lemma {:induction false} KeysAreIndependent(calls: seq<Call>, key: string, windowMs: nat)
    requires forall c :: c in calls && c.key == key ==> c.windowMs == windowMs
    ensures Lookup(Unswept(calls), key) == BucketAfter(TimesOf(calls, key), windowMs)
  {
    if calls != [] {
      var front, c := calls[..|calls| - 1], calls[|calls| - 1];
      assert c in calls;
      KeysAreIndependent(front, key, windowMs);
      if c.key == key {
        assert TimesOf(calls, key)[..|TimesOf(front, key)|] == TimesOf(front, key);
      } else {
        assert TimesOf(calls, key) == TimesOf(front, key);
      }
    }
  }

  /** How many of the hits between lo and hi were let through. */
  function Admitted(times: seq<int>, windowMs: nat, limit: nat, lo: int, hi: int): nat {
    if times == [] then 0 else
    var t := times[|times| - 1];
    Admitted(times[..|times| - 1], windowMs, limit, lo, hi)
      + if lo <= t <= hi && BucketAfter(times, windowMs).value.count <= limit then 1 else 0
  }

  ghost predicate Monotone(times: seq<int>) {
    forall i, j :: 0 <= i < j < |times| ==> times[i] <= times[j]
  }

  lemma {:induction false} NothingAfterTheLast(times: seq<int>, windowMs: nat, limit: nat, lo: int, hi: int)
    requires Monotone(times) && times != [] && lo > times[|times| - 1]
    ensures Admitted(times, windowMs, limit, lo, hi) == 0
  {
    if |times| > 1 { NothingAfterTheLast(times[..|times| - 1], windowMs, limit, lo, hi); }
  }

  /** Since its bucket opened a key got at most the limit; since one window before that, at most twice. */
  lemma {:induction false} BucketShare(times: seq<int>, windowMs: nat, limit: nat, lo: int, hi: int)
    requires Monotone(times) && times != [] && windowMs >= 1 && hi >= times[|times| - 1]
    ensures var b := BucketAfter(times, windowMs).value;
            var start := b.resetAt - windowMs;
            && b.count >= 1 && start <= times[|times| - 1] < b.resetAt
            && (lo >= start ==> Admitted(times, windowMs, limit, lo, hi) <= Min(b.count, limit))
            && (lo >= start - windowMs ==> Admitted(times, windowMs, limit, lo, hi) <= limit + Min(b.count, limit))
  {
    if |times| > 1 {
      var front := times[..|times| - 1];
      BucketShare(front, windowMs, limit, lo, hi);
      if lo > front[|front| - 1] { NothingAfterTheLast(front, windowMs, limit, lo, hi); }
    } else {
      assert times[..0] == [];
    }
  }

  /** Any closed interval one window long admits at most twice the limit, wherever it falls. */
  lemma {:induction false} AtMostTwicePerWindow(times: seq<int>, windowMs: nat, limit: nat, lo: int)
    requires Monotone(times) && windowMs >= 1
    ensures Admitted(times, windowMs, limit, lo, lo + windowMs) <= 2 * limit
  {
    if times != [] {
      if times[|times| - 1] <= lo + windowMs {
        BucketShare(times, windowMs, limit, lo, lo + windowMs);
      } else {
        AtMostTwicePerWindow(times[..|times| - 1], windowMs, limit, lo);
      }
    }
  }
}
