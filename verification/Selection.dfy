/** "order by ... limit n" over a finite table, for any order the query names. */
module Selection {
  /** A total preorder: ties are left to the database. */
  ghost predicate Orders<K(!new)>(leq: (K, K) -> bool) {
    && (forall x, y :: leq(x, y) || leq(y, x))
    && (forall x, y, z :: leq(x, y) && leq(y, z) ==> leq(x, z))
  }

  /** `chosen` is a possible answer to the query. */
  ghost predicate IsFirst<K(!new)>(eligible: set<K>, leq: (K, K) -> bool, limit: nat, chosen: seq<K>) {
    && (forall k :: k in chosen ==> k in eligible)
    && (forall i, j :: 0 <= i < j < |chosen| ==> chosen[i] != chosen[j])
    && |chosen| == (if limit < |eligible| then limit else |eligible|)
    && (forall x, y :: x in chosen && y in eligible && y !in chosen ==> leq(x, y))
  }

  lemma {:induction false} LeastExists<K(!new)>(s: set<K>, leq: (K, K) -> bool) returns (least: K)
    requires s != {} && Orders(leq)
    ensures least in s && forall y :: y in s ==> leq(least, y)
    decreases |s|
  {
    var x :| x in s;
    if s == {x} {
      least := x;
    } else {
      var rest := LeastExists(s - {x}, leq);
      least := if leq(x, rest) then x else rest;
      forall y | y in s ensures leq(least, y) {
        if y != x { assert y in s - {x}; }
      }
    }
  }

  method TakeFirst<K(!new,==)>(eligible: set<K>, leq: (K, K) -> bool, limit: nat) returns (chosen: seq<K>)
    requires Orders(leq)
    ensures IsFirst(eligible, leq, limit, chosen)
    ensures forall i, j :: 0 <= i < j < |chosen| ==> leq(chosen[i], chosen[j])
  {
    chosen := [];
    var rest := eligible;
    while |chosen| < limit && rest != {}
      invariant |chosen| <= limit && |chosen| + |rest| == |eligible|
      invariant forall k :: k in eligible <==> k in rest || k in chosen
      invariant forall k :: k in chosen ==> k !in rest
      invariant forall i, j :: 0 <= i < j < |chosen| ==> chosen[i] != chosen[j] && leq(chosen[i], chosen[j])
      invariant forall x, y :: x in chosen && y in rest ==> leq(x, y)
      decreases rest
    {
      ghost var least := LeastExists(rest, leq);
      assert least in rest && forall y :: y in rest ==> leq(least, y);
      var x :| x in rest && forall y :: y in rest ==> leq(x, y);
      chosen := chosen + [x];
      rest := rest - {x};
    }
  }

  /** A distinct sequence has as many elements as its set. */
  lemma {:induction false} DistinctSize<K>(chosen: seq<K>)
    requires forall i, j :: 0 <= i < j < |chosen| ==> chosen[i] != chosen[j]
    ensures |set k | k in chosen| == |chosen|
  {
    if chosen != [] {
      var front := chosen[..|chosen| - 1];
      DistinctSize(front);
      assert (set k | k in chosen) == (set k | k in front) + {chosen[|chosen| - 1]};
    }
  }

  lemma {:induction false} SubsetSize<K>(a: set<K>, b: set<K>)
    requires a <= b
    ensures |a| <= |b|
  {
    if a != {} {
      var x :| x in a;
      SubsetSize(a - {x}, b - {x});
    }
  }
}
