/**
 * The factory's money side, as its README and its Solidity excerpt in the docs
 * describe it: a credit carries its own value, a withdrawal empties a node, and
 * the owner's rescue reaches only what is not owed.
 */
module Vault {
  import opened Wrappers

  /** An amount on a node: an argument of creditBatch, or a Credited or Withdrawn event. */
  datatype Entry = Entry(id: nat, amount: nat)

  const MAX_AMOUNT: nat := 0xFFFF_FFFF_FFFF_FFFF_FFFF_FFFF_FFFF_FFFF

  function Total(es: seq<Entry>): nat {
    if es == [] then 0 else Total(es[..|es| - 1]) + es[|es| - 1].amount
  }

  /** What one node got. */
  function SumOf(es: seq<Entry>, id: nat): nat {
    if es == [] then 0 else
    SumOf(es[..|es| - 1], id) + if es[|es| - 1].id == id then es[|es| - 1].amount else 0
  }

  /** How often one node got something. */
  function CountOf(es: seq<Entry>, id: nat): nat {
    if es == [] then 0 else
    CountOf(es[..|es| - 1], id) + if es[|es| - 1].id == id then 1 else 0
  }

  lemma {:induction false} Appended(a: seq<Entry>, b: seq<Entry>, id: nat)
    ensures SumOf(a + b, id) == SumOf(a, id) + SumOf(b, id)
    ensures CountOf(a + b, id) == CountOf(a, id) + CountOf(b, id)
    decreases |b|
  {
    if b == [] {
      assert a + b == a;
    } else {
      assert (a + b)[..|a + b| - 1] == a + b[..|b| - 1];
      Appended(a, b[..|b| - 1], id);
    }
  }

  lemma {:induction false} Absent(es: seq<Entry>, id: nat)
    requires forall e :: e in es ==> e.id != id
    ensures SumOf(es, id) == 0 && CountOf(es, id) == 0
  {
    if es != [] {
      assert es[|es| - 1] in es;
      Absent(es[..|es| - 1], id);
    }
  }

  function Sum(balances: seq<nat>): nat {
    if balances == [] then 0 else Sum(balances[..|balances| - 1]) + balances[|balances| - 1]
  }

  lemma {:induction false} SumOfUpdate(balances: seq<nat>, k: nat, b: nat)
    requires k < |balances|
    ensures Sum(balances[k := b]) == Sum(balances) - balances[k] + b
  {
    var n := |balances| - 1;
    if k == n {
      assert balances[k := b][..n] == balances[..n];
    } else {
      assert balances[k := b][..n] == balances[..n][k := b];
      SumOfUpdate(balances[..n], k, b);
    }
  }

  lemma {:induction false} ElementBelowSum(balances: seq<nat>, k: nat)
    requires k < |balances|
    ensures balances[k] <= Sum(balances)
  {
    if k < |balances| - 1 { ElementBelowSum(balances[..|balances| - 1], k); }
  }

  /** creditBatch accepts a batch or reverts it whole. */
  ghost predicate Acceptable(nodes: nat, es: seq<Entry>, value: nat) {
    && es != [] && value == Total(es)
    && forall e :: e in es ==> 1 <= e.id <= nodes && 0 < e.amount <= MAX_AMOUNT
  }

  lemma OneMoreEntry(es: seq<Entry>, e: Entry)
    ensures Total(es + [e]) == Total(es) + e.amount
    ensures forall id :: SumOf(es + [e], id) == SumOf(es, id) + if e.id == id then e.amount else 0
  {
    assert (es + [e])[..|es|] == es;
  }

  class Vault {
    var balances: seq<nat>
    var outstanding: nat
    var held: nat
    var credited: seq<Entry>
    var withdrawn: seq<Entry>

    /** Every balance is what was credited less what was withdrawn, all of it owed, all of it held. */
    ghost predicate Valid()
      reads this
    {
      && outstanding == Sum(balances) && outstanding <= held
      && (forall id :: 1 <= id <= |balances| ==> balances[id - 1] + SumOf(withdrawn, id) == SumOf(credited, id))
      && (forall e :: e in credited || e in withdrawn ==> 1 <= e.id <= |balances|)
    }

    constructor ()
      ensures Valid() && balances == [] && credited == [] && withdrawn == [] && held == 0 && outstanding == 0
    {
      balances, outstanding, held, credited, withdrawn := [], 0, 0, [], [];
    }

    /** mintFor, seen from here. */
    method AddNode() returns (id: nat)
      requires Valid()
      modifies this`balances
      ensures Valid() && balances == old(balances) + [0] && id == |balances|
    {
      Absent(credited, |balances| + 1);
      Absent(withdrawn, |balances| + 1);
      balances := balances + [0];
      id := |balances|;
    }

    method CreditBatch(es: seq<Entry>, value: nat) returns (ok: bool)
      requires Valid()
      modifies this
      ensures Valid() && withdrawn == old(withdrawn) && |balances| == |old(balances)|
      ensures ok <==> Acceptable(|balances|, es, value)
      ensures !ok ==> balances == old(balances) && credited == old(credited)
      ensures !ok ==> held == old(held) && outstanding == old(outstanding)
      ensures ok ==>
                credited == old(credited) + es && held == old(held) + value && outstanding == old(outstanding) + value
    {
      ok := CheckBatch(es, value);
      if ok {
        AddAmounts(es);
        held := held + value;
        outstanding := outstanding + value;
      }
    }

    method CheckBatch(es: seq<Entry>, value: nat) returns (ok: bool)
      ensures ok <==> Acceptable(|balances|, es, value)
    {
      if es == [] { return false; }
      var sum := 0;
      for i := 0 to |es|
        invariant sum == Total(es[..i])
        invariant forall e :: e in es[..i] ==> 1 <= e.id <= |balances| && 0 < e.amount <= MAX_AMOUNT
      {
        assert es[..i + 1][..i] == es[..i];
        if !(1 <= es[i].id <= |balances| && 0 < es[i].amount <= MAX_AMOUNT) { return false; }
        sum := sum + es[i].amount;
      }
      assert es[..|es|] == es;
      ok := sum == value;
    }

    /** The credit loop: balances and the Credited log move, the two totals follow. */
    method AddAmounts(es: seq<Entry>)
      requires Valid() && forall e :: e in es ==> 1 <= e.id <= |balances|
      modifies this`balances, this`credited
      ensures |balances| == |old(balances)| && credited == old(credited) + es
      ensures Sum(balances) == Sum(old(balances)) + Total(es)
      ensures forall id :: 1 <= id <= |balances| ==> balances[id - 1] + SumOf(withdrawn, id) == SumOf(credited, id)
    {
      assert Total([]) == 0;
      hide Sum, SumOf, Total;
      for i := 0 to |es|
        invariant |balances| == |old(balances)| && credited == old(credited) + es[..i]
        invariant Sum(balances) == Sum(old(balances)) + Total(es[..i])
        invariant forall id :: 1 <= id <= |balances| ==> balances[id - 1] + SumOf(withdrawn, id) == SumOf(credited, id)
      {
        assert es[i] in es;
        AddOne(es[i]);
        OneMoreEntry(es[..i], es[i]);
        assert es[..i + 1] == es[..i] + [es[i]];
      }
      assert es[..|es|] == es;
    }

    method AddOne(e: Entry)
      requires 1 <= e.id <= |balances|
      requires forall id :: 1 <= id <= |balances| ==> balances[id - 1] + SumOf(withdrawn, id) == SumOf(credited, id)
      modifies this`balances, this`credited
      ensures |balances| == |old(balances)| && credited == old(credited) + [e]
      ensures Sum(balances) == Sum(old(balances)) + e.amount
      ensures forall id :: 1 <= id <= |balances| ==> balances[id - 1] + SumOf(withdrawn, id) == SumOf(credited, id)
    {
      hide Sum, SumOf;
      OneMoreEntry(credited, e);
      SumOfUpdate(balances, e.id - 1, balances[e.id - 1] + e.amount);
      balances := balances[e.id - 1 := balances[e.id - 1] + e.amount];
      credited := credited + [e];
    }

    /** The whole balance leaves; an empty node has nothing to withdraw. */
    method Withdraw(id: nat) returns (paid: Option<nat>)
      requires Valid() && 1 <= id <= |balances|
      modifies this
      ensures Valid() && credited == old(credited)
      ensures paid.None? <==> old(balances)[id - 1] == 0
      ensures paid.None? ==> balances == old(balances) && held == old(held) && withdrawn == old(withdrawn)
      ensures paid.Some? ==> paid.value == old(balances)[id - 1] && balances == old(balances)[id - 1 := 0]
      ensures paid.Some? ==> held == old(held) - paid.value && withdrawn == old(withdrawn) + [Entry(id, paid.value)]
    {
      var amount := balances[id - 1];
      if amount == 0 { return None; }
      ElementBelowSum(balances, id - 1);
      SumOfUpdate(balances, id - 1, 0);
      balances := balances[id - 1 := 0];
      outstanding := outstanding - amount;
      held := held - amount;
      ghost var was := withdrawn;
      withdrawn := withdrawn + [Entry(id, amount)];
      assert withdrawn[..|withdrawn| - 1] == was;
      paid := Some(amount);
    }

    method Fund(amount: nat)
      requires Valid()
      modifies this`held
      ensures Valid() && held == old(held) + amount
    {
      held := held + amount;
    }

    /** Only the surplus over what is owed can be moved. */
    method Rescue(amount: nat) returns (ok: bool)
      requires Valid()
      modifies this`held
      ensures Valid()
      ensures ok <==> amount <= old(held) - outstanding
      ensures held == if ok then old(held) - amount else old(held)
    {
      ok := amount <= held - outstanding;
      if ok { held := held - amount; }
    }
  }
}
