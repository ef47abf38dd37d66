/** Statements and the processes that issue them. */
module Process {
  /** What becomes of one SQL statement: it takes effect, it throws without effect, or the process is already dead. */
  datatype Fate = Fine | Throws | Dies

  /** One process: the fate of each statement it issues, in order. */
  class Session {
    const fate: nat -> Fate
    var at: nat

    constructor (fate: nat -> Fate)
      ensures this.fate == fate && at == 0
    {
      this.fate := fate;
      at := 0;
    }

    method Tick() returns (f: Fate)
      modifies this
      ensures f == fate(old(at)) && at == old(at) + 1
    {
      f := fate(at);
      at := at + 1;
    }

    ghost predicate AllFine()
      reads this
    {
      forall k: nat :: k >= at ==> fate(k) == Fine
    }
  }

  /** Statement by statement up to the first that fails, which is the last one issued. */
  ghost predicate Ran(fate: nat -> Fate, from: nat, to: nat, result: Fate) {
    && from <= to
    && (forall k: nat :: from <= k < to && fate(k) != Fine ==> k == to - 1)
    && result == if from < to then fate(to - 1) else Fine
  }

  lemma RanOn(fate: nat -> Fate, from: nat, mid: nat, to: nat, result: Fate)
    requires Ran(fate, from, mid, Fine) && Ran(fate, mid, to, result)
    ensures Ran(fate, from, to, result) && from <= mid <= to
  {
  }

  lemma RanNone(fate: nat -> Fate, at: nat)
    ensures Ran(fate, at, at, Fine) && Ran(fate, at, at + 1, fate(at))
  {
  }
}
