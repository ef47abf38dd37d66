/** Scanning mint logs by halving the range on failure (lib/rpc.ts scanMintLogs). */
module LogScan {
  import opened Wrappers
  import opened Seqs

  datatype Log = Log(id: nat, owner: nat, ref: nat, block: nat)

  /** A log of an answer; a pending one has no transaction yet and is skipped. */
  type Item = Option<Log>

  function MinedOf(items: seq<Item>): seq<Log> {
    if items == [] then [] else
    MinedOf(items[..|items| - 1]) + if items[|items| - 1].Some? then [items[|items| - 1].value] else []
  }

  /** The n-th request answers with the matching logs of its range, perhaps with pending ones between, or fails. */
  ghost predicate Honest(answer: (nat, nat, int) -> Option<seq<Item>>, logs: nat -> seq<Log>) {
    forall n, lo, hi :: answer(n, lo, hi).Some? ==> MinedOf(answer(n, lo, hi).value) == Range(logs, lo, hi)
  }

  /** Some request for a range that may not be split further failed. */
  ghost predicate SmallRangeFails(answer: (nat, nat, int) -> Option<seq<Item>>, lo: nat, hi: int, minSpan: nat) {
    exists n: nat, l: nat, h: int :: lo <= l <= h <= hi && h - l <= minSpan && answer(n, l, h).None?
  }

  /** Smallest half a range is ever split into. */
  function SmallestHalf(minSpan: nat): (c: nat)
    ensures c >= 1 && 2 * c >= minSpan + 1
  {
    minSpan / 2 + 1
  }

  lemma LeavesFit(a: nat, n: int, b: nat, m: int, c: nat)
    requires (a == 1 || a * c <= n) && (b == 1 || b * c <= m) && n >= c && m >= c
    ensures (a + b) * c <= n + m
  {
    assert (a + b) * c == a * c + b * c;
  }

  lemma AnswerIsRange(answer: (nat, nat, int) -> Option<seq<Item>>, logs: nat -> seq<Log>, n: nat, lo: nat, hi: int)
    requires Honest(answer, logs) && answer(n, lo, hi).Some?
    ensures MinedOf(answer(n, lo, hi).value) == Range(logs, lo, hi)
  {
  }

  lemma FailsHere(answer: (nat, nat, int) -> Option<seq<Item>>, n: nat, lo: nat, hi: int, minSpan: nat)
    requires lo <= hi && hi - lo <= minSpan && answer(n, lo, hi).None?
    ensures SmallRangeFails(answer, lo, hi, minSpan)
  {
  }

  lemma FailureWidens(answer: (nat, nat, int) -> Option<seq<Item>>, l: nat, h: int, lo: nat, hi: int, minSpan: nat)
    requires lo <= l && h <= hi && SmallRangeFails(answer, l, h, minSpan)
    ensures SmallRangeFails(answer, lo, hi, minSpan)
  {
  }

  class Scanner {
    const answer: (nat, nat, int) -> Option<seq<Item>>
    const minSpan: nat
    var collected: seq<Log>
    var requests: nat

    constructor (answer: (nat, nat, int) -> Option<seq<Item>>, minSpan: nat)
      ensures this.answer == answer && this.minSpan == minSpan && collected == [] && requests == 0
    {
      this.answer, this.minSpan, collected, requests := answer, minSpan, [], 0;
    }

    /**
     * One range, in halves if need be. If it returns, exactly the logs of the range
     * were appended, in order. `leaves` counts the ranges that were not split.
     */
    method Scan(lo: nat, hi: int, ghost logs: nat -> seq<Log>) returns (ok: bool, ghost leaves: nat)
      modifies this
      ensures ok && Honest(answer, logs) ==> collected == old(collected) + Range(logs, lo, hi)
      ensures leaves >= 1 && old(requests) < requests <= old(requests) + 2 * leaves - 1
      ensures leaves == 1 || leaves * SmallestHalf(minSpan) <= hi - lo + 1
      ensures !ok && lo <= hi ==> SmallRangeFails(answer, lo, hi, minSpan)
      decreases hi - lo
    {
      hide Range, MinedOf, Honest, SmallRangeFails;
      requests := requests + 1;
      var logsOf := answer(requests, lo, hi);
      if logsOf.None? {
        var span := hi - lo;
        if span <= minSpan {
          if lo <= hi { FailsHere(answer, requests, lo, hi, minSpan); }
          return false, 1;
        }
        var mid := lo + span / 2;
        ghost var left, right;
        ok, left := Scan(lo, mid, logs);
        right := 1;
        if ok {
          ok, right := Scan(mid + 1, hi, logs);
          if !ok { FailureWidens(answer, mid + 1, hi, lo, hi, minSpan); }
        } else {
          FailureWidens(answer, lo, mid, lo, hi, minSpan);
        }
        leaves := left + right;
        LeavesFit(left, mid - lo + 1, right, hi - mid, SmallestHalf(minSpan));
        RangeSplit(logs, lo, mid, hi);
        return;
      }
      if Honest(answer, logs) { AnswerIsRange(answer, logs, requests, lo, hi); }
      Collect(logsOf.value);
      ok, leaves := true, 1;
    }

    method Collect(items: seq<Item>)
      modifies this`collected
      ensures collected == old(collected) + MinedOf(items)
    {
      for i := 0 to |items|
        invariant collected == old(collected) + MinedOf(items[..i])
      {
        assert items[..i + 1][..i] == items[..i];
        if items[i].Some? { collected := collected + [items[i].value]; }
      }
      assert items[..|items|] == items;
    }
  }

  datatype MintLogScan = MintLogScan(logs: seq<Log>, requests: nat)

  /**
   * The whole scan. None is a thrown error. Halving never loses, repeats or
   * reorders a log; it costs at most 2·(n / c) − 1 requests for n blocks, and it can
   * only fail if some range of at most minSpan + 1 blocks does.
   */
  method ScanMintLogs(answer: (nat, nat, int) -> Option<seq<Item>>, fromBlock: nat, toBlock: int, minSpan: nat,
                      ghost logs: nat -> seq<Log>)
    returns (r: Option<MintLogScan>, requests: nat)
    ensures r.Some? && Honest(answer, logs) ==>
              && r.value.logs == Range(logs, fromBlock, toBlock)
              && forall x :: x in r.value.logs <==> exists b: nat :: fromBlock <= b <= toBlock && x in logs(b)
    ensures r.Some? ==> r.value.requests == requests
    ensures 1 <= requests <= Max(1, 2 * (Max(0, toBlock - fromBlock + 1) / SmallestHalf(minSpan)) - 1)
    ensures r.None? && fromBlock <= toBlock ==> SmallRangeFails(answer, fromBlock, toBlock, minSpan)
  {
    var s := new Scanner(answer, minSpan);
    ghost var leaves;
    var ok;
    ok, leaves := s.Scan(fromBlock, toBlock, logs);
    requests := s.requests;
    LeavesBound(leaves, toBlock - fromBlock + 1, SmallestHalf(minSpan));
    r := if ok then Some(MintLogScan(s.collected, s.requests)) else None;
    forall x { RangeHas(logs, fromBlock, toBlock, x); }
  }

  lemma LeavesBound(leaves: nat, n: int, c: nat)
    requires leaves >= 1 && c >= 1 && (leaves == 1 || leaves * c <= n)
    ensures 2 * leaves - 1 <= Max(1, 2 * (Max(0, n) / c) - 1)
  {
    if leaves > 1 && leaves > n / c {
      var q := n / c;
      assert n < (q + 1) * c;
      TimesMonotone(q + 1, leaves, c);
      assert false;
    }
  }

  lemma TimesMonotone(a: int, b: int, c: nat)
    requires a <= b
    ensures a * c <= b * c
  {
  }
}
