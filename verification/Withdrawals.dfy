/** Indexing withdrawals from the factory's log (lib/withdrawals.ts). */
module Withdrawals {
  import opened Wrappers
  import opened Seqs
  import opened Process
  import opened Chain
  import opened Vault
  import opened Schedule
  import opened CreditBooks

  const MAX_SPAN := 2_000_000

  /** A Withdrawn event, and equally the row written for it. */
  datatype Event = Event(id: nat, to: Address, amount: nat, tx: nat)

  /** The unique key of the table. */
  datatype Key = Key(tx: nat, id: nat)

  function KeyOf(e: Event): Key {
    Key(e.tx, e.id)
  }

  predicate Held(rows: seq<Event>, k: Key) {
    exists i :: 0 <= i < |rows| && KeyOf(rows[i]) == k
  }

  /** What inserting a stream of events in order leaves: positive amounts, the first of each key. */
  function Indexed(events: seq<Event>): seq<Event> {
    if events == [] then [] else
    var rows, last := Indexed(events[..|events| - 1]), events[|events| - 1];
    if last.amount == 0 || Held(rows, KeyOf(last)) then rows else rows + [last]
  }

  /** One event per node and transaction. */
  ghost predicate OnePerKey(events: seq<Event>) {
    && (forall e :: e in events ==> e.amount > 0)
    && forall i, j :: 0 <= i < j < |events| ==> KeyOf(events[i]) != KeyOf(events[j])
  }

  lemma {:induction false} IndexedFacts(events: seq<Event>)
    ensures forall r :: r in Indexed(events) ==> r in events && r.amount > 0
    ensures forall e :: e in events && e.amount > 0 ==> Held(Indexed(events), KeyOf(e))
    ensures forall i, j :: 0 <= i < j < |Indexed(events)| ==> KeyOf(Indexed(events)[i]) != KeyOf(Indexed(events)[j])
  {
    if events != [] {
      var front, last := events[..|events| - 1], events[|events| - 1];
      IndexedFacts(front);
      var was, rows := Indexed(front), Indexed(events);
      forall e | e in events && e.amount > 0 ensures Held(rows, KeyOf(e)) {
        if Held(was, KeyOf(e)) {
          var i :| 0 <= i < |was| && KeyOf(was[i]) == KeyOf(e);
          assert rows[i] == was[i];
        } else {
          assert e == last && rows[|was|] == last;
        }
      }
    }
  }

  /**
   * The table mirrors the log exactly, one row per event, if and only if no two
   * events share a transaction and a node (and none is of zero).
   */
  lemma {:induction false} MirrorsExactlyWhenKeysDiffer(events: seq<Event>)
    ensures Indexed(events) == events <==> OnePerKey(events)
    ensures |Indexed(events)| <= |events|
  {
    if events != [] {
      var front, last := events[..|events| - 1], events[|events| - 1];
      MirrorsExactlyWhenKeysDiffer(front);
      assert events == front + [last];
      if OnePerKey(events) {
        forall e | e in front ensures e in events { }
        assert OnePerKey(front);
        assert !Held(front, KeyOf(last));
      }
      if Indexed(events) == events {
        assert Indexed(front) == front;
        forall i, j | 0 <= i < j < |events| ensures KeyOf(events[i]) != KeyOf(events[j]) {
          assert events[i] == front[i];
          if j < |front| { assert events[j] == front[j]; } else { assert !Held(front, KeyOf(last)); }
        }
      }
    }
  }

  /** Everything the contract logged up to a block. */
  function Stream(log: nat -> seq<Event>, upTo: int): seq<Event> {
    Range(log, 0, upTo)
  }

  lemma StreamGrows(log: nat -> seq<Event>, k: int, upTo: int)
    requires -1 <= k <= upTo
    ensures Stream(log, k) <= Stream(log, upTo)
    ensures Stream(log, upTo) == Stream(log, k) + Range(log, k + 1, upTo)
  {
    RangeSplit(log, 0, k, upTo);
  }

  lemma StreamOfNothing(log: nat -> seq<Event>)
    ensures Stream(log, -1) == []
  {
  }

  /** Inserting the j-th event again, or the next one for the first time, leaves an indexed prefix. */
  lemma InsertNext(events: seq<Event>, done: nat, j: nat)
    requires j <= done <= |events| && j < |events|
    ensures var rows, e := Indexed(events[..done]), events[j];
            var after := if e.amount == 0 || Held(rows, KeyOf(e)) then rows else rows + [e];
            after == Indexed(events[..if j == done then done + 1 else done])
  {
    if j == done {
      assert events[..done + 1][..done] == events[..done];
    } else {
      assert events[j] in events[..done];
      IndexedFacts(events[..done]);
    }
  }

  /** The table and its cursor in `watcher_state`. `log` is the final content of each block. */
  class WithdrawalIndex {
    const log: nat -> seq<Event>
    var rows: seq<Event>
    var cursor: Option<int>
    ghost var reached: int
    ghost var done: nat

    /** The rows are what indexing a prefix of the log gives, a prefix that covers the cursor. */
    ghost predicate Valid()
      reads this
    {
      && reached >= -1 && done <= |Stream(log, reached)| && rows == Indexed(Stream(log, reached)[..done])
      && (cursor.Some? ==> -1 <= cursor.value <= reached && |Stream(log, cursor.value)| <= done)
    }

    constructor (log: nat -> seq<Event>)
      ensures this.log == log && Valid() && rows == [] && cursor == None
    {
      this.log, rows, cursor, reached, done := log, [], None, -1, 0;
    }

    /** insert ... on conflict (tx_hash, node_chain_id) do nothing */
    method Insert(e: Event) returns (inserted: bool)
      modifies this`rows
      ensures inserted <==> !Held(old(rows), KeyOf(e))
      ensures rows == if inserted then old(rows) + [e] else old(rows)
    {
      inserted := !Held(rows, KeyOf(e));
      if inserted { rows := rows + [e]; }
    }

    function From(): int
      reads this
    {
      if cursor.Some? then cursor.value + 1 else 0
    }

    function WindowEnd(safeHead: int): int
      reads this
    {
      if safeHead - From() > MAX_SPAN then From() + MAX_SPAN else safeHead
    }

    /** The rows of one window, one statement each; a crash leaves the rows so far and the old cursor. */
    method InsertWindow(from: nat, to: int, s: Session) returns (fate: Fate)
      requires Valid() && from <= to && from == From()
      modifies this`rows, this`reached, this`done, s
      ensures Valid() && (old(s.AllFine()) ==> s.AllFine() && fate == Fine)
      ensures fate == Fine ==> reached >= to && done >= |Stream(log, to)|
      ensures Ran(s.fate, old(s.at), s.at, fate)
    {
      hide Indexed, Range;
      ghost var before := reached;
      reached := Max(reached, to);
      StreamGrows(log, before, reached);
      assert Stream(log, before)[..done] == Stream(log, reached)[..done];
      StreamGrows(log, from - 1, to);
      StreamGrows(log, to, reached);
      if cursor.Some? { StreamGrows(log, cursor.value, reached); }
      StreamOfNothing(log);
      fate := InsertRows(Stream(log, reached), |Stream(log, from - 1)|, Range(log, from, to), s);
    }

    method InsertRows(ghost events: seq<Event>, ghost base: nat, logs: seq<Event>, s: Session) returns (fate: Fate)
      requires base + |logs| <= |events| && events[base..base + |logs|] == logs
      requires base <= done <= |events| && rows == Indexed(events[..done])
      modifies this`rows, this`done, s
      ensures old(done) <= done <= |events| && rows == Indexed(events[..done])
      ensures fate == Fine ==> done >= base + |logs|
      ensures old(s.AllFine()) ==> s.AllFine() && fate == Fine
      ensures Ran(s.fate, old(s.at), s.at, fate)
    {
      hide Indexed, Ran;
      RanNone(s.fate, s.at);
      for i := 0 to |logs|
        invariant old(s.AllFine()) ==> s.AllFine()
        invariant base + i <= done <= |events| && old(done) <= done && rows == Indexed(events[..done])
        invariant Ran(s.fate, old(s.at), s.at, Fine)
      {
        assert events[base + i] == events[base..base + |logs|][i];
        InsertNext(events, done, base + i);
        hide OnePerKey, Held;
        if logs[i].amount > 0 {
          RanNone(s.fate, s.at);
          fate := s.Tick();
          RanOn(s.fate, old(s.at), s.at - 1, s.at, fate);
          if fate != Fine { return; }
          var inserted := Insert(logs[i]);
        }
        if base + i == done { done := done + 1; }
      }
      fate := Fine;
    }

    /**
     * One pass over at most MAX_SPAN + 1 blocks, starting right after the cursor. The
     * cursor moves to the end of the window once every row of it is in, and not before.
     */
    method IndexWithdrawals(head: nat, confirmations: nat, logsUp: bool, s: Session) returns (caughtUp: Option<bool>)
      requires Valid()
      modifies this`rows, this`cursor, this`reached, this`done, s
      ensures Valid()
      ensures cursor == old(cursor) || cursor == Some(old(WindowEnd(SafeHead(head, confirmations))))
      ensures caughtUp == Some(true)
         <==> caughtUp.Some? && cursor.Some? && cursor.value >= SafeHead(head, confirmations)
      ensures old(s.AllFine()) && logsUp ==>
                caughtUp.Some? && cursor == Some(Max(old(From()) - 1, old(WindowEnd(SafeHead(head, confirmations)))))
      ensures caughtUp.Some? ==> Ran(s.fate, old(s.at), s.at, Fine)
      ensures caughtUp.None? ==>
                cursor == old(cursor) && exists fate :: Ran(s.fate, old(s.at), s.at, fate) && (fate == Fine ==> !logsUp)
      ensures old(From()) <= SafeHead(head, confirmations) && !logsUp ==> caughtUp.None? && rows == old(rows)
      ensures cursor != old(cursor) ==> s.at >= old(s.at) + 2
    {
      hide Indexed, Stream, Ran;
      caughtUp := None;
      var safeHead := SafeHead(head, confirmations);
      RanNone(s.fate, s.at);
      var fate := s.Tick();
      if fate != Fine { return; }
      var from := From();
      if from > safeHead { return Some(true); }
      var to := WindowEnd(safeHead);
      if !logsUp { return; }
      fate := InsertWindow(from, to, s);
      RanOn(s.fate, old(s.at), old(s.at) + 1, s.at, fate);
      if fate != Fine { return; }
      RanNone(s.fate, s.at);
      fate := s.Tick();
      RanOn(s.fate, old(s.at), s.at - 1, s.at, fate);
      if fate != Fine { return; }
      cursor := Some(if cursor.Some? then Max(cursor.value, to) else to);
      caughtUp := Some(to >= safeHead);
    }
  }

  /** Row i is the one row of its key. */
  ghost predicate SoleRow(rows: seq<Event>, k: Key, i: int) {
    0 <= i < |rows| && KeyOf(rows[i]) == k && forall j :: 0 <= j < |rows| && KeyOf(rows[j]) == k ==> j == i
  }

  /** In every reachable state each event at or below the cursor has exactly one row under its key. */
  lemma CursorIsCovered(index: WithdrawalIndex, e: Event)
    requires index.Valid() && index.cursor.Some? && e in Stream(index.log, index.cursor.value) && e.amount > 0
    ensures exists i :: SoleRow(index.rows, KeyOf(e), i)
    ensures OnePerKey(Stream(index.log, index.reached)) ==> e in index.rows
  {
    var events := Stream(index.log, index.reached);
    var prefix := events[..index.done];
    StreamGrows(index.log, index.cursor.value, index.reached);
    var k :| 0 <= k < |Stream(index.log, index.cursor.value)| && Stream(index.log, index.cursor.value)[k] == e;
    assert prefix[k] == e;
    hide Stream, Indexed;
    HeldOnce(prefix, e);
    if OnePerKey(events) {
      PrefixIsOnePerKey(events, index.done);
      MirrorsExactlyWhenKeysDiffer(prefix);
    }
  }

  lemma HeldOnce(events: seq<Event>, e: Event)
    requires e in events && e.amount > 0
    ensures exists i :: SoleRow(Indexed(events), KeyOf(e), i)
  {
    IndexedFacts(events);
    var rows := Indexed(events);
    var i :| 0 <= i < |rows| && KeyOf(rows[i]) == KeyOf(e);
    assert SoleRow(rows, KeyOf(e), i);
  }

  lemma PrefixIsOnePerKey(events: seq<Event>, n: nat)
    requires OnePerKey(events) && n <= |events|
    ensures OnePerKey(events[..n])
  {
    forall x | x in events[..n] ensures x in events { }
  }

  function AsEntries(events: seq<Event>): seq<Entry> {
    Map(events, (e: Event) => Entry(e.id, e.amount))
  }

  /** Blocks without events add nothing. */
  lemma {:induction false} QuietBlocks(log: nat -> seq<Event>, k: int, upTo: int)
    requires -1 <= k <= upTo && forall b: nat :: b > k ==> log(b) == []
    ensures Stream(log, upTo) == Stream(log, k)
    decreases upTo - k
  {
    if k < upTo { QuietBlocks(log, k, upTo - 1); }
  }

  /** With no event above the cursor, the rows are what indexing everything gives. */
  lemma NothingLeftToIndex(index: WithdrawalIndex)
    requires index.Valid() && index.cursor.Some? && forall b: nat :: b > index.cursor.value ==> index.log(b) == []
    ensures index.rows == Indexed(Stream(index.log, index.cursor.value))
  {
    QuietBlocks(index.log, index.cursor.value, index.reached);
    var events := Stream(index.log, index.reached);
    assert events[..index.done] == events;
  }

  /**
   * The two public figures agree. With the contract's whole log at or below the cursor,
   * and no credit gone unrecorded, a node's credited total less its indexed withdrawals
   * is the balance the contract holds for it.
   */
  lemma LedgerBalanceIsChainBalance(v: Vault, b: Books, index: WithdrawalIndex, c: nat)
    requires v.Valid() && Accounted(b) && b.log == v.credited && b.unrecorded == []
    requires index.Valid() && index.cursor.Some? && forall k: nat :: k > index.cursor.value ==> index.log(k) == []
    requires OnePerKey(Stream(index.log, index.cursor.value))
    requires AsEntries(Stream(index.log, index.cursor.value)) == v.withdrawn
    requires c in b.nodes && 1 <= c <= |v.balances|
    ensures RowsSum(b.credits, b.nodes[c].id) - SumOf(AsEntries(index.rows), c) == v.balances[c - 1]
  {
    NothingLeftToIndex(index);
    MirrorsExactlyWhenKeysDiffer(Stream(index.log, index.cursor.value));
  }

  /** And so it does after one undisturbed pass of a fresh index that says it is caught up. */
  method IndexFromScratch(log: nat -> seq<Event>, head: nat, confirmations: nat, v: Vault, ghost b: Books, ghost c: nat)
    returns (index: WithdrawalIndex, caughtUp: Option<bool>)
    requires v.Valid() && Accounted(b) && b.log == v.credited && b.unrecorded == [] && c in b.nodes
    requires 1 <= c <= |v.balances|
    requires forall k: nat :: k > SafeHead(head, confirmations) ==> log(k) == []
    requires OnePerKey(Stream(log, SafeHead(head, confirmations)))
    requires AsEntries(Stream(log, SafeHead(head, confirmations))) == v.withdrawn
    ensures caughtUp.Some? && fresh(index) && index.Valid()
    ensures caughtUp == Some(true) ==>
              RowsSum(b.credits, b.nodes[c].id) - SumOf(AsEntries(index.rows), c) == v.balances[c - 1]
  {
    index := new WithdrawalIndex(log);
    var s := new Session((k: nat) => Fine);
    caughtUp := index.IndexWithdrawals(head, confirmations, true, s);
    if caughtUp == Some(true) { LedgerBalanceIsChainBalance(v, b, index, c); }
  }
}
