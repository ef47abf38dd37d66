/**
 * The two stores a credit pass writes, chain first and ledger second, as one value,
 * with an exact account of what the second store may be missing.
 */
module CreditBooks {
  import opened Wrappers
  import opened Seqs
  import opened Tiers
  import opened Vault
  import opened Schedule

  /** A row of `nodes`, found by its chain id; `id` is the ledger's own number for it. */
  datatype NodeEntry = NodeEntry(id: nat, active: bool, tier: Option<TierId>)

  /** A row of `credits`; it speaks the ledger id only. */
  datatype CreditRow = CreditRow(node: nat, amount: nat, at: int)

  /**
   * `floating` are batches that were sent and may still land. `unrecorded` is the
   * money that moved without a row; `lost` are the credits, landed or floating,
   * that no timer advance stands behind.
   */
  datatype Books = Books(
    nodes: map<nat, NodeEntry>,
    credits: seq<CreditRow>,
    timers: Timers,
    log: seq<Entry>,
    floating: seq<seq<Entry>>,
    unrecorded: seq<Entry>,
    lost: seq<Entry>)

  function RowsSum(credits: seq<CreditRow>, node: nat): nat {
    if credits == [] then 0 else
    var last := credits[|credits| - 1];
    RowsSum(credits[..|credits| - 1], node) + if last.node == node then last.amount else 0
  }

  function FloatCount(floating: seq<seq<Entry>>, id: nat): nat {
    if floating == [] then 0 else
    FloatCount(floating[..|floating| - 1], id) + CountOf(floating[|floating| - 1], id)
  }

  function Advances(timers: Timers, id: nat): nat {
    if id in timers then timers[id].count else 0
  }

  ghost predicate Known(nodes: map<nat, NodeEntry>, es: seq<Entry>) {
    forall e :: e in es ==> e.id in nodes
  }

  ghost predicate IdsUnique(nodes: map<nat, NodeEntry>) {
    forall c, d :: c in nodes && d in nodes && nodes[c].id == nodes[d].id ==> c == d
  }

  ghost predicate HasNode(nodes: map<nat, NodeEntry>, id: nat) {
    exists c :: c in nodes && nodes[c].id == id
  }

  /** To the wei: what the ledger shows for a node, plus what went unrecorded, is what the chain credited. */
  ghost predicate SumsAgree(b: Books) {
    forall c :: c in b.nodes ==> RowsSum(b.credits, b.nodes[c].id) + SumOf(b.unrecorded, c) == SumOf(b.log, c)
  }

  /**
   * Every credit, landed or still floating, was paid for by a timer advance, or belongs to a pass
   * that lost its own.
   */
  ghost predicate CountsAgree(b: Books) {
    forall c: nat :: CountOf(b.log, c) + FloatCount(b.floating, c) <= Advances(b.timers, c) + CountOf(b.lost, c)
  }

  ghost predicate Accounted(b: Books) {
    && IdsUnique(b.nodes)
    && Known(b.nodes, b.log) && Known(b.nodes, b.unrecorded)
    && (forall batch :: batch in b.floating ==> Known(b.nodes, batch))
    && (forall r :: r in b.credits ==> HasNode(b.nodes, r.node))
    && SumsAgree(b) && CountsAgree(b)
  }

  /** What follows for the reader of either store. */
  lemma LedgerNeverExceedsChain(b: Books, c: nat)
    requires Accounted(b) && c in b.nodes
    ensures RowsSum(b.credits, b.nodes[c].id) <= SumOf(b.log, c)
    ensures CountOf(b.log, c) <= Advances(b.timers, c) + CountOf(b.lost, c)
    ensures b.unrecorded == [] ==> RowsSum(b.credits, b.nodes[c].id) == SumOf(b.log, c)
  {
    assert CountOf(b.log, c) + FloatCount(b.floating, c) <= Advances(b.timers, c) + CountOf(b.lost, c);
  }

  /* ------------------------------------------------------------ list lemmas */

  function IdsOf(batch: seq<Entry>): set<nat> {
    set e | e in batch :: e.id
  }

  ghost predicate DistinctIds(batch: seq<Entry>) {
    forall i, j :: 0 <= i < j < |batch| ==> batch[i].id != batch[j].id
  }

  lemma {:induction false} CountIsOne(batch: seq<Entry>, id: nat)
    requires DistinctIds(batch)
    ensures CountOf(batch, id) == if id in IdsOf(batch) then 1 else 0
  {
    if batch != [] {
      var front, last := batch[..|batch| - 1], batch[|batch| - 1];
      CountIsOne(front, id);
      assert IdsOf(batch) == IdsOf(front) + {last.id};
    }
  }

  function RowsFor(nodes: map<nat, NodeEntry>, batch: seq<Entry>, at: int): (rows: seq<CreditRow>)
    requires Known(nodes, batch)
    ensures |rows| == |batch| && forall i :: 0 <= i < |rows| ==>
              rows[i] == CreditRow(nodes[batch[i].id].id, batch[i].amount, at)
  {
    seq(|batch|, i requires 0 <= i < |batch| =>
      assert batch[i] in batch; CreditRow(nodes[batch[i].id].id, batch[i].amount, at))
  }

  lemma {:induction false} RowsAppended(a: seq<CreditRow>, b: seq<CreditRow>, node: nat)
    ensures RowsSum(a + b, node) == RowsSum(a, node) + RowsSum(b, node)
    decreases |b|
  {
    if b == [] {
      assert a + b == a;
    } else {
      assert (a + b)[..|a + b| - 1] == a + b[..|b| - 1];
      RowsAppended(a, b[..|b| - 1], node);
    }
  }

  /** Rows under ledger ids say of a node what the batch said of it under its chain id. */
  lemma {:induction false} RowsForSum(nodes: map<nat, NodeEntry>, batch: seq<Entry>, at: int, c: nat)
    requires IdsUnique(nodes) && Known(nodes, batch) && c in nodes
    ensures RowsSum(RowsFor(nodes, batch, at), nodes[c].id) == SumOf(batch, c)
  {
    if batch != [] {
      var front, rows := batch[..|batch| - 1], RowsFor(nodes, batch, at);
      assert batch[|batch| - 1] in batch;
      RowsForSum(nodes, front, at, c);
      assert rows[..|rows| - 1] == RowsFor(nodes, front, at);
    }
  }

  lemma {:induction false} NoRows(credits: seq<CreditRow>, node: nat)
    requires forall r :: r in credits ==> r.node != node
    ensures RowsSum(credits, node) == 0
  {
    if credits != [] {
      assert credits[|credits| - 1] in credits;
      NoRows(credits[..|credits| - 1], node);
    }
  }

  lemma {:induction false} FloatAppended(a: seq<seq<Entry>>, b: seq<seq<Entry>>, id: nat)
    ensures FloatCount(a + b, id) == FloatCount(a, id) + FloatCount(b, id)
    decreases |b|
  {
    if b == [] {
      assert a + b == a;
    } else {
      assert (a + b)[..|a + b| - 1] == a + b[..|b| - 1];
      FloatAppended(a, b[..|b| - 1], id);
    }
  }

  function Without(floating: seq<seq<Entry>>, i: nat): seq<seq<Entry>>
    requires i < |floating|
  {
    floating[..i] + floating[i + 1..]
  }

  lemma FloatWithout(floating: seq<seq<Entry>>, i: nat, id: nat)
    requires i < |floating|
    ensures FloatCount(floating, id) == FloatCount(Without(floating, i), id) + CountOf(floating[i], id)
  {
    assert floating == floating[..i] + [floating[i]] + floating[i + 1..];
    FloatAppended(floating[..i] + [floating[i]], floating[i + 1..], id);
    FloatAppended(floating[..i], [floating[i]], id);
    FloatAppended(floating[..i], floating[i + 1..], id);
  }

  /* ------------------------------------------------------- what may happen */

  /** The batch landed; so far nothing else knows. This is also where a crash leaves it. */
  function Paid(b: Books, batch: seq<Entry>): Books {
    b.(log := b.log + batch, unrecorded := b.unrecorded + batch, lost := b.lost + batch)
  }

  /** Landed, then recorded and advanced in one transaction. */
  function Written(b: Books, batch: seq<Entry>, at: int, delay: nat -> int): Books
    requires Known(b.nodes, batch)
  {
    b.(log := b.log + batch, credits := b.credits + RowsFor(b.nodes, batch, at),
       timers := Advanced(b.timers, IdsOf(batch), at, delay))
  }

  /** Landed, not recorded, but the timers were moved. */
  function Salvaged(b: Books, batch: seq<Entry>, at: int, delay: nat -> int): Books {
    b.(log := b.log + batch, unrecorded := b.unrecorded + batch, timers := Advanced(b.timers, IdsOf(batch), at, delay))
  }

  /** Sent, and no receipt: it may land later, or never. */
  function Floated(b: Books, batch: seq<Entry>): Books {
    b.(floating := b.floating + [batch], lost := b.lost + batch)
  }

  function FloatLanded(b: Books, i: nat): Books
    requires i < |b.floating|
  {
    b.(log := b.log + b.floating[i], unrecorded := b.unrecorded + b.floating[i], floating := Without(b.floating, i))
  }

  function FloatDropped(b: Books, i: nat): Books
    requires i < |b.floating|
  {
    b.(floating := Without(b.floating, i))
  }

  lemma PaidKeeps(b: Books, batch: seq<Entry>)
    requires Accounted(b) && Known(b.nodes, batch)
    ensures Accounted(Paid(b, batch))
  {
    forall c: nat ensures SumOf(b.log + batch, c) == SumOf(b.log, c) + SumOf(batch, c)
                       && SumOf(b.unrecorded + batch, c) == SumOf(b.unrecorded, c) + SumOf(batch, c)
                       && CountOf(b.log + batch, c) == CountOf(b.log, c) + CountOf(batch, c)
                       && CountOf(b.lost + batch, c) == CountOf(b.lost, c) + CountOf(batch, c) {
      Appended(b.log, batch, c);
      Appended(b.unrecorded, batch, c);
      Appended(b.lost, batch, c);
    }
  }

  lemma AdvancePays(b: Books, batch: seq<Entry>, at: int, delay: nat -> int, c: nat)
    requires DistinctIds(batch) && IdsOf(batch) <= b.timers.Keys
    ensures Advances(Advanced(b.timers, IdsOf(batch), at, delay), c) == Advances(b.timers, c) + CountOf(batch, c)
  {
    CountIsOne(batch, c);
  }

  lemma WrittenKeeps(b: Books, batch: seq<Entry>, at: int, delay: nat -> int)
    requires Accounted(b) && Known(b.nodes, batch) && DistinctIds(batch) && IdsOf(batch) <= b.timers.Keys
    ensures Accounted(Written(b, batch, at, delay))
  {
    var rows := RowsFor(b.nodes, batch, at);
    forall r | r in rows ensures HasNode(b.nodes, r.node) {
      var i :| 0 <= i < |rows| && rows[i] == r;
      assert batch[i] in batch;
    }
    forall c: nat ensures CountOf(b.log + batch, c) + FloatCount(b.floating, c)
                            <= Advances(Advanced(b.timers, IdsOf(batch), at, delay), c) + CountOf(b.lost, c) {
      Appended(b.log, batch, c);
      AdvancePays(b, batch, at, delay, c);
    }
    forall c | c in b.nodes
      ensures RowsSum(b.credits + rows, b.nodes[c].id) + SumOf(b.unrecorded, c) == SumOf(b.log + batch, c)
    {
      Appended(b.log, batch, c);
      RowsAppended(b.credits, rows, b.nodes[c].id);
      RowsForSum(b.nodes, batch, at, c);
    }
  }

  lemma SalvagedKeeps(b: Books, batch: seq<Entry>, at: int, delay: nat -> int)
    requires Accounted(b) && Known(b.nodes, batch) && DistinctIds(batch) && IdsOf(batch) <= b.timers.Keys
    ensures Accounted(Salvaged(b, batch, at, delay))
  {
    forall c: nat ensures CountOf(b.log + batch, c) + FloatCount(b.floating, c)
                            <= Advances(Advanced(b.timers, IdsOf(batch), at, delay), c) + CountOf(b.lost, c) {
      Appended(b.log, batch, c);
      AdvancePays(b, batch, at, delay, c);
    }
    forall c: nat ensures SumOf(b.log + batch, c) == SumOf(b.log, c) + SumOf(batch, c)
                       && SumOf(b.unrecorded + batch, c) == SumOf(b.unrecorded, c) + SumOf(batch, c) {
      Appended(b.log, batch, c);
      Appended(b.unrecorded, batch, c);
    }
  }

  lemma FloatedKeeps(b: Books, batch: seq<Entry>)
    requires Accounted(b) && Known(b.nodes, batch)
    ensures Accounted(Floated(b, batch))
  {
    forall c: nat ensures FloatCount(b.floating + [batch], c) == FloatCount(b.floating, c) + CountOf(batch, c)
                       && CountOf(b.lost + batch, c) == CountOf(b.lost, c) + CountOf(batch, c) {
      FloatAppended(b.floating, [batch], c);
      Appended(b.lost, batch, c);
    }
  }

  lemma FloatLandedKeeps(b: Books, i: nat)
    requires Accounted(b) && i < |b.floating|
    ensures Accounted(FloatLanded(b, i)) && Accounted(FloatDropped(b, i))
  {
    var batch := b.floating[i];
    assert Known(b.nodes, batch);
    forall k | k in Without(b.floating, i) ensures k in b.floating { }
    forall c: nat ensures SumOf(b.log + batch, c) == SumOf(b.log, c) + SumOf(batch, c)
                       && SumOf(b.unrecorded + batch, c) == SumOf(b.unrecorded, c) + SumOf(batch, c)
                       && CountOf(b.log + batch, c) + FloatCount(Without(b.floating, i), c)
                          == CountOf(b.log, c) + FloatCount(b.floating, c)
                       && FloatCount(Without(b.floating, i), c) <= FloatCount(b.floating, c) {
      Appended(b.log, batch, c);
      Appended(b.unrecorded, batch, c);
      FloatWithout(b.floating, i, c);
    }
  }

  /** Timers may be deferred, and new ones may appear: counts stay. */
  lemma TimersKeep(b: Books, timers: Timers)
    requires Accounted(b) && forall c: nat :: Advances(timers, c) == Advances(b.timers, c)
    ensures Accounted(b.(timers := timers))
  {
  }

  /** A new ledger row takes a ledger id nobody had, for a node nobody credited; retiring one changes no id. */
  lemma NodeKeeps(b: Books, c: nat, entry: NodeEntry)
    requires Accounted(b)
    requires if c in b.nodes then entry.id == b.nodes[c].id else !HasNode(b.nodes, entry.id)
    ensures Accounted(b.(nodes := b.nodes[c := entry]))
  {
    var b' := b.(nodes := b.nodes[c := entry]);
    hide SumOf, RowsSum, CountOf, FloatCount, Advances;
    forall r | r in b.credits ensures HasNode(b'.nodes, r.node) {
      var d :| d in b.nodes && b.nodes[d].id == r.node;
      assert d in b'.nodes && b'.nodes[d].id == r.node;
    }
    if c !in b.nodes {
      Absent(b.log, c);
      Absent(b.unrecorded, c);
      NoRows(b.credits, entry.id);
    }
  }

  /* ------------------------------------------------------------ rolling cap */

  const DAY := 86_400 * SECOND

  /** credited24h, as of `now`: everything recorded after now − 24h. */
  function RecordedSince(credits: seq<CreditRow>, after: int): nat {
    if credits == [] then 0 else
    var last := credits[|credits| - 1];
    RecordedSince(credits[..|credits| - 1], after) + if last.at > after then last.amount else 0
  }

  /** What was recorded in the 24 hours ending at t. */
  function InDay(credits: seq<CreditRow>, t: int): nat {
    if credits == [] then 0 else
    var last := credits[|credits| - 1];
    InDay(credits[..|credits| - 1], t) + if t - DAY < last.at <= t then last.amount else 0
  }

  /** At every instant, not only when a pass looks. */
  ghost predicate Capped(credits: seq<CreditRow>, cap: nat) {
    forall t :: InDay(credits, t) <= cap
  }

  /** What the ledger rows with a property add up to. */
  function AmountOf(credits: seq<CreditRow>, counts: CreditRow -> bool): nat {
    if credits == [] then 0 else
    AmountOf(credits[..|credits| - 1], counts) + if counts(credits[|credits| - 1]) then credits[|credits| - 1].amount
      else 0
  }

  /**
   * The rail's figure is what was recorded after the instant it asks about, no more and no
   * less; looked at when nothing newer is recorded, it is what the last 24 hours hold.
   */
  lemma {:induction false} RailReadsTheDay(credits: seq<CreditRow>, now: int)
    ensures forall after: int :: RecordedSince(credits, after) == AmountOf(credits, (c: CreditRow) => c.at > after)
    ensures InDay(credits, now) == AmountOf(credits, (c: CreditRow) => now - 86_400_000_000 < c.at <= now)
    ensures (forall c :: c in credits ==> c.at <= now) ==> RecordedSince(credits, now - DAY) == InDay(credits, now)
  {
    if credits != [] { RailReadsTheDay(credits[..|credits| - 1], now); }
  }

  lemma {:induction false} InDayBelow(credits: seq<CreditRow>, t: int, after: int)
    requires after <= t - DAY
    ensures InDay(credits, t) <= RecordedSince(credits, after)
  {
    if credits != [] { InDayBelow(credits[..|credits| - 1], t, after); }
  }

  function RowsTotal(rows: seq<CreditRow>): nat {
    if rows == [] then 0 else RowsTotal(rows[..|rows| - 1]) + rows[|rows| - 1].amount
  }

  lemma {:induction false} InDayAppended(credits: seq<CreditRow>, rows: seq<CreditRow>, at: int, t: int)
    requires forall r :: r in rows ==> r.at == at
    ensures InDay(credits + rows, t) == InDay(credits, t) + if t - DAY < at <= t then RowsTotal(rows) else 0
    decreases |rows|
  {
    if rows == [] {
      assert credits + rows == credits;
    } else {
      assert rows[|rows| - 1] in rows;
      assert (credits + rows)[..|credits + rows| - 1] == credits + rows[..|rows| - 1];
      InDayAppended(credits, rows[..|rows| - 1], at, t);
    }
  }

  lemma {:induction false} RowsForTotal(nodes: map<nat, NodeEntry>, batch: seq<Entry>, at: int)
    requires Known(nodes, batch)
    ensures RowsTotal(RowsFor(nodes, batch, at)) == Total(batch)
  {
    if batch != [] {
      var front, rows := batch[..|batch| - 1], RowsFor(nodes, batch, at);
      RowsForTotal(nodes, front, at);
      assert rows[..|rows| - 1] == RowsFor(nodes, front, at);
    }
  }

  /** A pass that fitted the cap when it looked keeps every 24-hour window under it, however late it commits. */
  lemma CapHolds(credits: seq<CreditRow>, nodes: map<nat, NodeEntry>, batch: seq<Entry>, looked: int, at: int, cap: nat)
    requires Known(nodes, batch) && Capped(credits, cap) && looked <= at
    requires RecordedSince(credits, looked - DAY) + Total(batch) <= cap
    ensures Capped(credits + RowsFor(nodes, batch, at), cap)
  {
    var rows := RowsFor(nodes, batch, at);
    forall t ensures InDay(credits + rows, t) <= cap {
      InDayAppended(credits, rows, at, t);
      RowsForTotal(nodes, batch, at);
      if at <= t { InDayBelow(credits, t, looked - DAY); }
    }
  }
}
