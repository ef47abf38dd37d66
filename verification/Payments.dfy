/** The payments queue and the block cursor (lib/payments.ts). */
module Payments {
  import opened Wrappers
  import opened Chain
  import opened Selection
  import opened Tiers

  /** Give up after this many failed mint attempts and raise it for a human. */
  const MAX_MINT_ATTEMPTS := 10

  datatype Status = Seen | Minting | Minted | Failed | ManualReview | Refunded

  datatype Row = Row(
    id: nat,
    from: Address,
    amount: nat,
    block: int,
    status: Status,
    tier: Option<TierId>,
    attempts: nat,
    node: Option<nat>,
    updatedAt: int)

  /** What a decision about a transfer says about its row. */
  datatype Verdict = Verdict(seen: bool, tier: Option<TierId>)

  /* ------------------------------------------------------- one row's life */

  /** The statements that change a row, with the `where` clause each carries. */
  datatype RowOp =
    | ClaimRow
    | MarkMinted(node: nat)
    | MarkMintFailed
    | MarkManualReview
    | RequeueStuck(olderThan: int)
    | Requeue(verdict: Verdict)
    | MarkRefunded
    | SetTier(tier: TierId)

  predicate Claimable(row: Row) {
    row.status == Seen || (row.status == Failed && row.attempts < MAX_MINT_ATTEMPTS)
  }

  function Apply(row: Row, op: RowOp, now: int): Row {
    match op
    case ClaimRow => if Claimable(row) then row.(status := Minting, updatedAt := now) else row
    case MarkMinted(node) => row.(status := Minted, node := Some(node), updatedAt := now)
    case MarkMintFailed =>
      row.(attempts := row.attempts + 1,
           status := if row.attempts + 1 >= MAX_MINT_ATTEMPTS then ManualReview else Failed,
           updatedAt := now)
    case MarkManualReview => row.(status := ManualReview, updatedAt := now)
    case RequeueStuck(olderThan) =>
      if row.status == Minting && row.updatedAt < now - olderThan then row.(status := Failed, updatedAt := now) else row
    case Requeue(v) =>
      if row.status == ManualReview || row.status == Failed
      then row.(status := if v.seen then Seen else ManualReview, tier := v.tier, attempts := 0, updatedAt := now)
      else row
    case MarkRefunded => if row.status == Minted then row else row.(status := Refunded, updatedAt := now)
    case SetTier(t) => row.(tier := Some(t), updatedAt := now)
  }

  /**
   * Passes are serialised: the relay writes the outcome of a row it holds in
   * `minting`, and the operator's steps, which look at no such thing, fall
   * between passes.
   */
  predicate Serialised(row: Row, op: RowOp) {
    match op
    case MarkMinted(_) => row.status == Minting
    case MarkMintFailed => row.status == Minting
    case MarkManualReview => row.status == Minting
    case SetTier(_) => row.status == Minting
    case _ => true
  }

  /** What holds of every row between statements. */
  predicate WellCounted(row: Row) {
    && row.attempts <= MAX_MINT_ATTEMPTS
    && (row.status == Seen ==> row.attempts == 0)
    && (row.status == Minting || row.status == Failed ==> row.attempts < MAX_MINT_ATTEMPTS)
  }

  lemma ApplyKeepsCount(row: Row, op: RowOp, now: int)
    requires WellCounted(row) && Serialised(row, op)
    ensures WellCounted(Apply(row, op, now))
    ensures row.from == Apply(row, op, now).from && row.amount == Apply(row, op, now).amount
    ensures row.status == Minted || row.status == Refunded ==> Apply(row, op, now).(updatedAt := row.updatedAt) == row
  {
  }

  /**
   * The same payment, in the same place of the queue, for the same tier: whatever is not status,
   * attempts, node or time.
   */
  predicate SamePayment(a: Row, b: Row) {
    a.id == b.id && a.from == b.from && a.amount == b.amount && a.block == b.block && a.tier == b.tier
  }

  /** Those, and no attempt spent and no node written. */
  predicate OnlyStatusMoved(a: Row, b: Row) {
    SamePayment(a, b) && a.attempts == b.attempts && a.node == b.node
  }

  /** In a table between statements the rows to mint are those seen or failed, and no others. */
  lemma QueuedIsClaimable(row: Row)
    requires WellCounted(row)
    ensures Claimable(row) <==> row.status == Seen || row.status == Failed
  {
  }

  /**
   * The life of a row, edge by edge: where each statement finds it, where it leaves it, and
   * that a statement whose place it is not at leaves it alone.
   */
  lemma LifeCycle(row: Row, op: RowOp, now: int)
    requires WellCounted(row) && Serialised(row, op)
    ensures var after := Apply(row, op, now);
            && (op.Requeue? || op.SetTier? || SamePayment(row, after)) && SamePayment(row, after.(tier := row.tier))
            && (after == row || after.updatedAt == now)
            && (match op
                case ClaimRow =>
                  if row.status in {Seen, Failed} then after.status == Minting && OnlyStatusMoved(row, after)
                    else after == row
                case MarkMinted(node) =>
                  after.status == Minted && after.node == Some(node) && after.attempts == row.attempts
                case MarkMintFailed =>
                  && after.attempts == row.attempts + 1 && after.node == row.node
                  && (after.status == Failed <==> Claimable(after))
                  && (after.status == ManualReview <==> !Claimable(after))
                case MarkManualReview => after.status == ManualReview && OnlyStatusMoved(row, after)
                case RequeueStuck(olderThan) =>
                  if row.status == Minting && now - row.updatedAt > olderThan
                  then Claimable(after) && after.status == Failed && OnlyStatusMoved(row, after) else after == row
                case Requeue(v) =>
                  if row.status in {ManualReview, Failed}
                  then after.attempts == 0 && after.node == row.node && after.tier == v.tier
                       && (Claimable(after) <==> v.seen) && (after.status == ManualReview <==> !v.seen)
                  else after == row
                case MarkRefunded =>
                  if row.status == Minted then after == row else after.status == Refunded && OnlyStatusMoved(row, after)
                case SetTier(tier) =>
                  && after.tier == Some(tier) && after.status == row.status
                  && after.attempts == row.attempts && after.node == row.node)
  {
  }

  datatype Timed = Timed(op: RowOp, now: int)

  function RunRow(row: Row, ops: seq<Timed>): Row {
    if ops == [] then row else
    var last := ops[|ops| - 1];
    Apply(RunRow(row, ops[..|ops| - 1]), last.op, last.now)
  }

  ghost predicate SerialRun(row: Row, ops: seq<Timed>) {
    forall i :: 0 <= i < |ops| ==> Serialised(RunRow(row, ops[..i]), ops[i].op)
  }

  function Failures(ops: seq<Timed>): nat {
    if ops == [] then 0 else
    Failures(ops[..|ops| - 1]) + if ops[|ops| - 1].op.MarkMintFailed? then 1 else 0
  }

  ghost predicate NoOperatorRequeue(ops: seq<Timed>) {
    forall i :: 0 <= i < |ops| ==> !ops[i].op.Requeue?
  }

  lemma SerialPrefix(row: Row, ops: seq<Timed>)
    requires ops != [] && SerialRun(row, ops)
    ensures SerialRun(row, ops[..|ops| - 1])
    ensures Serialised(RunRow(row, ops[..|ops| - 1]), ops[|ops| - 1].op)
  {
    var front := ops[..|ops| - 1];
    forall i | 0 <= i < |front| ensures Serialised(RunRow(row, front[..i]), front[i].op) {
      assert front[..i] == ops[..i];
    }
  }

  /**
   * The retry loop is bounded: between operator requeues every recorded failure
   * spends exactly one unit of the attempt budget, whatever else happens.
   */
  lemma {:induction false} RetriesAreBounded(row: Row, ops: seq<Timed>)
    requires WellCounted(row) && SerialRun(row, ops) && NoOperatorRequeue(ops)
    ensures WellCounted(RunRow(row, ops))
    ensures Failures(ops) == RunRow(row, ops).attempts - row.attempts
    ensures Failures(ops) <= MAX_MINT_ATTEMPTS - row.attempts
  {
    if ops != [] {
      SerialPrefix(row, ops);
      RetriesAreBounded(row, ops[..|ops| - 1]);
      ApplyKeepsCount(RunRow(row, ops[..|ops| - 1]), ops[|ops| - 1].op, ops[|ops| - 1].now);
    }
  }

  /** `minted` and `refunded` are terminal, and never claimed again, in every serialised run. */
  lemma {:induction false} FinishedStaysFinished(row: Row, ops: seq<Timed>)
    requires WellCounted(row) && SerialRun(row, ops)
    requires row.status == Minted || row.status == Refunded
    ensures RunRow(row, ops).(updatedAt := row.updatedAt) == row && !Claimable(RunRow(row, ops))
  {
    if ops != [] {
      SerialPrefix(row, ops);
      FinishedStaysFinished(row, ops[..|ops| - 1]);
      ApplyKeepsCount(RunRow(row, ops[..|ops| - 1]), ops[|ops| - 1].op, ops[|ops| - 1].now);
    }
  }

  /** A row whose budget is spent leaves the queue for good unless an operator puts it back. */
  lemma {:induction false} SpentRowWaitsForOperator(row: Row, ops: seq<Timed>)
    requires WellCounted(row) && SerialRun(row, ops) && NoOperatorRequeue(ops)
    requires row.status == ManualReview
    ensures RunRow(row, ops).status == ManualReview || RunRow(row, ops).status == Refunded
    ensures RunRow(row, ops).attempts == row.attempts && !Claimable(RunRow(row, ops))
  {
    if ops != [] {
      SerialPrefix(row, ops);
      SpentRowWaitsForOperator(row, ops[..|ops| - 1]);
    }
  }

  /* --------------------------------------------------------------- table */

  type Rows = map<Hash, Row>

  function ApplyAt(rows: Rows, h: Hash, op: RowOp, now: int): Rows {
    if h in rows then rows[h := Apply(rows[h], op, now)] else rows
  }

  function ApplyAll(rows: Rows, hs: set<Hash>, op: RowOp, now: int): Rows {
    map h | h in rows :: if h in hs then Apply(rows[h], op, now) else rows[h]
  }

  /** A transfer proved against the chain and decided about, ready to be written. */
  datatype Sighting = Sighting(hash: Hash, from: Address, amount: nat, block: int, verdict: Verdict)

  function FreshRow(s: Sighting, id: nat, now: int): (r: Row)
    ensures WellCounted(r) && (Claimable(r) <==> s.verdict.seen) && (r.status == ManualReview <==> !s.verdict.seen)
    ensures r.from == s.from && r.amount == s.amount && r.block == s.block && r.tier == s.verdict.tier
    ensures r.id == id && r.attempts == 0 && r.node == None && r.updatedAt == now
  {
    Row(id, s.from, s.amount, s.block, if s.verdict.seen then Seen else ManualReview, s.verdict.tier, 0, None, now)
  }

  /** Queue order: by block, then by insertion. */
  function QueueOrder(rows: Rows): (Hash, Hash) -> bool {
    (x: Hash, y: Hash) =>
      if x in rows && y in rows
      then rows[x].block < rows[y].block || (rows[x].block == rows[y].block && rows[x].id <= rows[y].id)
      else x in rows || y !in rows
  }

  function Queue(rows: Rows): set<Hash> {
    set h | h in rows && Claimable(rows[h])
  }

  /** Nothing left in the queue is older, by block and then by insertion, than anything taken. */
  lemma FirstByBlock(rows: Rows, limit: nat, claimed: seq<Hash>)
    requires IsFirst(Queue(rows), QueueOrder(rows), limit, claimed)
    ensures forall h :: h in claimed ==> h in rows && Claimable(rows[h])
    ensures forall x, y :: x in claimed && y in Queue(rows) && y !in claimed ==>
              rows[x].block < rows[y].block || (rows[x].block == rows[y].block && rows[x].id <= rows[y].id)
  {
  }

  lemma QueueOrderIsOne(rows: Rows)
    ensures Orders(QueueOrder(rows))
  {
  }

  /** The table once those rows were claimed. */
  function Taken(rows: Rows, claimed: seq<Hash>, now: int): Rows {
    ApplyAll(rows, (set h | h in claimed), ClaimRow, now)
  }

  lemma ClaimMoves(rows: Rows, claimed: seq<Hash>, now: int)
    requires forall h :: h in claimed ==> h in rows && Claimable(rows[h])
    ensures var after := ApplyAll(rows, (set h | h in claimed), ClaimRow, now);
            && after.Keys == rows.Keys && (forall h :: h in rows && h !in claimed ==> after[h] == rows[h])
            && forall h :: h in claimed ==>
                 h in after && after[h].status == Minting && after[h].updatedAt == now &&
                 OnlyStatusMoved(rows[h], after[h])
  {
  }

  /** Claimed longer ago than a pass may take: its process is gone. */
  predicate IsStuck(row: Row, olderThan: int, now: int) {
    row.status == Minting && now - row.updatedAt > olderThan
  }

  class PaymentTable {
    var rows: Rows
    var cursor: Option<int>
    var nextId: nat

    /** Rows are numbered as they came in: no number twice, and none given out again. */
    ghost predicate Numbered()
      reads this
    {
      && (forall h :: h in rows ==> rows[h].id < nextId)
      && (forall h, k :: h in rows && k in rows && rows[h].id == rows[k].id ==> h == k)
    }

    constructor ()
      ensures rows == map[] && cursor == None && nextId == 0 && Numbered()
    {
      rows, cursor, nextId := map[], None, 0;
    }

    /** Idempotent: a hash already held is left exactly as it is. */
    method RecordSeen(s: Sighting, now: int) returns (inserted: bool)
      modifies this`rows, this`nextId
      ensures inserted <==> s.hash !in old(rows)
      ensures rows == if s.hash in old(rows) then old(rows) else old(rows)[s.hash := FreshRow(s, old(nextId), now)]
      ensures nextId == old(nextId) + 1 && (old(Numbered()) ==> Numbered())
    {
      inserted := s.hash !in rows;
      if inserted { rows := rows[s.hash := FreshRow(s, nextId, now)]; }
      nextId := nextId + 1;
    }

    /** The next payments to mint, in queue order, moved out of the queue in the same statement. */
    method ClaimForMinting(limit: nat, now: int) returns (claimed: seq<Hash>)
      modifies this`rows
      ensures IsFirst(Queue(old(rows)), QueueOrder(old(rows)), limit, claimed)
      ensures rows == ApplyAll(old(rows), (set h | h in claimed), ClaimRow, now)
      ensures forall x, y :: x in claimed && y in Queue(old(rows)) && y !in claimed ==>
                old(rows)[x].block < old(rows)[y].block ||
                (old(rows)[x].block == old(rows)[y].block && old(rows)[x].id <= old(rows)[y].id)
      ensures rows.Keys == old(rows).Keys && forall h :: h in rows && h !in claimed ==> rows[h] == old(rows)[h]
      ensures old(Numbered()) ==> Numbered()
      ensures forall h :: h in claimed ==>
                h in rows && rows[h].status == Minting && rows[h].updatedAt == now &&
                OnlyStatusMoved(old(rows)[h], rows[h])
    {
      QueueOrderIsOne(rows);
      hide QueueOrder, Orders, IsFirst, ApplyAll, Queue, Claimable;
      claimed := TakeFirst(Queue(rows), QueueOrder(rows), limit);
      FirstByBlock(rows, limit, claimed);
      ClaimMoves(rows, claimed, now);
      rows := ApplyAll(rows, (set h | h in claimed), ClaimRow, now);
    }

    /** Every single-row statement. */
    method Update(h: Hash, op: RowOp, now: int)
      modifies this`rows
      ensures rows == ApplyAt(old(rows), h, op, now)
      ensures old(Numbered()) ==> Numbered()
    {
      if h in rows { rows := rows[h := Apply(rows[h], op, now)]; }
    }

    method RequeueStuckMinting(olderThan: int, now: int) returns (n: nat)
      modifies this`rows
      ensures rows == ApplyAll(old(rows), old(rows).Keys, RequeueStuck(olderThan), now)
      ensures n == |set h | h in old(rows) && IsStuck(old(rows)[h], olderThan, now)|
      ensures rows.Keys == old(rows).Keys && (old(Numbered()) ==> Numbered())
      ensures forall h :: h in rows ==>
                if IsStuck(old(rows)[h], olderThan, now)
                then rows[h].status == Failed && rows[h].updatedAt == now && OnlyStatusMoved(old(rows)[h], rows[h])
                else rows[h] == old(rows)[h]
      ensures forall h :: h in rows && IsStuck(old(rows)[h], olderThan, now) && WellCounted(old(rows)[h]) ==>
                h in Queue(rows)
    {
      var stuck := set h | h in rows && IsStuck(rows[h], olderThan, now);
      n := |stuck|;
      rows := ApplyAll(rows, rows.Keys, RequeueStuck(olderThan), now);
    }

    /** A hash paid back before it was ever recorded is written as refunded, so no later scan can mint it. */
    method RefundPayment(h: Hash, from: Address, amount: nat, block: int, now: int) returns (alreadyMinted: bool)
      modifies this`rows, this`nextId
      ensures alreadyMinted <==> h in old(rows) && old(rows)[h].status == Minted
      ensures rows == if h in old(rows) then old(rows)[h := Apply(old(rows)[h], MarkRefunded, now)]
                      else old(rows)[h := Row(old(nextId), from, amount, block, Refunded, None, 0, None, now)]
      ensures !alreadyMinted ==> h in rows && rows[h].status == Refunded
      ensures old(Numbered()) ==> Numbered()
    {
      alreadyMinted := h in rows && rows[h].status == Minted;
      if alreadyMinted { return; }
      if h in rows {
        rows := rows[h := Apply(rows[h], MarkRefunded, now)];
      } else {
        rows := rows[h := Row(nextId, from, amount, block, Refunded, None, 0, None, now)];
      }
      nextId := nextId + 1;
    }

    /** Monotone: a bad caller cannot move the cursor back. */
    method SetCursor(block: int)
      modifies this`cursor
      ensures cursor == Some(if old(cursor).Some? then Max(old(cursor).value, block) else block)
    {
      cursor := Some(if cursor.Some? then Max(cursor.value, block) else block);
    }
  }
}
