/**
 * One credit pass (lib/credit.ts) and whole runs of them: everything that can
 * refuse goes first, then the chain, then the ledger and the timers together,
 * then, if that failed, the timers alone.
 */
module Credit {
  import opened Wrappers
  import opened Selection
  import opened Process
  import opened Tiers
  import opened Vault
  import opened Schedule
  import opened CreditBooks
  import opened Policy
  import opened Settings
  import opened Amounts
  import opened Seqs

  /** What becomes of the creditBatch transaction. */
  datatype Send = SimulationFails | Unsent | NoReceipt | RevertsOnChain | Mined

  /** Everything one pass reads, draws and meets; its statements run at the four times, in order. */
  datatype World = World(
    cfg: Config,
    tiers: Table,
    hasKey: bool,
    chainUp: bool,
    paused: bool,
    distributorWei: Option<nat>,
    totalNodes: Option<nat>,
    gasPriceWei: nat,
    draw: nat -> nat,
    draws: nat -> seq<seq<Byte>>,
    delay: nat -> nat,
    salvageDelay: nat -> nat,
    send: Send,
    looked: int, capRead: int, committed: int, salvaged: int)

  /** A validated configuration, drawing that ended, and a clock that does not run backwards during the pass. */
  ghost predicate Sane(w: World) {
    && ValidConfig(w.cfg)
    && w.looked <= w.capRead <= w.committed <= w.salvaged
    && forall id :: WeiFor(w, id).Amount?
  }

  /** A node's own draw from the configured range. */
  function WeiFor(w: World, id: nat): Drawn {
    WeiDrawn(w.cfg.minAmountWei, w.cfg.maxAmountWei, w.draw(id), w.draws(id))
  }

  /** A node's own next delay, and the one drawn again if the timers have to be salvaged. */
  function Delays(w: World): nat -> int {
    (id: nat) => RandomDelaySec(w.cfg.minDelaySec, w.cfg.maxDelaySec, w.delay(id))
  }

  function SalvageDelays(w: World): nat -> int {
    (id: nat) => RandomDelaySec(w.cfg.minDelaySec, w.cfg.maxDelaySec, w.salvageDelay(id))
  }

  datatype SkipReason =
    | Disabled | ModeUnavailable | DistributorMissing | NoNodesDue | ChainUnreadable | ContractPaused
    | DistributorMismatch | NoCreditableNodes | Rail(reason: RailReason) | ChainCallFailed

  /** `advanced`: the timers moved, with the ledger rows or without them. */
  datatype Result =
    | Skipped(reason: SkipReason)
    | Credited(batch: seq<Entry>, recorded: bool, advanced: bool)
    | Threw
    | Died

  function Stopped(f: Fate): Result
    requires f != Fine
  {
    if f == Throws then Threw else Died
  }

  /** Active in the ledger, and an id the contract knows. */
  predicate Creditable(nodes: map<nat, NodeEntry>, total: nat, id: nat) {
    id in nodes && nodes[id].active && 1 <= id <= total
  }

  /** Creditable are the active nodes of the ledger for which the contract would accept a credit. */
  lemma CreditableIsAccepted(nodes: map<nat, NodeEntry>, total: nat, id: nat, amount: nat)
    requires 0 < amount <= MAX_AMOUNT
    ensures Creditable(nodes, total, id)
       <==> id in nodes && nodes[id].active && Acceptable(total, [Entry(id, amount)], amount)
  {
    assert [Entry(id, amount)][..0] == [];
    assert Total([Entry(id, amount)]) == amount;
    assert Entry(id, amount) in [Entry(id, amount)];
  }

  function GoodIds(nodes: map<nat, NodeEntry>, total: nat): set<nat> {
    set id | id in nodes && Creditable(nodes, total, id)
  }

  function Bps(entry: NodeEntry, w: World): nat {
    w.tiers.Get(TierById(entry.tier)).payoutBps
  }

  /** The drawn amount, scaled by the tier's multiplier; the division truncates. */
  function PayoutFor(entry: NodeEntry, w: World, id: nat): nat {
    var drawn := WeiFor(w, id);
    ((if drawn.Amount? then drawn.wei else 0) * Bps(entry, w)) / 10_000
  }

  /**
   * A payout is the node's own draw times its tier's multiplier, rounded down to the wei, and so
   * lies in the configured range scaled by that. A node without a stored tier is a base node.
   */
  lemma PayoutScales(entry: NodeEntry, w: World, id: nat, tier: TierId)
    requires Sane(w) && (entry.tier == Some(tier) || (entry.tier == None && tier == Base))
    ensures var bps, drawn := w.tiers.Get(tier).payoutBps, WeiFor(w, id).wei;
            && WeiDrawn(w.cfg.minAmountWei, w.cfg.maxAmountWei, w.draw(id), w.draws(id)) == Amount(drawn)
            && w.cfg.minAmountWei <= drawn <= w.cfg.maxAmountWei
            && 10_000 * PayoutFor(entry, w, id) <= drawn * bps < 10_000 * PayoutFor(entry, w, id) + 10_000
            && (w.cfg.minAmountWei * bps) / 10_000 <= PayoutFor(entry, w, id) <= (w.cfg.maxAmountWei * bps) / 10_000
  {
    assert WeiFor(w, id).Amount?;
    hide WeiFor;
    Amounts.TimesMonotone(w.cfg.minAmountWei, WeiFor(w, id).wei, Bps(entry, w));
    Amounts.TimesMonotone(WeiFor(w, id).wei, w.cfg.maxAmountWei, Bps(entry, w));
  }

  /** The batch for a due list: its creditable ids in order, each with its own draw. */
  function CandidatesOf(due: seq<nat>, nodes: map<nat, NodeEntry>, total: nat, w: World): seq<Entry> {
    if due == [] then [] else
    var front, id := CandidatesOf(due[..|due| - 1], nodes, total, w), due[|due| - 1];
    if Creditable(nodes, total, id) then front + [Entry(id, PayoutFor(nodes[id], w, id))] else front
  }

  lemma NobodyIsNoBatch(nodes: map<nat, NodeEntry>, w: World)
    ensures w.totalNodes.Some? ==> CandidatesOf([], nodes, w.totalNodes.value, w) == []
  {
  }

  /** Nobody twice, nobody unknown or retired, and everybody else who was due. */
  lemma {:induction false} CandidatesAreTheCreditable(due: seq<nat>, nodes: map<nat, NodeEntry>, total: nat, w: World)
    requires forall i, j :: 0 <= i < j < |due| ==> due[i] != due[j]
    ensures var batch := CandidatesOf(due, nodes, total, w);
            && DistinctIds(batch) && IdsOf(batch) == Batch(due, GoodIds(nodes, total))
            && forall e :: e in batch ==> e.id in nodes && e.amount == PayoutFor(nodes[e.id], w, e.id)
  {
    if due != [] {
      var front, id := due[..|due| - 1], due[|due| - 1];
      CandidatesAreTheCreditable(front, nodes, total, w);
      var before, batch := CandidatesOf(front, nodes, total, w), CandidatesOf(due, nodes, total, w);
      assert due == front + [id] && id !in front;
      assert Batch(due, GoodIds(nodes, total))
          == Batch(front, GoodIds(nodes, total)) + if Creditable(nodes, total, id) then {id} else {};
      if Creditable(nodes, total, id) {
        assert id !in IdsOf(before);
        assert IdsOf(batch) == IdsOf(before) + {id};
        forall i | 0 <= i < |before| ensures before[i].id != id { assert before[i] in before; }
      }
    }
  }

  method Candidates(due: seq<nat>, nodes: map<nat, NodeEntry>, total: nat, w: World)
    returns (batch: seq<Entry>, dropped: seq<nat>)
    ensures batch == CandidatesOf(due, nodes, total, w)
    ensures |batch| + |dropped| == |due| && forall id :: id in dropped <==> id in due && !Creditable(nodes, total, id)
  {
    batch, dropped := [], [];
    for i := 0 to |due|
      invariant batch == CandidatesOf(due[..i], nodes, total, w)
      invariant |batch| + |dropped| == i
      invariant forall id :: id in dropped <==> id in due[..i] && !Creditable(nodes, total, id)
    {
      assert due[..i + 1][..i] == due[..i] && due[..i + 1] == due[..i] + [due[i]];
      if !Creditable(nodes, total, due[i]) {
        dropped := dropped + [due[i]];
      } else {
        batch := batch + [Entry(due[i], PayoutFor(nodes[due[i]], w, due[i]))];
      }
    }
    assert due[..|due|] == due;
  }

  /** worker/amounts.ts sum. */
  method SumWei(batch: seq<Entry>) returns (total: nat)
    ensures total == Total(batch)
  {
    total := 0;
    for i := 0 to |batch|
      invariant total == Total(batch[..i])
    {
      assert batch[..i + 1][..i] == batch[..i];
      total := total + batch[i].amount;
    }
    assert batch[..|batch|] == batch;
  }

  datatype Till = Till(held: nat, outstanding: nat, known: nat)

  function RailsOf(batch: seq<Entry>, w: World, b: Books, till: Till): RailInput
    requires w.distributorWei.Some?
  {
    RailInput(Total(batch), RecordedSince(b.credits, w.capRead - DAY), w.cfg.dailyCapWei, till.held, till.outstanding,
              w.distributorWei.value, GasMarginWei(|batch|, w.gasPriceWei))
  }

  /** Distribution is on, in the mode there is, with a key to sign. */
  predicate ConfigAllows(w: World) {
    w.cfg.enabled && !w.cfg.swaps && w.hasKey
  }

  /** Configuration and chain allow a pass at all. */
  predicate Allowed(w: World) {
    ConfigAllows(w) && w.chainUp && !w.paused && w.distributorWei.Some? && w.totalNodes.Some?
  }

  /** The batch a due list stands for. */
  function BatchOf(due: seq<nat>, b: Books, w: World): seq<Entry> {
    if w.totalNodes.Some? then CandidatesOf(due, b.nodes, w.totalNodes.value, w) else []
  }

  /**
   * When each reason is the one to give. For a given list of due nodes no two of them
   * ever are, and one always is unless the batch is to be paid.
   */
  ghost predicate IsReason(reason: SkipReason, due: seq<nat>, w: World, b: Books, till: Till) {
    var batch := BatchOf(due, b, w);
    match reason
    case Disabled => !w.cfg.enabled
    case ModeUnavailable => w.cfg.enabled && w.cfg.swaps
    case DistributorMissing => w.cfg.enabled && !w.cfg.swaps && !w.hasKey
    case NoNodesDue => ConfigAllows(w) && due == []
    case ContractPaused => ConfigAllows(w) && due != [] && w.chainUp && w.paused
    case DistributorMismatch => ConfigAllows(w) && due != [] && w.chainUp && !w.paused && w.distributorWei.None?
    case ChainUnreadable =>
      ConfigAllows(w) && due != [] && (!w.chainUp || (!w.paused && w.distributorWei.Some? && w.totalNodes.None?))
    case NoCreditableNodes => Allowed(w) && due != [] && batch == []
    case Rail(rail) => Allowed(w) && batch != [] && CheckRails(RailsOf(batch, w, b, till)) == Some(rail)
    case ChainCallFailed =>
      && Allowed(w) && batch != [] && CheckRails(RailsOf(batch, w, b, till)).None?
      && !(w.send == Mined && Acceptable(till.known, batch, Total(batch)))
  }

  /**
   * Nothing stands in the way: somebody is creditable, the rails hold, and the transaction will be
   * mined and accepted.
   */
  ghost predicate MustPay(due: seq<nat>, w: World, b: Books, till: Till) {
    var batch := BatchOf(due, b, w);
    && Allowed(w) && batch != [] && CheckRails(RailsOf(batch, w, b, till)).None?
    && w.send == Mined && Acceptable(till.known, batch, Total(batch))
  }

  /** A reason given is the reason there is; what was paid was to be paid. */
  ghost predicate Explained(r: Result, due: seq<nat>, w: World, b: Books, till: Till) {
    match r
    case Skipped(reason) => IsReason(reason, due, w, b, till)
    case Credited(_, _, _) => MustPay(due, w, b, till)
    case _ => true
  }

  /** The reasons are exclusive, and none of them is there when the batch is to be paid. */
  lemma OneReason(x: SkipReason, y: SkipReason, due: seq<nat>, w: World, b: Books, till: Till)
    requires IsReason(x, due, w, b, till)
    ensures IsReason(y, due, w, b, till) ==> x == y
    ensures !MustPay(due, w, b, till)
  {
    NobodyIsNoBatch(b.nodes, w);
    assert due == [] ==> BatchOf(due, b, w) == [];
    hide BatchOf, CheckRails, Acceptable;
  }

  /** And one of them is there otherwise. */
  lemma SomeReason(due: seq<nat>, w: World, b: Books, till: Till)
    ensures MustPay(due, w, b, till) || exists reason :: IsReason(reason, due, w, b, till)
  {
    NobodyIsNoBatch(b.nodes, w);
    var batch := BatchOf(due, b, w);
    var reason :=
      if !w.cfg.enabled then Disabled
      else if w.cfg.swaps then ModeUnavailable
      else if !w.hasKey then DistributorMissing
      else if due == [] then NoNodesDue
      else if !w.chainUp then ChainUnreadable
      else if w.paused then ContractPaused
      else if w.distributorWei.None? then DistributorMismatch
      else if w.totalNodes.None? then ChainUnreadable
      else if batch == [] then NoCreditableNodes
      else if CheckRails(RailsOf(batch, w, b, till)).Some? then Rail(CheckRails(RailsOf(batch, w, b, till)).value)
      else ChainCallFailed;
    hide BatchOf, CheckRails, Acceptable;
    assert MustPay(due, w, b, till) || IsReason(reason, due, w, b, till);
  }

  /* ----------------------------------------------- what a pass leaves behind */

  /** Refusals that have nothing to do with any node's timer. */
  predicate Postpones(reason: SkipReason) {
    reason == ContractPaused || reason.Rail?
  }

  ghost predicate Positive(batch: seq<Entry>) {
    forall e :: e in batch ==> e.amount > 0
  }

  /** The books after a pass, to the last row, for every way it can end. */
  ghost predicate Moved(before: Books, after: Books, batch: seq<Entry>, w: World, r: Result) {
    match r
    case Credited(paid, true, advanced) =>
      paid == batch && advanced && Known(before.nodes, batch) && after == Written(before, batch, w.committed, Delays(w))
    case Credited(paid, false, true) => paid == batch && after == Salvaged(before, batch, w.salvaged, SalvageDelays(w))
    case Credited(paid, false, false) => paid == batch && after == Paid(before, batch)
    case Skipped(ChainCallFailed) =>
      after == if w.send == NoReceipt && Positive(batch) then Floated(before, batch) else before
    case Skipped(reason) =>
      after == if Postpones(reason)
               then before.(timers := Deferred(before.timers, w.capRead, w.cfg.maxDelaySec)) else before
    case Threw => after == before
    case Died => after == before || (w.send == Mined && after == Paid(before, batch))
  }

  ghost predicate Throwing(fate: nat -> Fate) {
    exists k: nat :: fate(k) == Throws
  }

  ghost predicate ThrowingTwice(fate: nat -> Fate) {
    exists k: nat :: fate(k) == Throws && fate(k + 1) == Throws
  }

  ghost predicate Dying(fate: nat -> Fate) {
    exists k: nat :: fate(k) == Dies
  }

  /** Nothing ends worse than its statements did. */
  ghost predicate Deserved(r: Result, fate: nat -> Fate, w: World) {
    && (r.Credited? || r == Died ==> r == Died || w.send == Mined)
    && (r.Credited? && !r.recorded ==> Throwing(fate))
    && (r.Credited? && !r.advanced ==> ThrowingTwice(fate))
    && (r == Threw ==> Throwing(fate))
    && (r == Died ==> Dying(fate))
  }

  /** The first of the next n statements that fails, if one does, is where the pass stops. */
  ghost predicate StopsAt(r: Result, fate: nat -> Fate, at: nat, n: nat)
    decreases n
  {
    n > 0 ==> if fate(at) != Fine then r == Stopped(fate(at)) else StopsAt(r, fate, at + 1, n - 1)
  }

  /** The passes whose advance may be lost: no receipt, or landed and then neither committed nor salvaged. */
  ghost predicate MayLose(w: World, fate: nat -> Fate) {
    w.send == NoReceipt || (w.send == Mined && (ThrowingTwice(fate) || Dying(fate)))
  }

  /** The passes whose money may go unrecorded: landed, and then not committed. */
  ghost predicate MayStray(w: World, fate: nat -> Fate) {
    w.send == Mined && (Throwing(fate) || Dying(fate))
  }

  /** A pass loses its own batch or nothing, and only if it may. */
  lemma LossesAreTied(before: Books, after: Books, batch: seq<Entry>, w: World, r: Result, fate: nat -> Fate)
    requires Moved(before, after, batch, w, r) && Deserved(r, fate, w)
    ensures after.lost == before.lost || (after.lost == before.lost + batch && MayLose(w, fate))
    ensures after.unrecorded == before.unrecorded ||
            (after.unrecorded == before.unrecorded + batch && MayStray(w, fate))
    ensures after.floating == before.floating || (after.floating == before.floating + [batch] && w.send == NoReceipt)
  {
  }

  /** Before anything was touched: the reasons that leave timers and money alone. */
  predicate EndsEarly(reason: SkipReason) {
    !Postpones(reason) && reason != ChainCallFailed
  }

  /** A pass that ends early leaves the books alone, and says why. */
  lemma EarlyEnd(r: Result, due: seq<nat>, w: World, b: Books, till: Till, batch: seq<Entry>)
    requires r == Threw || r == Died || (r.Skipped? && EndsEarly(r.reason) && IsReason(r.reason, due, w, b, till))
    ensures Moved(b, b, batch, w, r) && Explained(r, due, w, b, till)
  {
  }

  /** A statement that failed is why the pass stopped there. */
  lemma StoppedIsDeserved(fate: nat -> Fate, at: nat, w: World)
    requires fate(at) != Fine
    ensures Deserved(Stopped(fate(at)), fate, w)
  {
  }

  datatype Event =
    | Tick(w: World, fate: nat -> Fate)
    | NodeArrives(ledgerId: nat, tier: Option<TierId>, now: int, delaySec: int)
    | NodeRetires(c: nat)
    | HolderWithdraws(id: nat)
    | OwnerRescues(amount: nat)
    | AnyoneFunds(amount: nat)
    | LateBatch(i: nat, lands: bool)

  ghost predicate LosingEvent(e: Event) {
    e.Tick? && MayLose(e.w, e.fate)
  }

  /** A late batch lands unrecorded, too; it was sent by a pass that got no receipt. */
  ghost predicate StrayingEvent(e: Event) {
    (e.Tick? && MayStray(e.w, e.fate)) || (e.LateBatch? && e.lands)
  }

  /** What an event added to the two accounts of failures, and that it is an event that may. */
  ghost predicate Tied(before: Books, after: Books, e: Event, loss: seq<Entry>, stray: seq<Entry>) {
    && after.lost == before.lost + loss && DistinctIds(loss) && (loss != [] ==> LosingEvent(e))
    && after.unrecorded == before.unrecorded + stray && (stray != [] ==> StrayingEvent(e))
  }

  /** How many passes of a run may have lost their advance. */
  ghost function LosingPasses(events: seq<Event>): nat {
    if events == [] then 0 else
    LosingPasses(events[..|events| - 1]) + if LosingEvent(events[|events| - 1]) then 1 else 0
  }

  /** A pass loses at most one credit of a node. */
  lemma {:induction false} LossesAreCounted(events: seq<Event>, losses: seq<seq<Entry>>, c: nat)
    requires |losses| == |events|
    requires forall i :: 0 <= i < |events| ==> DistinctIds(losses[i]) && (losses[i] != [] ==> LosingEvent(events[i]))
    ensures CountOf(Flatten(losses), c) <= LosingPasses(events)
  {
    hide LosingEvent, DistinctIds;
    if events != [] {
      var front, last := losses[..|losses| - 1], losses[|losses| - 1];
      LossesAreCounted(events[..|events| - 1], front, c);
      Appended(Flatten(front), last, c);
      CountIsOne(last, c);
    }
  }

  class Desk {
    const v: Vault
    const sch: Schedule
    var nodes: map<nat, NodeEntry>
    var credits: seq<CreditRow>
    var floating: seq<seq<Entry>>
    ghost var unrecorded: seq<Entry>
    ghost var lost: seq<Entry>

    constructor ()
      ensures Valid() && fresh(v) && fresh(sch)
      ensures nodes == map[] && credits == [] && floating == [] && unrecorded == [] && lost == []
      ensures v.credited == [] && sch.timers == map[] && forall d :: sch.Spaced(d)
    {
      v := new Vault();
      sch := new Schedule();
      nodes, credits, floating, unrecorded, lost := map[], [], [], [], [];
    }

    ghost function Snap(): Books
      reads this, v, sch
    {
      Books(nodes, credits, sch.timers, v.credited, floating, unrecorded, lost)
    }

    /** Solvent, every balance explained, and both stores accounted for. */
    ghost predicate Valid()
      reads this, v, sch
    {
      v.Valid() && Accounted(Snap())
    }

    /** What the contract holds, owes and knows. */
    ghost function Cash(): Till
      reads v
    {
      Till(v.held, v.outstanding, |v.balances|)
    }

    /** Crediting brings its own value: what the contract holds beyond what it owes stays as it was. */
    twostate predicate SurplusKept()
      reads v
    {
      && v.held - v.outstanding == old(v.held - v.outstanding)
      && v.withdrawn == old(v.withdrawn) && |v.balances| == |old(v.balances)|
    }

    /** creditBatch of worker/chain.ts: the value is the sum, and no amount may be zero. */
    method SendBatch(batch: seq<Entry>, total: nat, send: Send) returns (landed: bool)
      requires Valid() && Known(nodes, batch) && total == Total(batch)
      modifies this`floating, this`lost, this`unrecorded, v
      ensures Valid() && SurplusKept()
      ensures landed <==> send == Mined && Acceptable(|v.balances|, batch, total)
      ensures Snap() == if landed then Paid(old(Snap()), batch)
                        else if send == NoReceipt && Positive(batch) then Floated(old(Snap()), batch)
                        else old(Snap())
    {
      hide Accounted, Sum, SumOf;
      landed := false;
      var positive := AllPositive(batch);
      if !positive || send == SimulationFails || send == Unsent || send == RevertsOnChain { return; }
      if send == NoReceipt {
        FloatedKeeps(Snap(), batch);
        floating := floating + [batch];
        lost := lost + batch;
        return;
      }
      PaidKeeps(Snap(), batch);
      landed := v.CreditBatch(batch, total);
      if landed {
        unrecorded := unrecorded + batch;
        lost := lost + batch;
      }
    }

    method AllPositive(batch: seq<Entry>) returns (ok: bool)
      ensures ok <==> Positive(batch)
    {
      for i := 0 to |batch|
        invariant forall k :: 0 <= k < i ==> batch[k].amount > 0
      {
        if batch[i].amount == 0 { return false; }
      }
      ok := true;
    }

    static ghost predicate MayAdvanceEither(timers: Timers, batch: seq<Entry>, w: World, d: int) {
      && MayAdvance(timers, IdsOf(batch), w.committed, Delays(w), d)
      && MayAdvance(timers, IdsOf(batch), w.salvaged, SalvageDelays(w), d)
    }

    /** Ledger rows and timers in one transaction; failing that, the timers alone. */
    method Record(ghost before: Books, batch: seq<Entry>, w: World, s: Session) returns (r: Result)
      requires v.Valid() && Accounted(before) && Snap() == Paid(before, batch) && w.send == Mined
      requires Known(before.nodes, batch) && DistinctIds(batch) && IdsOf(batch) <= before.timers.Keys
      modifies this`credits, this`unrecorded, this`lost, sch, s
      ensures Valid() && Moved(before, Snap(), batch, w, r) && Deserved(r, s.fate, w)
      ensures r == Died || r.Credited?
      ensures old(s.AllFine()) ==> r == Credited(batch, true, true)
      ensures forall d :: old(sch.Spaced(d)) && MayAdvanceEither(before.timers, batch, w, d) ==> sch.Spaced(d)
    {
      hide Accounted, Sum, SumOf, Moved, Deserved, DistinctIds, RowsFor, Advanced, AllSpaced, Delays, SalvageDelays;
      PaidKeeps(before, batch);
      ghost var first := s.at;
      var fate := s.Tick();
      if fate == Fine {
        WrittenKeeps(before, batch, w.committed, Delays(w));
        credits := credits + RowsFor(nodes, batch, w.committed);
        sch.AdvanceSchedules(IdsOf(batch), w.committed, Delays(w));
        unrecorded, lost := before.unrecorded, before.lost;
        r := Credited(batch, true, true);
      } else if fate == Dies {
        r := Died;
      } else {
        fate := s.Tick();
        if fate == Fine {
          SalvagedKeeps(before, batch, w.salvaged, SalvageDelays(w));
          sch.AdvanceSchedules(IdsOf(batch), w.salvaged, SalvageDelays(w));
          lost := before.lost;
          r := Credited(batch, false, true);
        } else {
          r := if fate == Throws then Credited(batch, false, false) else Died;
        }
      }
      Recording(before, Snap(), batch, w, r, s.fate, first);
    }

    /** What became of the two statements is what the result says. */
    lemma Recording(before: Books, after: Books, batch: seq<Entry>, w: World, r: Result, fate: nat -> Fate, at: nat)
      requires w.send == Mined && Known(before.nodes, batch)
      requires match r
               case Credited(paid, true, true) =>
                 paid == batch && after == Written(before, batch, w.committed, Delays(w))
               case Credited(paid, false, true) =>
                 paid == batch && fate(at) == Throws && after == Salvaged(before, batch, w.salvaged, SalvageDelays(w))
               case Credited(paid, false, false) =>
                 paid == batch && fate(at) == Throws && fate(at + 1) == Throws && after == Paid(before, batch)
               case Died => (fate(at) == Dies || fate(at + 1) == Dies) && after == Paid(before, batch)
               case _ => false
      ensures Moved(before, after, batch, w, r) && Deserved(r, fate, w)
    {
    }

    /** A refusal that is no node's fault: due timers are pushed out, so that no backlog builds. */
    method Defer(reason: SkipReason, w: World, s: Session) returns (r: Result)
      requires Valid() && w.cfg.maxDelaySec >= 0 && Postpones(reason)
      modifies sch, s
      ensures Valid() && forall d :: old(sch.Spaced(d)) ==> sch.Spaced(d)
      ensures r == Skipped(reason) || r == Threw || r == Died
      ensures forall batch :: Moved(old(Snap()), Snap(), batch, w, r)
      ensures Deserved(r, s.fate, w) && (old(s.AllFine()) ==> r == Skipped(reason))
      ensures var fate := s.fate(old(s.at)); r == if fate == Fine then Skipped(reason) else Stopped(fate)
    {
      hide Accounted, Sum, SumOf, AllSpaced;
      var fate := s.Tick();
      if fate != Fine { return Stopped(fate); }
      ghost var before := Snap();
      sch.DeferAll(w.capRead, w.cfg.maxDelaySec);
      TimersKeep(before, sch.timers);
      r := Skipped(reason);
    }

    /** The batch was taken from nodes that were due when the pass looked. */
    ghost predicate TakenFrom(b: Books, due: seq<nat>, batch: seq<Entry>, w: World) {
      && w.totalNodes.Some? && batch == BatchOf(due, b, w)
      && IsFirst(DueSet(b.timers, w.looked), NextOrder(b.timers), MAX_NODES_PER_TICK, due)
    }

    lemma TakenFacts(b: Books, due: seq<nat>, batch: seq<Entry>, w: World, d: int)
      requires TakenFrom(b, due, batch, w) && Sane(w) && d <= w.cfg.minDelaySec * SECOND
      ensures Known(b.nodes, batch) && DistinctIds(batch) && IdsOf(batch) <= b.timers.Keys
      ensures MayAdvanceEither(b.timers, batch, w, d)
      ensures IdsOf(batch) == Batch(due, GoodIds(b.nodes, w.totalNodes.value))
    {
      hide CandidatesOf, NextOrder, WeiFor, RandomDelaySec, Delays, SalvageDelays;
      CandidatesAreTheCreditable(due, b.nodes, w.totalNodes.value, w);
      DueSoonEnough(b.timers, due, w.looked);
      forall e | e in batch ensures e.id in b.nodes { assert e.id in IdsOf(batch); }
      DelaysAreLongEnough(w, d);
    }

    static lemma DueSoonEnough(timers: Timers, due: seq<nat>, now: int)
      requires IsFirst(DueSet(timers, now), NextOrder(timers), MAX_NODES_PER_TICK, due)
      ensures forall id :: id in due ==> id in timers && timers[id].next <= now
    {
    }

    static lemma DelaysAreLongEnough(w: World, d: int)
      requires Sane(w) && d <= w.cfg.minDelaySec * SECOND
      ensures forall id :: Delays(w)(id) * SECOND >= d && SalvageDelays(w)(id) * SECOND >= d
      ensures forall id :: Delays(w)(id) >= 1 && SalvageDelays(w)(id) >= 1
    {
      hide RandomInt, WeiFor;
      forall id: nat ensures Delays(w)(id) >= w.cfg.minDelaySec && SalvageDelays(w)(id) >= w.cfg.minDelaySec {
        assert Delays(w)(id) == RandomDelaySec(w.cfg.minDelaySec, w.cfg.maxDelaySec, w.delay(id));
        assert SalvageDelays(w)(id) == RandomDelaySec(w.cfg.minDelaySec, w.cfg.maxDelaySec, w.salvageDelay(id));
      }
    }

    /** Chain, then ledger: the rails have let this batch through. */
    method SendAndRecord(due: seq<nat>, batch: seq<Entry>, total: nat, w: World, s: Session) returns (r: Result)
      requires Valid() && Sane(w) && TakenFrom(Snap(), due, batch, w) && total == Total(batch)
      requires RecordedSince(credits, w.capRead - DAY) + total <= w.cfg.dailyCapWei
      modifies this`credits, this`floating, this`unrecorded, this`lost, v, sch, s
      ensures Valid() && SurplusKept()
      ensures forall d :: old(sch.Spaced(d)) && d <= w.cfg.minDelaySec * SECOND ==> sch.Spaced(d)
      ensures old(Capped(credits, w.cfg.dailyCapWei)) ==> Capped(credits, w.cfg.dailyCapWei)
      ensures Moved(old(Snap()), Snap(), batch, w, r) && Deserved(r, s.fate, w) && r != Threw
      ensures r.Skipped? <==> !(w.send == Mined && Acceptable(|v.balances|, batch, total))
      ensures r.Skipped? ==> r == Skipped(ChainCallFailed)
      ensures old(s.AllFine()) && w.send == Mined && Acceptable(|v.balances|, batch, total) ==>
                r == Credited(batch, true, true)
    {
      hide Accounted, Capped, TakenFrom, MayAdvanceEither, Sum, SumOf, AllSpaced, Acceptable, RecordedSince, RowsFor,
           Advanced, Throwing, ThrowingTwice, Dying, Total, IdsOf;
      ghost var before := Snap();
      TakenFacts(before, due, batch, w, w.cfg.minDelaySec * SECOND);
      var landed := SendBatch(batch, total, w.send);
      if !landed { return Skipped(ChainCallFailed); }
      forall d | old(sch.Spaced(d)) && d <= w.cfg.minDelaySec * SECOND
        ensures MayAdvanceEither(before.timers, batch, w, d)
      {
        TakenFacts(before, due, batch, w, d);
      }
      if Capped(credits, w.cfg.dailyCapWei) {
        CapHolds(credits, nodes, batch, w.capRead, w.committed, w.cfg.dailyCapWei);
      }
      r := Record(before, batch, w, s);
    }

    /** Sum, rails, and then the money. */
    method Pay(due: seq<nat>, batch: seq<Entry>, w: World, s: Session) returns (r: Result)
      requires Valid() && Sane(w) && Allowed(w) && batch != [] && TakenFrom(Snap(), due, batch, w)
      modifies this`credits, this`floating, this`unrecorded, this`lost, v, sch, s
      ensures Valid() && SurplusKept()
      ensures forall d :: old(sch.Spaced(d)) && d <= w.cfg.minDelaySec * SECOND ==> sch.Spaced(d)
      ensures old(Capped(credits, w.cfg.dailyCapWei)) ==> Capped(credits, w.cfg.dailyCapWei)
      ensures Moved(old(Snap()), Snap(), batch, w, r) && Deserved(r, s.fate, w)
      ensures Explained(r, due, w, old(Snap()), old(Cash()))
      ensures old(s.AllFine()) ==> r.Skipped? || r == Credited(batch, true, true)
      ensures s.fate(old(s.at)) != Fine ==> r == Stopped(s.fate(old(s.at)))
    {
      hide Accounted, Capped, AllSpaced, CandidatesOf, IsFirst, Acceptable, Moved, RecordedSince, Total, SumOf, Sum,
           Deserved, DueSet, NextOrder;
      var total := SumWei(batch);
      var fate := s.Tick();
      if fate != Fine {
        EarlyEnd(Stopped(fate), due, w, Snap(), Cash(), batch);
        StoppedIsDeserved(s.fate, s.at - 1, w);
        return Stopped(fate);
      }
      var credited24h, margin := RecordedSince(credits, w.capRead - DAY), GasMarginWei(|batch|, w.gasPriceWei);
      var rails := RailInput(total, credited24h, w.cfg.dailyCapWei, v.held, v.outstanding,
                             w.distributorWei.value, margin);
      var refusal := CheckRails(rails);
      if refusal.Some? {
        r := Defer(Rail(refusal.value), w, s);
      } else {
        r := SendAndRecord(due, batch, total, w, s);
      }
    }

    /** The part of the pass that needs the chain: nothing here is reached with nothing due. */
    method PassOver(due: seq<nat>, w: World, s: Session) returns (r: Result)
      requires Valid() && Sane(w) && ConfigAllows(w) && due != []
      requires IsFirst(DueSet(sch.timers, w.looked), NextOrder(sch.timers), MAX_NODES_PER_TICK, due)
      modifies this`credits, this`floating, this`unrecorded, this`lost, v, sch, s
      ensures Valid() && SurplusKept()
      ensures forall d :: old(sch.Spaced(d)) && d <= w.cfg.minDelaySec * SECOND ==> sch.Spaced(d)
      ensures old(Capped(credits, w.cfg.dailyCapWei)) ==> Capped(credits, w.cfg.dailyCapWei)
      ensures Moved(old(Snap()), Snap(), BatchOf(due, old(Snap()), w), w, r) && Deserved(r, s.fate, w)
      ensures Explained(r, due, w, old(Snap()), old(Cash()))
      ensures old(s.AllFine()) ==> r.Skipped? || (r.Credited? && r.recorded)
      ensures Allowed(w) || (w.chainUp && w.paused) ==> StopsAt(r, s.fate, old(s.at), 1)
      ensures Allowed(w) && BatchOf(due, old(Snap()), w) != [] ==> StopsAt(r, s.fate, old(s.at), 2)
    {
      hide Accounted, Capped, AllSpaced, IsFirst, BatchOf, Acceptable, CheckRails, Moved, SumOf, Sum;
      if w.paused && w.chainUp {
        r := Defer(ContractPaused, w, s);
        return;
      }
      if !w.chainUp || w.distributorWei.None? || w.totalNodes.None? {
        r := Skipped(if w.chainUp && w.distributorWei.None? then DistributorMismatch else ChainUnreadable);
        EarlyEnd(r, due, w, Snap(), Cash(), BatchOf(due, Snap(), w));
        return;
      }
      r := PassOverKnown(due, w, s);
    }

    /** Contract, distributor and node count were all read. */
    method PassOverKnown(due: seq<nat>, w: World, s: Session) returns (r: Result)
      requires Valid() && Sane(w) && Allowed(w) && due != []
      requires IsFirst(DueSet(sch.timers, w.looked), NextOrder(sch.timers), MAX_NODES_PER_TICK, due)
      modifies this`credits, this`floating, this`unrecorded, this`lost, v, sch, s
      ensures Valid() && SurplusKept()
      ensures forall d :: old(sch.Spaced(d)) && d <= w.cfg.minDelaySec * SECOND ==> sch.Spaced(d)
      ensures old(Capped(credits, w.cfg.dailyCapWei)) ==> Capped(credits, w.cfg.dailyCapWei)
      ensures Moved(old(Snap()), Snap(), BatchOf(due, old(Snap()), w), w, r) && Deserved(r, s.fate, w)
      ensures Explained(r, due, w, old(Snap()), old(Cash()))
      ensures old(s.AllFine()) ==> r.Skipped? || (r.Credited? && r.recorded)
      ensures StopsAt(r, s.fate, old(s.at), 1)
      ensures BatchOf(due, old(Snap()), w) != [] ==> StopsAt(r, s.fate, old(s.at), 2)
    {
      hide Accounted, Capped, AllSpaced, IsFirst, CandidatesOf, Acceptable, CheckRails, Moved, Explained, SumOf, Sum;
      var fate := s.Tick();
      if fate != Fine {
        EarlyEnd(Stopped(fate), due, w, Snap(), Cash(), BatchOf(due, Snap(), w));
        return Stopped(fate);
      }
      var batch, dropped := Candidates(due, nodes, w.totalNodes.value, w);
      if batch == [] {
        EarlyEnd(Skipped(NoCreditableNodes), due, w, Snap(), Cash(), batch);
        return Skipped(NoCreditableNodes);
      }
      r := Pay(due, batch, w, s);
    }

    /**
     * What a credited pass did: exactly the creditable nodes among the first due, each once, with the
     * books to match.
     */
    ghost predicate Earned(before: Books, after: Books, due: seq<nat>, w: World, r: Result) {
      r.Credited? && TakenFrom(before, due, r.batch, w) && Moved(before, after, r.batch, w, r)
    }

    /** One pass, and the books it leaves for each way it can end. */
    method RunPass(w: World, s: Session) returns (r: Result, due: seq<nat>)
      requires Valid() && Sane(w)
      modifies this`credits, this`floating, this`unrecorded, this`lost, v, sch, s
      ensures Valid() && SurplusKept()
      ensures forall d :: old(sch.Spaced(d)) && d <= w.cfg.minDelaySec * SECOND ==> sch.Spaced(d)
      ensures old(Capped(credits, w.cfg.dailyCapWei)) ==> Capped(credits, w.cfg.dailyCapWei)
      ensures Moved(old(Snap()), Snap(), BatchOf(due, old(Snap()), w), w, r) && Deserved(r, s.fate, w)
      ensures if ConfigAllows(w) && s.fate(old(s.at)) == Fine then FirstDue(due, old(sch.timers), w) else due == []
      ensures r.Credited? ==> Earned(old(Snap()), Snap(), due, w, r)
      ensures r.Credited? && r.advanced ==>
                DueAgain(old(sch.timers), sch.timers, r.batch, if r.recorded then w.committed else w.salvaged, w)
      ensures Explained(r, due, w, old(Snap()), old(Cash()))
      ensures r == Skipped(NoNodesDue) ==> DueSet(old(sch.timers), w.looked) == {}
      ensures old(s.AllFine()) ==> r.Skipped? || (r.Credited? && r.recorded)
      ensures old(s.AllFine()) && Payable(w, old(Snap()), old(Cash())) ==> r.Credited? && r.recorded
      ensures ConfigAllows(w) ==> StopsAt(r, s.fate, old(s.at), 1)
      ensures due != [] && (Allowed(w) || (w.chainUp && w.paused && ConfigAllows(w))) ==>
                StopsAt(r, s.fate, old(s.at), 2)
      ensures due != [] && Allowed(w) && BatchOf(due, old(Snap()), w) != [] ==> StopsAt(r, s.fate, old(s.at), 3)
    {
      hide Accounted, Capped, AllSpaced, IsFirst, BatchOf, Acceptable, CheckRails, Moved, Explained, MustPay, Earned,
           SumOf, Sum, DueSet, NextOrder, Throwing, Dying, RailsOf, Payable, DueAgain;
      ghost var b, till := Snap(), Cash();
      due := [];
      if !w.cfg.enabled || w.cfg.swaps || !w.hasKey {
        r := Skipped(if !w.cfg.enabled then Disabled else if w.cfg.swaps then ModeUnavailable else DistributorMissing);
        EarlyEnd(r, due, w, b, till, BatchOf(due, b, w));
        NotPayable(w, b, till);
        return;
      }
      var fate := s.Tick();
      if fate != Fine {
        EarlyEnd(Stopped(fate), due, w, b, till, BatchOf(due, b, w));
        StoppedIsDeserved(s.fate, s.at - 1, w);
        return Stopped(fate), due;
      }
      due := sch.DueNodes(w.looked, MAX_NODES_PER_TICK);
      if due == [] {
        EarlyEnd(Skipped(NoNodesDue), due, w, b, till, BatchOf(due, b, w));
        NobodyDue(due, b.timers, w);
        PaysUnlessExplained(Skipped(NoNodesDue), due, w, b, till);
        return Skipped(NoNodesDue), due;
      }
      r := PassOver(due, w, s);
      if r.Skipped? { PaysUnlessExplained(r, due, w, b, till); }
      NoSuchReason(r, due, w, b, till);
      if r.Credited? { CreditedIsEarned(b, Snap(), due, w, r, till); }
      if r.Credited? && r.advanced { CreditedIsDueAgain(b, Snap(), BatchOf(due, b, w), w, r); }
    }

    static ghost predicate FirstDue(due: seq<nat>, timers: Timers, w: World) {
      IsFirst(DueSet(timers, w.looked), NextOrder(timers), MAX_NODES_PER_TICK, due)
    }

    /** Whichever of the oldest due nodes the query returns, their batch is to be paid. */
    static ghost predicate Payable(w: World, b: Books, till: Till) {
      ConfigAllows(w) && forall due :: FirstDue(due, b.timers, w) ==> MustPay(due, w, b, till)
    }

    static lemma NobodyDue(due: seq<nat>, timers: Timers, w: World)
      requires FirstDue(due, timers, w) && due == []
      ensures DueSet(timers, w.looked) == {}
    {
    }

    static lemma NotPayable(w: World, b: Books, till: Till)
      requires !ConfigAllows(w)
      ensures !Payable(w, b, till)
    {
    }

    static lemma PaysUnlessExplained(r: Result, due: seq<nat>, w: World, b: Books, till: Till)
      requires FirstDue(due, b.timers, w) && Explained(r, due, w, b, till) && r.Skipped?
      ensures !Payable(w, b, till)
    {
      OneReason(r.reason, r.reason, due, w, b, till);
    }

    static lemma NoSuchReason(r: Result, due: seq<nat>, w: World, b: Books, till: Till)
      requires due != [] && Explained(r, due, w, b, till)
      ensures r != Skipped(NoNodesDue)
    {
      hide BatchOf, CheckRails, Acceptable;
    }

    lemma CreditedIsEarned(before: Books, after: Books, due: seq<nat>, w: World, r: Result, till: Till)
      requires r.Credited? && Explained(r, due, w, before, till) && Moved(before, after, BatchOf(due, before, w), w, r)
      requires IsFirst(DueSet(before.timers, w.looked), NextOrder(before.timers), MAX_NODES_PER_TICK, due)
      ensures Earned(before, after, due, w, r)
    {
    }

      /**
       * Every node the pass credited is due again within the configured delays, from when it was
       * credited, and once more paid.
       */
    static ghost predicate DueAgain(before: Timers, after: Timers, batch: seq<Entry>, at: int, w: World) {
      && AdvancedOnly(before, after, IdsOf(batch), at)
      && forall id :: id in IdsOf(batch) && id in after ==>
           at + w.cfg.minDelaySec * SECOND <= after[id].next <= at + w.cfg.maxDelaySec * SECOND
    }

    lemma CreditedIsDueAgain(before: Books, after: Books, batch: seq<Entry>, w: World, r: Result)
      requires Sane(w) && Moved(before, after, batch, w, r) && r.Credited? && r.advanced
      ensures DueAgain(before.timers, after.timers, r.batch, if r.recorded then w.committed else w.salvaged, w)
    {
      hide Sane, Known, Delays, SalvageDelays, IdsOf, Advanced, RowsFor, AdvancedOnly;
      DelaysAreInRange(w);
      AdvancedIn(before.timers, IdsOf(batch), w.committed, Delays(w), w.cfg.minDelaySec, w.cfg.maxDelaySec);
      AdvancedIn(before.timers, IdsOf(batch), w.salvaged, SalvageDelays(w), w.cfg.minDelaySec, w.cfg.maxDelaySec);
    }

    static lemma DelaysAreInRange(w: World)
      requires Sane(w)
      ensures forall id :: w.cfg.minDelaySec <= Delays(w)(id) <= w.cfg.maxDelaySec
      ensures forall id :: w.cfg.minDelaySec <= SalvageDelays(w)(id) <= w.cfg.maxDelaySec
    {
      hide RandomInt, WeiFor;
      forall id: nat ensures w.cfg.minDelaySec <= Delays(w)(id) <= w.cfg.maxDelaySec {
        assert Delays(w)(id) == RandomDelaySec(w.cfg.minDelaySec, w.cfg.maxDelaySec, w.delay(id));
      }
      forall id: nat ensures w.cfg.minDelaySec <= SalvageDelays(w)(id) <= w.cfg.maxDelaySec {
        assert SalvageDelays(w)(id) == RandomDelaySec(w.cfg.minDelaySec, w.cfg.maxDelaySec, w.salvageDelay(id));
      }
    }

    /* ------------------------------------------------------ nobody starves */

    /** The pass credited, moved its timers, took at most m inert rows, and not n, which was due and creditable. */
    static ghost predicate Overlooked(w: World, r: Result, due: seq<nat>, nodes: map<nat, NodeEntry>, t: Timer,
                                      n: nat, m: nat) {
      && r.Credited? && r.advanced && w.totalNodes.Some? && t.next <= w.looked
      && n !in due && n in GoodIds(nodes, w.totalNodes.value) && |Inert(due, GoodIds(nodes, w.totalNodes.value))| <= m
    }

    static function ActiveIds(nodes: map<nat, NodeEntry>): set<nat> {
      set c | c in nodes && nodes[c].active
    }

    /**
     * Consecutive passes. However many run, a due node is overlooked by all of them only
     * if they are no more than (rank − 1) / (200 − m), with the rank among active nodes
     * it had before the first.
     */
    method RunPasses(ws: seq<World>, fates: nat -> nat -> Fate, ghost n: nat, ghost m: nat)
      returns (rs: seq<Result>, dues: seq<seq<nat>>)
      requires Valid() && m < MAX_NODES_PER_TICK && n in sch.timers && n in ActiveIds(nodes)
      requires forall w :: w in ws ==> Sane(w)
      modifies this`credits, this`floating, this`unrecorded, this`lost, v, sch
      ensures Valid() && |rs| == |dues| == |ws|
      ensures (forall i :: 0 <= i < |ws| ==> Overlooked(ws[i], rs[i], dues[i], nodes, old(sch.timers[n]), n, m)) ==>
                |ws| <= (Rank(old(sch.timers), ActiveIds(nodes), n) - 1) / (MAX_NODES_PER_TICK - m)
    {
      hide Accounted, SumOf, Sum, Overlooked, Rank, PassedOver, PassedOverBy;
      rs, dues := [], [];
      ghost var states: seq<Timers>, passes: seq<Pass> := [sch.timers], [];
      ghost var t, ever, waiting := sch.timers[n], ActiveIds(nodes), true;
      NoWaitYet(sch.timers, ever, n, m);
      for i := 0 to |ws|
        invariant Valid() && |rs| == |dues| == i && nodes == old(nodes)
        invariant waiting <==> forall k :: 0 <= k < i ==> Overlooked(ws[k], rs[k], dues[k], nodes, t, n, m)
        invariant waiting ==>
                    PassedOverBy(states, passes, ever, n, m) && |passes| == i && |states| == i + 1 &&
                    states[0] == old(sch.timers)
        invariant waiting ==> states[i] == sch.timers && n in sch.timers && sch.timers[n] == t
      {
        assert ws[i] in ws;
        ghost var p;
        var r, due;
        r, due, p := OnePass(ws[i], fates(i), n, m);
        rs, dues := rs + [r], dues + [due];
        waiting := waiting && Overlooked(ws[i], r, due, nodes, t, n, m);
        if waiting {
          LongerWait(states, passes, sch.timers, p, ever, n, m);
          states, passes := states + [sch.timers], passes + [p];
        }
      }
      if waiting { WaitIsBounded(states, passes, ever, n, m); }
    }

    /** One of them, as the waiting node sees it. */
    method OnePass(w: World, fate: nat -> Fate, ghost n: nat, ghost m: nat)
      returns (r: Result, due: seq<nat>, ghost p: Pass)
      requires Valid() && Sane(w)
      modifies this`credits, this`floating, this`unrecorded, this`lost, v, sch
      ensures Valid()
      ensures n in old(sch.timers) && Overlooked(w, r, due, nodes, old(sch.timers[n]), n, m) ==>
                PassedOver(old(sch.timers), p, sch.timers, n) && p.good <= ActiveIds(nodes) &&
                |Inert(p.due, p.good)| <= m
                && n in sch.timers && sch.timers[n] == old(sch.timers[n])
    {
      hide Accounted, Moved, Explained, MustPay, Earned, SumOf, Sum, AllSpaced, Deserved, PassedOver, IsFirst,
           BatchOf, Overlooked, Inert, ActiveIds;
      ghost var before := Snap();
      var s := new Session(fate);
      r, due := RunPass(w, s);
      p := Pass([], {}, 0, 0, k => 0);
      if n in before.timers && Overlooked(w, r, due, before.nodes, before.timers[n], n, m) {
        p := OverlookedIsPassedOver(before, Snap(), due, w, r, n, m);
      }
    }

    lemma OverlookedIsPassedOver(before: Books, after: Books, due: seq<nat>, w: World, r: Result, n: nat, m: nat)
      returns (p: Pass)
      requires Sane(w) && (r.Credited? ==> Earned(before, after, due, w, r))
      requires n in before.timers && Overlooked(w, r, due, before.nodes, before.timers[n], n, m)
      ensures PassedOver(before.timers, p, after.timers, n) && p.good <= ActiveIds(before.nodes)
      ensures |Inert(p.due, p.good)| <= m
      ensures n in after.timers && after.timers[n] == before.timers[n]
    {
      p := PassOf(due, before.nodes, w, r);
      CreditedPassMovesOn(this, before, after, due, w, r, n);
      hide PassedOver, Earned;
      RankFalls(before.timers, p, after.timers, ActiveIds(before.nodes), n);
    }

    /* --------------------------------------------------------- whole runs */

    /** A node is minted; reconciling gives it a ledger row and a timer. */
    method Arrive(ledgerId: nat, tier: Option<TierId>, now: int, delaySec: int)
      requires Valid()
      modifies this`nodes, v`balances, sch
      ensures Valid() && forall d :: old(sch.Spaced(d)) ==> sch.Spaced(d)
      ensures v.balances == old(v.balances) + [0] && |v.balances| in sch.timers
      ensures nodes == Enrolled(old(nodes), |v.balances|, ledgerId, tier)
    {
      hide Accounted, AllSpaced, SumOf, Sum;
      var c := v.AddNode();
      Enrol(c, ledgerId, tier);
      StartTimer(c, now, delaySec);
    }

    method StartTimer(c: nat, now: int, delaySec: int)
      requires Valid()
      modifies sch
      ensures Valid() && forall d :: old(sch.Spaced(d)) ==> sch.Spaced(d)
      ensures c in sch.timers && forall id :: id in old(sch.timers) ==>
                id in sch.timers && sch.timers[id] == old(sch.timers)[id]
    {
      hide Accounted, AllSpaced;
      ghost var before := Snap();
      sch.ScheduleNewNode(c, now, delaySec);
      TimersKeep(before, sch.timers);
    }

    static ghost function Enrolled(nodes: map<nat, NodeEntry>, c: nat, ledgerId: nat, tier: Option<TierId>): map<nat,
                                   NodeEntry> {
      if c in nodes || exists k :: k in nodes && nodes[k].id == ledgerId then nodes
      else nodes[c := NodeEntry(ledgerId, true, tier)]
    }

    /** A ledger id that is taken is refused by the table's key. */
    method Enrol(c: nat, ledgerId: nat, tier: Option<TierId>)
      requires Valid()
      modifies this`nodes
      ensures Valid() && nodes == Enrolled(old(nodes), c, ledgerId, tier)
    {
      hide Accounted;
      if c !in nodes && forall k :: k in nodes ==> nodes[k].id != ledgerId {
        NodeKeeps(Snap(), c, NodeEntry(ledgerId, true, tier));
        nodes := nodes[c := NodeEntry(ledgerId, true, tier)];
      }
    }

    method Retire(c: nat)
      requires Valid()
      modifies this`nodes
      ensures Valid() && nodes.Keys == old(nodes).Keys
      ensures forall k :: k in nodes ==> nodes[k] == if k == c then old(nodes)[k].(active := false) else old(nodes)[k]
    {
      hide Accounted;
      if c in nodes {
        NodeKeeps(Snap(), c, nodes[c].(active := false));
        nodes := nodes[c := nodes[c].(active := false)];
      }
    }

    /** A creditBatch whose receipt never came is mined after all, or dropped. */
    method FloatSettles(i: nat, lands: bool) returns (ghost stray: seq<Entry>)
      requires Valid() && i < |floating|
      modifies this`floating, this`unrecorded, v
      ensures Valid() && unrecorded == old(unrecorded) + stray && (stray != [] ==> lands && stray == old(floating)[i])
      ensures floating == Without(old(floating), i) && v.credited == old(v.credited) + stray
      ensures lands && Acceptable(|v.balances|, old(floating)[i], Total(old(floating)[i])) ==> stray == old(floating)[i]
    {
      hide Accounted, SumOf, Sum;
      FloatLandedKeeps(Snap(), i);
      var landed := false;
      if lands {
        var value := SumWei(floating[i]);
        landed := v.CreditBatch(floating[i], value);
      }
      stray := [];
      if landed {
        stray := floating[i];
        unrecorded := unrecorded + stray;
      }
      floating := Without(floating, i);
    }

    /** One pass as an event: what it lost and left unrecorded, and that it may. */
    method TickStep(w: World, fate: nat -> Fate) returns (ghost loss: seq<Entry>, ghost stray: seq<Entry>)
      requires Valid() && Sane(w)
      modifies this`credits, this`floating, this`unrecorded, this`lost, v, sch
      ensures Valid() && Tied(old(Snap()), Snap(), Tick(w, fate), loss, stray)
      ensures forall d :: old(sch.Spaced(d)) && d <= w.cfg.minDelaySec * SECOND ==> sch.Spaced(d)
      ensures old(Capped(credits, w.cfg.dailyCapWei)) ==> Capped(credits, w.cfg.dailyCapWei)
    {
      hide Accounted, Capped, Earned, IsFirst, AllSpaced, Explained, MustPay, Moved, Deserved, SumOf, Sum, CandidatesOf;
      ghost var b := Snap();
      var s := new Session(fate);
      var r, due := RunPass(w, s);
      ghost var batch := BatchOf(due, b, w);
      LossesAreTied(b, Snap(), batch, w, r, fate);
      BatchIsDistinct(b, due, w);
      assert DistinctIds([]);
      loss := if lost == b.lost then [] else batch;
      stray := if unrecorded == b.unrecorded then [] else batch;
    }

    static lemma BatchIsDistinct(b: Books, due: seq<nat>, w: World)
      requires due == [] || IsFirst(DueSet(b.timers, w.looked), NextOrder(b.timers), MAX_NODES_PER_TICK, due)
      ensures DistinctIds(BatchOf(due, b, w))
    {
      hide CandidatesOf, NextOrder;
      if w.totalNodes.Some? {
        assert forall i, j :: 0 <= i < j < |due| ==> due[i] != due[j];
        CandidatesAreTheCreditable(due, b.nodes, w.totalNodes.value, w);
        assert DistinctIds(CandidatesOf(due, b.nodes, w.totalNodes.value, w));
      } else {
        assert DistinctIds([]);
      }
    }

    method Step(e: Event) returns (ghost loss: seq<Entry>, ghost stray: seq<Entry>)
      requires Valid() && (e.Tick? ==> Sane(e.w))
      modifies this, v, sch
      ensures Valid() && Tied(old(Snap()), Snap(), e, loss, stray)
      ensures forall d :: old(sch.Spaced(d)) && (e.Tick? ==> d <= e.w.cfg.minDelaySec * SECOND) ==> sch.Spaced(d)
      ensures forall cap: nat :: old(Capped(credits, cap)) && (e.Tick? ==> e.w.cfg.dailyCapWei == cap) ==>
                Capped(credits, cap)
      ensures e.NodeArrives? ==> v.balances == old(v.balances) + [0]
      ensures e.NodeRetires? ==> e.c in nodes ==> !nodes[e.c].active
      ensures e.HolderWithdraws? && 1 <= e.id <= old(|v.balances|) ==> |v.balances| >= e.id && v.balances[e.id - 1] == 0
      ensures e.LateBatch? && e.i < |old(floating)| ==> floating == Without(old(floating), e.i)
    {
      hide Accounted, Capped, AllSpaced, SumOf, Sum, MayLose, MayStray;
      loss, stray := [], [];
      match e {
        case Tick(w, fate) => loss, stray := TickStep(w, fate);
        case NodeArrives(ledgerId, tier, now, delaySec) => Arrive(ledgerId, tier, now, delaySec);
        case NodeRetires(c) => Retire(c);
        case HolderWithdraws(id) =>
          if 1 <= id <= |v.balances| { var paid := v.Withdraw(id); }
        case OwnerRescues(amount) => var ok := v.Rescue(amount);
        case AnyoneFunds(amount) => v.Fund(amount);
        case LateBatch(i, lands) =>
          if i < |floating| { stray := FloatSettles(i, lands); }
      }
    }

    /**
     * Every run of passes, withdrawals, rescues, new nodes and late transactions, with
     * any failure and any crash.
     *
     * The contract stays solvent; per node and to the wei, ledger plus strays is what
     * the chain credited; a node's credits never exceed its timer advances plus the
     * passes that may have lost theirs; strays and losses come from events that failed;
     * no timer runs ahead of its delay; and the rolling cap holds at every instant.
     */
    method Run(events: seq<Event>, ghost d: int, ghost cap: nat)
      returns (ghost losses: seq<seq<Entry>>, ghost strays: seq<seq<Entry>>)
      requires Valid() && sch.Spaced(d) && d > 0 && Capped(credits, cap)
      requires forall e :: e in events && e.Tick? ==>
                Sane(e.w) && d <= e.w.cfg.minDelaySec * SECOND && e.w.cfg.dailyCapWei == cap
      modifies this, v, sch
      ensures Valid() && sch.Spaced(d) && Capped(credits, cap)
      ensures v.outstanding == Sum(v.balances) <= v.held
      ensures Tallied(old(Snap()), Snap(), events, losses, strays)
      ensures forall c :: c in nodes ==> RowsSum(credits, nodes[c].id) + SumOf(unrecorded, c) == SumOf(v.credited, c)
      ensures forall c: nat ::
                CountOf(v.credited, c) <= Advances(sch.timers, c) + CountOf(old(lost), c) + LosingPasses(events)
      ensures NeverBursts(sch.timers, sch.past, d)
    {
      hide Accounted, Capped, AllSpaced, NeverBursts, Tallied, Tied, SumOf, Sum, Sane, CountOf, Advances,
           LosingPasses, RowsSum;
      losses, strays := [], [];
      ghost var first := Snap();
      NothingTallied(first);
      for i := 0 to |events|
        invariant Valid() && sch.Spaced(d) && Capped(credits, cap)
        invariant Tallied(first, Snap(), events[..i], losses, strays)
      {
        assert events[i] in events;
        ghost var before := Snap();
        ghost var loss, stray := Step(events[i]);
        OneMore(first, before, Snap(), events[..i], events[i], losses, loss, strays, stray);
        losses, strays := losses + [loss], strays + [stray];
        assert events[..i] + [events[i]] == events[..i + 1];
      }
      assert events[..|events|] == events;
      RunEnds(first, Snap(), v, losses, strays, events);
      NoBacklogAnywhere(sch.timers, sch.past, d);
    }
  }

  /** The accounts of failures since the first books are, event by event, what those events lost and left unrecorded. */
  ghost predicate Tallied(first: Books, now: Books, events: seq<Event>, losses: seq<seq<Entry>>,
                          strays: seq<seq<Entry>>) {
    && |losses| == |strays| == |events|
    && now.lost == first.lost + Flatten(losses) && now.unrecorded == first.unrecorded + Flatten(strays)
    && (forall i :: 0 <= i < |events| ==> DistinctIds(losses[i]) && (losses[i] != [] ==> LosingEvent(events[i])))
    && (forall i :: 0 <= i < |events| ==> strays[i] != [] ==> StrayingEvent(events[i]))
  }

  lemma NothingTallied(b: Books)
    ensures Tallied(b, b, [], [], [])
  {
    assert Flatten<Entry>([]) == [];
  }

  lemma OneMore(first: Books, before: Books, after: Books, events: seq<Event>, e: Event,
                losses: seq<seq<Entry>>, loss: seq<Entry>, strays: seq<seq<Entry>>, stray: seq<Entry>)
    requires Tallied(first, before, events, losses, strays) && Tied(before, after, e, loss, stray)
    ensures Tallied(first, after, events + [e], losses + [loss], strays + [stray])
  {
    hide DistinctIds, LosingEvent, StrayingEvent;
    Lengthened(first.lost, losses, loss);
    Lengthened(first.unrecorded, strays, stray);
    hide Flatten;
    forall i | 0 <= i < |events + [e]|
      ensures DistinctIds((losses + [loss])[i]) && ((losses + [loss])[i] != [] ==> LosingEvent((events + [e])[i]))
      ensures (strays + [stray])[i] != [] ==> StrayingEvent((events + [e])[i])
    {
      assert i < |events| || i == |events|;
    }
  }

  lemma Lengthened<T>(start: seq<T>, ss: seq<seq<T>>, last: seq<T>)
    ensures start + Flatten(ss) + last == start + Flatten(ss + [last])
  {
    assert (ss + [last])[..|ss|] == ss;
    assert Flatten(ss + [last]) == Flatten(ss) + last;
  }

  lemma NoWaitYet(timers: Timers, ever: set<nat>, n: nat, m: nat)
    ensures PassedOverBy([timers], [], ever, n, m)
  {
  }

  lemma LongerWait(states: seq<Timers>, passes: seq<Pass>, after: Timers, p: Pass, ever: set<nat>, n: nat, m: nat)
    requires PassedOverBy(states, passes, ever, n, m) && |states| == |passes| + 1
    requires PassedOver(states[|passes|], p, after, n) && p.good <= ever && |Inert(p.due, p.good)| <= m
    ensures PassedOverBy(states + [after], passes + [p], ever, n, m)
  {
    hide PassedOver, Inert;
  }

  lemma RunEnds(first: Books, b: Books, v: Vault, losses: seq<seq<Entry>>, strays: seq<seq<Entry>>, events: seq<Event>)
    requires v.Valid() && Accounted(b) && Tallied(first, b, events, losses, strays)
    ensures v.outstanding == Sum(v.balances) <= v.held
    ensures forall c :: c in b.nodes ==> RowsSum(b.credits, b.nodes[c].id) + SumOf(b.unrecorded, c) == SumOf(b.log, c)
    ensures forall c: nat :: CountOf(b.log, c) <= Advances(b.timers, c) + CountOf(first.lost, c) + LosingPasses(events)
  {
    hide LosingEvent, StrayingEvent, DistinctIds;
    forall c: nat ensures CountOf(b.log, c) <= Advances(b.timers, c) + CountOf(first.lost, c) + LosingPasses(events) {
      assert CountOf(b.log, c) + FloatCount(b.floating, c) <= Advances(b.timers, c) + CountOf(b.lost, c);
      Appended(first.lost, Flatten(losses), c);
      LossesAreCounted(events, losses, c);
    }
  }

  /** `past` lists every advance, and no stretch of time holds more of them than its length allows. */
  ghost predicate NeverBursts(timers: Timers, past: map<nat, seq<int>>, d: int)
    requires d > 0
  {
    forall c, lo, length: nat :: c in timers ==>
      c in past && |past[c]| == timers[c].count && NoBurst(past[c], d, lo, length)
  }

  lemma NoBacklogAnywhere(timers: Timers, past: map<nat, seq<int>>, d: int)
    requires AllSpaced(timers, past, d) && d > 0
    ensures NeverBursts(timers, past, d)
  {
    forall c, lo, length: nat | c in timers ensures NoBurst(past[c], d, lo, length) {
      NoBacklog(timers[c], past[c], d, lo, length);
    }
  }

  function PassOf(due: seq<nat>, nodes: map<nat, NodeEntry>, w: World, r: Result): Pass
    requires r.Credited? && w.totalNodes.Some?
  {
    var good := GoodIds(nodes, w.totalNodes.value);
    if r.recorded then Pass(due, good, w.looked, w.committed, Delays(w))
    else Pass(due, good, w.looked, w.salvaged, SalvageDelays(w))
  }

  /**
   * A credited pass, recorded or salvaged, is a pass in the sense of Schedule: a due
   * creditable node it did not take was behind 200 others, and is so no longer.
   */
  lemma CreditedPassMovesOn(desk: Desk, before: Books, after: Books, due: seq<nat>, w: World, r: Result, n: nat)
    requires desk.Earned(before, after, due, w, r) && r.advanced && Sane(w)
    requires n in GoodIds(before.nodes, w.totalNodes.value) && n in before.timers && before.timers[n].next <= w.looked
    requires n !in due
    ensures PassedOver(before.timers, PassOf(due, before.nodes, w, r), after.timers, n)
  {
    hide IsFirst, GoodIds, Sane, Delays, SalvageDelays, Advanced, Batch, NextOrder, DueSet, PassedOver, Moved;
    var p := PassOf(due, before.nodes, w, r);
    ExactlyTheBatchAdvances(desk, before, after, due, w, r);
    Desk.DelaysAreLongEnough(w, w.cfg.minDelaySec * SECOND);
    ClockRuns(w);
    AdvancingPassesOver(before.timers, p, n);
  }

  lemma ClockRuns(w: World)
    requires Sane(w)
    ensures w.looked <= w.committed <= w.salvaged && w.cfg.minDelaySec >= 0
  {
  }

  lemma ExactlyTheBatchAdvances(desk: Desk, before: Books, after: Books, due: seq<nat>, w: World, r: Result)
    requires desk.Earned(before, after, due, w, r) && r.advanced && Sane(w)
    ensures var p := PassOf(due, before.nodes, w, r);
            after.timers == Advanced(before.timers, Batch(p.due, p.good), p.advanced, p.delay)
  {
    hide IsFirst, GoodIds, BatchOf, Batch, Advanced;
    CandidatesAreTheCreditableOf(before, due, w);
  }

  lemma CandidatesAreTheCreditableOf(b: Books, due: seq<nat>, w: World)
    requires w.totalNodes.Some?
    requires IsFirst(DueSet(b.timers, w.looked), NextOrder(b.timers), MAX_NODES_PER_TICK, due)
    ensures IdsOf(BatchOf(due, b, w)) == Batch(due, GoodIds(b.nodes, w.totalNodes.value))
  {
    hide CandidatesOf;
    CandidatesAreTheCreditable(due, b.nodes, w.totalNodes.value, w);
  }
}
