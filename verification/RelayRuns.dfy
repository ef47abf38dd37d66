/**
 * Whole runs of the sale: payments arriving, relay passes of any process, stuck
 * rows handed back, operator requeues and refunds, reconciliation, and old mint
 * transactions landing, in any order and with a crash at any statement.
 */
module RelayRuns {
  import opened Wrappers
  import opened Chain
  import opened Selection
  import opened Tiers
  import opened Payments
  import opened Process
  import opened RelayState
  import opened Allowance
  import opened MintRelay
  import Watcher
  import WatcherRuns

  /** `fate` is the life of the process that serves the event. */
  datatype Event =
    | Confirm(h: Hash)
    | Discovered(sight: Sighting, now: int)
    | Relay(fate: nat -> Fate, limit: nat, authorised: Option<bool>, attempts: Hash -> Attempt,
            late: nat -> bool, now: int)
    | Stuck(olderThan: int, now: int)
    | OperatorRequeue(h: Hash, holding: Option<nat>, now: int)
    | OperatorRefund(h: Hash, block: int, now: int)
    | Reconcile(fate: nat -> Fate, maxNodes: int, visible: nat -> bool, ownerToday: nat -> Option<Address>,
                next: nat -> int)
    | OldMintsLand(ms: seq<Mint>)

  /** The tables and the factory; every process works on these. */
  class Sale {
    const shop: Shop
    const t: PaymentTable
    const n: NodeTable
    const f: Factory

    constructor (shop: Shop)
      requires Priced(shop.tiers)
      ensures this.shop == shop && Valid() && Within() && fresh(t) && fresh(n) && fresh(f)
      ensures t.rows == map[] && t.cursor == None && f.confirmed == {}
    {
      this.shop := shop;
      t := new PaymentTable();
      n := new NodeTable();
      f := new Factory();
    }

    ghost function Snap(): Sys
      reads t, n, f
    {
      Sys(t.rows, n.nodes, n.timers, f.minted, f.pending, f.confirmed)
    }

    ghost predicate Valid()
      reads t, n, f
    {
      Priced(shop.tiers) && Inv(Snap(), shop)
    }

    ghost predicate Within()
      reads t, n, f
    {
      WithinAllowance(Snap(), shop)
    }

    /** What a pass of the relay does: the first due payments, each shown as its attempt ended. */
    ghost predicate Relayed(before: Sys, after: Sys, e: Event, claimed: seq<Hash>, ended: seq<Ended>)
      requires e.Relay?
    {
      && (if e.fate(0) == Fine then IsFirst(Queue(before.rows), QueueOrder(before.rows), e.limit, claimed)
          else claimed == [])
      && Pipeline.Worked(Taken(before.rows, claimed, e.now), after.rows, claimed, ended)
      && (e.authorised != Some(true) ==>
            && after.minted == before.minted && after.pending == before.pending && after.nodes == before.nodes
            && forall x :: x in ended ==> x == Done(MintFailed))
      && (AlwaysFine(e.fate) && e.authorised == Some(true) ==>
            && (|ended| == |claimed| || e.late(|ended|))
            && Pipeline.RetriesSettle(before.minted, claimed, e.attempts, ended))
    }

    ghost predicate AlwaysFine(fate: nat -> Fate) {
      forall k: nat :: fate(k) == Fine
    }

    method Pass(e: Event) returns (claimed: seq<Hash>, ended: seq<Ended>)
      requires Valid() && e.Relay?
      modifies t`rows, n, f`minted, f`pending
      ensures Valid() && (old(Within()) ==> Within())
      ensures old(t.rows).Keys <= t.rows.Keys
      ensures Relayed(old(Snap()), Snap(), e, claimed, ended)
    {
      hide Inv, WithinAllowance;
      var s := new Session(e.fate);
      var p := new Pipeline(shop, t, n, f, s);
      assert p.Snap() == Snap();
      claimed, ended := p.RunMintRelay(e.limit, e.authorised, e.attempts, e.late, e.now);
      assert p.Snap() == Snap();
    }

    /** What a reconcile does: of the newest unrecorded nodes, those the chain still answers for are recorded. */
    ghost predicate Repaired(before: Sys, after: Sys, e: Event, missing: seq<nat>)
      requires e.Reconcile?
    {
      && var due, limit := Pipeline.Unrecorded(|before.minted|, before.nodes), Max(1, Min(e.maxNodes, 500));
      && IsFirst(due, Pipeline.NewestFirst(), limit, missing)
      && Pipeline.Reconciled(before.minted, before.nodes, after.nodes, missing, limit, e.visible, e.ownerToday)
    }

    method Repair(e: Event) returns (missing: seq<nat>)
      requires Valid() && e.Reconcile?
      modifies n
      ensures Valid() && (old(Within()) ==> Within())
      ensures if e.fate(0) == Fine && e.fate(1) == Fine then Repaired(old(Snap()), Snap(), e, missing)
              else Snap() == old(Snap())
    {
      hide Inv, WithinAllowance;
      var s := new Session(e.fate);
      var p := new Pipeline(shop, t, n, f, s);
      assert p.Snap() == Snap();
      var fate;
      fate, missing := p.ReconcileNodes(e.maxNodes, e.visible, e.ownerToday, e.next);
      assert p.Snap() == Snap();
    }

    method Land(ms: seq<Mint>)
      requires Valid()
      modifies f`minted, f`pending
      ensures Valid() && (old(Within()) ==> Within())
      ensures Pipeline.Drifted(old(Snap()), Snap(), ms)
    {
      hide Inv, WithinAllowance, Pipeline.Drifted;
      var s := new Session((k: nat) => Fine);
      var p := new Pipeline(shop, t, n, f, s);
      assert p.Snap() == Snap();
      p.Drift(ms);
      assert p.Snap() == Snap();
    }

    /** The watcher writes a row it proved. */
    method Discover(sight: Sighting, now: int)
      requires Valid() && sight.hash in f.confirmed
      requires sight.from == sight.hash.from && sight.amount == sight.hash.value
      requires sight.verdict.seen ==> Watcher.Sellable(sight.hash, shop.wallet, shop.tiers)
      modifies t`rows, t`nextId
      ensures Valid() && (old(Within()) ==> Within())
      ensures sight.hash in t.rows
      ensures if sight.hash in old(t.rows) then t.rows == old(t.rows)
              else t.rows == old(t.rows)[sight.hash := FreshRow(sight, old(t.nextId), now)]
    {
      hide Inv, WithinAllowance;
      ghost var before := Snap();
      if sight.hash !in t.rows {
        SeenKeepsInv(before, shop, sight, t.nextId, now);
        var row := FreshRow(sight, t.nextId, now);
        NewRowAddsNothing(before, shop, sight.hash, row);
        if Within() { NothingAddedKeeps(before, before.(rows := before.rows[sight.hash := row]), shop); }
      }
      var inserted := t.RecordSeen(sight, now);
    }

    method HandBackStuck(olderThan: int, now: int)
      requires Valid()
      modifies t`rows
      ensures Valid() && (old(Within()) ==> Within())
      ensures old(t.rows).Keys == t.rows.Keys
      ensures forall h :: h in t.rows ==> HandedBack(old(t.rows)[h], t.rows[h], olderThan, now)
    {
      hide Inv, WithinAllowance;
      forall h | h in t.rows ensures WellCounted(t.rows[h]) { RowIsTrue(Snap(), shop, h); }
      ghost var before := Snap();
      UpdateAllKeepsInv(before, shop, before.rows.Keys, RequeueStuck(olderThan), now);
      UpdateAllAddsNothing(before, before.rows.Keys, RequeueStuck(olderThan), now);
      ghost var after := before.(rows := ApplyAll(before.rows, before.rows.Keys, RequeueStuck(olderThan), now));
      if Within() { NothingAddedKeeps(before, after, shop); }
      var count := t.RequeueStuckMinting(olderThan, now);
    }

    /**
     * A tier price from somebody else's wallet, the tier open to them, and the allowance not used up
     * by other payments.
     */
    predicate MayBeSold(rows: Rows, h: Hash, holding: Option<nat>) {
      var tier := TierForAmount(h.value, shop.tiers);
      tier.Some? && Watcher.Sells(h, shop.wallet, shop.tiers, holding, TierUsage(rows, h.from, tier.value))
    }

    /**
     * Decide again from the chain, the tier table and the usage as it is now; a parked or failed
     * payment goes where that says.
     */
    method RequeuePayment(h: Hash, holding: Option<nat>, now: int)
      requires Valid()
      modifies t`rows
      ensures Valid() && (old(Within()) ==> Within())
      ensures old(t.rows).Keys == t.rows.Keys && forall k :: k in t.rows && k != h ==> t.rows[k] == old(t.rows)[k]
      ensures h in t.rows ==> DecidedAfresh(old(t.rows), t.rows[h], h, holding)
    {
      hide Inv, WithinAllowance;
      if h !in t.rows { return; }
      var used := UsageRead(t.rows, h, shop.tiers);
      var v := Watcher.Decide(h.value, h.from, shop.wallet, shop.tiers, holding, used);
      RequeueKeepsInv(Snap(), shop, h, holding, used, now);
      RowIsTrue(Snap(), shop, h);
      Watcher.DecideQueuesOnlySales(h, shop.wallet, shop.tiers, holding, used);
      LifeCycle(t.rows[h], Requeue(v), now);
      hide UsageRead, TierForAmount;
      if Within() { RequeueKeepsAllowance(Snap(), shop, h, holding, now); }
      t.Update(h, Requeue(v), now);
    }

    /** Money paid back; the amount and the sender are read from the chain. */
    method Refund(h: Hash, block: int, now: int)
      requires Valid()
      modifies t`rows, t`nextId
      ensures Valid() && (old(Within()) ==> Within())
      ensures old(t.rows).Keys <= t.rows.Keys
      ensures h in t.rows && (t.rows[h].status == Refunded || (t.rows[h].status == Minted && old(t.rows) == t.rows))
      ensures forall k :: k in t.rows && k != h ==> k in old(t.rows) && t.rows[k] == old(t.rows)[k]
      ensures if h in old(t.rows) then OnlyStatusMoved(old(t.rows)[h], t.rows[h])
              else t.rows[h].from == h.from && t.rows[h].amount == h.value && t.rows[h].block == block
    {
      hide Inv, WithinAllowance;
      ghost var before := Snap();
      if h in t.rows {
        UpdateKeepsInv(before, shop, h, MarkRefunded, now);
        UpdateAddsNothing(before, shop, h, MarkRefunded, now);
        if Within() { NothingAddedKeeps(before, Updated(before, h, MarkRefunded, now), shop); }
      } else {
        var row := Row(t.nextId, h.from, h.value, block, Refunded, None, 0, None, now);
        NewRowKeepsInv(before, shop, h, row);
        NewRowAddsNothing(before, shop, h, row);
        if Within() { NothingAddedKeeps(before, before.(rows := before.rows[h := row]), shop); }
      }
      var alreadyMinted := t.RefundPayment(h, h.from, h.value, block, now);
    }

    method Confirmed(h: Hash)
      requires Valid()
      modifies f`confirmed
      ensures Valid() && (old(Within()) ==> Within())
      ensures f.confirmed == if h.to == Some(shop.wallet) then old(f.confirmed) + {h} else old(f.confirmed)
    {
      hide Inv, WithinAllowance;
      if h.to != Some(shop.wallet) { return; }
      ghost var before := Snap();
      ConfirmKeepsInv(before, shop, {h});
      SameRowsAddNothing(before, before.(confirmed := before.confirmed + {h}));
      if Within() { NothingAddedKeeps(before, before.(confirmed := before.confirmed + {h}), shop); }
      f.confirmed := f.confirmed + {h};
    }

    /** What each event does to the tables and the factory. */
    ghost predicate Did(before: Sys, after: Sys, e: Event) {
      match e
      case Confirm(h) =>
        after == before.(confirmed := before.confirmed + if h.to == Some(shop.wallet) then {h} else {})
      case Discovered(sight, now) =>
        if Watchable(sight, before.confirmed) && sight.hash !in before.rows
        then exists id :: after == before.(rows := before.rows[sight.hash := FreshRow(sight, id, now)])
        else after == before
      case Relay(_, _, _, _, _, _) => exists claimed, ended :: Relayed(before, after, e, claimed, ended)
      case Stuck(olderThan, now) =>
        && after == before.(rows := after.rows) && after.rows.Keys == before.rows.Keys
        && forall h :: h in before.rows ==> HandedBack(before.rows[h], after.rows[h], olderThan, now)
      case OperatorRequeue(h, holding, _) =>
        && after == before.(rows := after.rows) && after.rows.Keys == before.rows.Keys
        && (forall k :: k in before.rows && k != h ==> after.rows[k] == before.rows[k])
        && (h in before.rows ==> DecidedAfresh(before.rows, after.rows[h], h, holding))
      case OperatorRefund(h, block, _) =>
        && after == before.(rows := after.rows) && after.rows.Keys == before.rows.Keys + {h}
        && (forall k :: k in before.rows && k != h ==> after.rows[k] == before.rows[k])
        && (after.rows[h].status == Refunded ||
            (h in before.rows && before.rows[h].status == Minted && after == before))
      case Reconcile(fate, _, _, _, _) =>
        if fate(0) == Fine && fate(1) == Fine then exists missing :: Repaired(before, after, e, missing)
        else after == before
      case OldMintsLand(ms) => Pipeline.Drifted(before, after, ms)
    }

    /** A payment held longer than olderThan is in the queue again; nothing else of it changed, and no other row. */
    ghost predicate HandedBack(before: Row, after: Row, olderThan: int, now: int) {
      if IsStuck(before, olderThan, now) then Claimable(after) && OnlyStatusMoved(before, after) else after == before
    }

    /** A parked or failed payment is decided again, with its attempts counted anew. */
    ghost predicate DecidedAfresh(rows: Rows, after: Row, h: Hash, holding: Option<nat>)
      requires h in rows
    {
      if rows[h].status == ManualReview || rows[h].status == Failed
      then
        && (Claimable(after) <==> MayBeSold(rows, h, holding)) && (after.status == ManualReview <==> !Claimable(after))
        && after.attempts == 0 && SamePayment(rows[h], after.(tier := rows[h].tier))
        && (Claimable(after) ==> after.tier == TierForAmount(h.value, shop.tiers))
      else after == rows[h]
    }

    method Step(e: Event)
      requires Valid()
      modifies t`rows, t`nextId, n, f
      ensures Valid() && (old(Within()) ==> Within())
      ensures old(t.rows).Keys <= t.rows.Keys
      ensures !e.Confirm? ==> f.confirmed == old(f.confirmed)
      ensures Did(old(Snap()), Snap(), e)
    {
      hide Inv, WithinAllowance;
      match e {
        case Confirm(h) => Confirmed(h);
        case Discovered(sight, now) =>
          if Watchable(sight, f.confirmed) { Discover(sight, now); }
        case Relay(_, _, _, _, _, _) => var claimed, ended := Pass(e);
        case Stuck(olderThan, now) => HandBackStuck(olderThan, now);
        case OperatorRequeue(h, holding, now) => RequeuePayment(h, holding, now);
        case OperatorRefund(h, block, now) => Refund(h, block, now);
        case Reconcile(_, _, _, _, _) => var missing := Repair(e);
        case OldMintsLand(ms) => Land(ms);
      }
    }

    /** What the watcher may write (Watcher.Proven); other sightings never reach the table. */
    predicate Watchable(sight: Sighting, confirmed: set<Hash>) {
      && sight.hash in confirmed && sight.from == sight.hash.from && sight.amount == sight.hash.value
      && (sight.verdict.seen ==> Watcher.Sellable(sight.hash, shop.wallet, shop.tiers))
    }

    /**
     * Every run. One payment, one node; every node backed by its own confirmed
     * payment at exactly a tier price, and owned by who paid; every finished
     * payment complete in all three tables; no wallet beyond any tier's allowance.
     */
    method Run(events: seq<Event>) returns (ghost trace: seq<Sys>)
      requires Valid() && Within()
      modifies t`rows, t`nextId, n, f
      ensures Valid() && Within()
      ensures Sound(Snap(), shop)
      ensures |trace| == |events| + 1 && trace[0] == old(Snap()) && trace[|events|] == Snap()
      ensures forall i :: 0 <= i < |events| ==> Did(trace[i], trace[i + 1], events[i])
      ensures forall sys :: sys in trace ==> Sound(sys, shop)
    {
      hide Inv, WithinAllowance, Sound, Did;
      trace := [Snap()];
      RunEnds(Snap(), shop);
      for i := 0 to |events|
        invariant Valid() && Within()
        invariant |trace| == i + 1 && trace[0] == old(Snap()) && trace[i] == Snap()
        invariant forall k :: 0 <= k < i ==> Did(trace[k], trace[k + 1], events[k])
        invariant forall sys :: sys in trace ==> Sound(sys, shop)
      {
        Step(events[i]);
        RunEnds(Snap(), shop);
        trace := trace + [Snap()];
      }
    }
  }

  /** What the watcher proves against the chain is what this table may be given. */
  lemma ProvenIsWatchable(sale: Sale, s: Sighting, c: Blocks, confirmations: nat)
    requires Watcher.Proven(s, c, sale.shop.wallet, Chain.Settled(c, confirmations), sale.shop.tiers)
    requires forall h, b :: b <= Chain.Settled(c, confirmations) && PaidAt(c, sale.shop.wallet, h, b) ==>
              h in sale.f.confirmed
    ensures sale.Watchable(s, sale.f.confirmed)
  {
  }

  /** And what the sale does to the table between two passes is what the watcher's runs allow for. */
  lemma SaleIsQueueWork(before: Sys, after: Sys, shop: Shop)
    requires Inv(before, shop) && Inv(after, shop) && before.rows.Keys <= after.rows.Keys
    ensures WatcherRuns.KeepsIdentities(before.rows, after.rows)
  {
    forall h | h in after.rows ensures after.rows[h].from == h.from && after.rows[h].amount == h.value {
      RowIsTrue(after, shop, h);
    }
    forall h | h in before.rows
      ensures h in after.rows && after.rows[h].from == before.rows[h].from
      ensures after.rows[h].amount == before.rows[h].amount
    {
      RowIsTrue(before, shop, h);
      assert h in before.rows.Keys;
    }
  }

  /** The payment's own node, on chain, in the ledger at the price paid in the tier that bought, and on a timer. */
  ghost predicate Delivered(s: Sys, shop: Shop, h: Hash)
    requires h in s.rows
  {
    && h in s.confirmed && s.rows[h].node.Some?
    && var id := s.rows[h].node.value;
    && IsNode(s, id) && s.minted[id - 1] == Mint(h.from, h) && id in s.timers
    && id in s.nodes && TierForAmount(h.value, shop.tiers) == Some(s.nodes[id].tier)
    && s.nodes[id].owner == h.from && s.nodes[id].price == h.value
  }

  /** What a maintainer may rely on at every point of every run. */
  ghost predicate Sound(s: Sys, shop: Shop) {
    && (forall i, j :: 0 <= i < j < |s.minted| ==> s.minted[i].ref != s.minted[j].ref)
    && (forall i :: 0 <= i < |s.minted| ==> Backed(s, shop, s.minted[i]))
    && (forall h :: h in s.rows && s.rows[h].status == Minted ==> Delivered(s, shop, h))
    && (forall owner, tier :: |MintedSet(s.rows, owner, tier)| <= shop.tiers.Get(tier).maxPerWallet)
  }

  lemma RunEnds(s: Sys, shop: Shop)
    requires Inv(s, shop) && WithinAllowance(s, shop)
    ensures Sound(s, shop)
  {
    forall h | h in s.rows && s.rows[h].status == Minted ensures Delivered(s, shop, h) {
      OnePaymentOneNode(s, shop, h, h);
      assert RelayState.Settled(s, h) && Backed(s, shop, s.minted[s.rows[h].node.value - 1]);
    }
    forall owner, tier ensures |MintedSet(s.rows, owner, tier)| <= shop.tiers.Get(tier).maxPerWallet {
      MintedWithinAllowance(s, shop, owner, tier);
    }
  }
}
