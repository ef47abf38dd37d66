/**
 * Chain, watcher and sale as one: blocks arrive, passes plan and commit, the operator
 * fast-forwards, adopts and audits, and the sale works on the same payments table,
 * in any order. What the sale calls a confirmed payment is a final one on this chain.
 */
module WholeRuns {
  import opened Wrappers
  import opened Chain
  import opened Explorer
  import opened Tiers
  import opened Payments
  import opened Watcher
  import RelayState
  import RelayRuns
  import Allowance
  import WatcherRuns

  /** `Queue` is an event of the sale; payments come to it from the chain and the watcher alone. */
  datatype Event =
    | Grow(c: Blocks)
    | Begin(w: World)
    | Land(cl: Claim, fails: bool, now: int)
    | Crash(cl: Claim)
    | SkipTo(x: Index, head: nat, toBlock: nat, balance: nat)
    | Adopt(head: nat, h: Hash, first: RpcAnswer, again: RpcAnswer, holding: Option<nat>, used: nat, now: int)
    | Audit(x: Index, head: nat, window: nat, rpc: Hash -> RpcAnswer,
            holdings: Hash -> Option<nat>, usages: Hash -> nat, now: int)
    | Queue(e: RelayRuns.Event)

  /**
   * The chain is final below its safe head, and index and RPC are honest about what is final. They
   * may still fail, lag or stay silent.
   */
  ghost predicate Honest(e: Event, c: Blocks, cfg: Config, cursor: Option<int>) {
    match e
    case Grow(c') => Extends(c, c', cfg.confirmations)
    case Begin(w) => WatcherRuns.HonestScan(w, c, cfg, cursor)
    case SkipTo(x, head, toBlock, _) =>
      && head < |c| && x.pages != []
      && (cursor.Some? && 0 <= cursor.value < toBlock < |c| ==>
              HonestIndex(x, c, cfg.wallet, cursor.value + 1, toBlock))
    case Adopt(head, h, _, again, _, _, _) => head < |c| && HonestRpc(again, h, c, Settled(c, cfg.confirmations))
    case Audit(x, head, _, rpc, _, _, _) =>
      head < |c| && x.pages != [] && forall h :: HonestRpc(rpc(h), h, c, Settled(c, cfg.confirmations))
    case _ => true
  }

  predicate IsFinalPayment(c: Blocks, cfg: Config, b: int, t: Inclusion) {
    b <= Settled(c, cfg.confirmations) && t.ok && t.hash.to == Some(cfg.wallet)
  }

  /** The final, successful transfers to the wallet. */
  function FinalPayments(c: Blocks, cfg: Config): set<Hash> {
    set b, i | 0 <= b < |c| && 0 <= i < |c[b]| && IsFinalPayment(c, cfg, b, c[b][i]) :: c[b][i].hash
  }

  ghost predicate PaidForGood(c: Blocks, cfg: Config, h: Hash) {
    exists b :: b <= Settled(c, cfg.confirmations) && PaidAt(c, cfg.wallet, h, b)
  }

  lemma FinalMembers(c: Blocks, cfg: Config, h: Hash)
    ensures h in FinalPayments(c, cfg) <==> PaidForGood(c, cfg, h)
  {
    if PaidForGood(c, cfg, h) {
      var b :| b <= Settled(c, cfg.confirmations) && PaidAt(c, cfg.wallet, h, b);
      var i :| 0 <= i < |c[b]| && c[b][i] == Inclusion(h, true);
      assert IsFinalPayment(c, cfg, b, c[b][i]) && c[b][i].hash == h;
    }
    if h in FinalPayments(c, cfg) {
      var b, i :| 0 <= b < |c| && 0 <= i < |c[b]| && IsFinalPayment(c, cfg, b, c[b][i]) && c[b][i].hash == h;
      assert c[b][i] == Inclusion(h, true);
      assert PaidAt(c, cfg.wallet, h, b);
    }
  }

  lemma FinalGrows(c: Blocks, c': Blocks, cfg: Config)
    requires WellFormed(c) && Extends(c, c', cfg.confirmations)
    ensures FinalPayments(c, cfg) <= FinalPayments(c', cfg)
    ensures forall h :: h in FinalPayments(c', cfg) ==> h.to == Some(cfg.wallet)
  {
    forall h | h in FinalPayments(c, cfg) ensures h in FinalPayments(c', cfg) {
      FinalMembers(c, cfg, h);
      var b :| b <= Settled(c, cfg.confirmations) && PaidAt(c, cfg.wallet, h, b);
      WatcherRuns.FinalStays(c, c', cfg, h, b);
      FinalMembers(c', cfg, h);
    }
  }

  /** A committed claim adds proven rows only. */
  lemma LandedIsProven(rows: Rows, cl: Claim, id: nat, now: int, c: Blocks, cfg: Config, tiers: Table)
    requires Holds(cl, c, cfg, tiers)
    ensures GrowsProven(rows, InsertAll(rows, cl.sightings, id, now), c, cfg, tiers)
  {
    InsertAllFacts(rows, cl.sightings, id, now);
    var after := InsertAll(rows, cl.sightings, id, now);
    forall h | h in after && h !in rows ensures IsProvenRow(after, h, c, cfg, tiers) {
      var i :| 0 <= i < |cl.sightings| && cl.sightings[i].hash == h &&
               after[h] == FreshRow(cl.sightings[i], id + i, now);
      assert cl.sightings[i] in cl.sightings;
    }
  }

  ghost predicate IsProvenRow(rows: Rows, h: Hash, c: Blocks, cfg: Config, tiers: Table)
    requires h in rows
  {
    exists s: Sighting, id, at ::
      s.hash == h && rows[h] == FreshRow(s, id, at) && Proven(s, c, cfg.wallet, Settled(c, cfg.confirmations), tiers)
  }

  /** Whatever the watcher or the operator proves against the chain, the sale may work with. */
  lemma ProvenRowsSuitTheSale(s: RelayState.Sys, shop: RelayState.Shop, after: Rows, c: Blocks, cfg: Config)
    requires RelayState.Inv(s, shop) && Allowance.WithinAllowance(s, shop)
    requires cfg.wallet == shop.wallet && s.confirmed == FinalPayments(c, cfg)
    requires GrowsProven(s.rows, after, c, cfg, shop.tiers)
    ensures RelayState.Inv(s.(rows := after), shop) && Allowance.WithinAllowance(s.(rows := after), shop)
  {
    hide RelayState.Inv, Allowance.WithinAllowance, FinalPayments;
    var s' := s.(rows := after);
    forall h | h in after
      ensures RelayState.RowOk(s', shop, h) && (after[h].status == Minted ==> RelayState.Settled(s', h))
    {
      if h in s.rows { RelayState.RowIsTrue(s, shop, h); } else { ProvenRowIsOk(s', shop, h, c, cfg); }
    }
    RelayState.RowsKeepInv(s, shop, after);
    forall owner, tier, h | h in Allowance.Committed(s', owner, tier) ensures h in Allowance.Committed(s, owner, tier) {
      Allowance.SameRefs(s, s', h);
      if h !in s.rows {
        ProvenRowIsOk(s', shop, h, c, cfg);
        RelayState.LiveIsBacked(s, shop, h);
      }
    }
    Allowance.NothingAddedKeeps(s, s', shop);
  }

  lemma ProvenRowIsOk(s: RelayState.Sys, shop: RelayState.Shop, h: Hash, c: Blocks, cfg: Config)
    requires h in s.rows && IsProvenRow(s.rows, h, c, cfg, shop.tiers)
    requires cfg.wallet == shop.wallet && s.confirmed == FinalPayments(c, cfg)
    ensures RelayState.RowOk(s, shop, h) && s.rows[h].status != Minted
  {
    FinalMembers(c, cfg, h);
  }

  /** The whole installation: one chain, one watcher, one sale. */
  class Site {
    const cfg: Config
    const sale: RelayRuns.Sale
    var c: Blocks
    var origin: Option<nat>
    var flying: set<Claim>

    constructor (cfg: Config, shop: RelayState.Shop, c: Blocks)
      requires Watcher.Sane(cfg) && Priced(shop.tiers) && cfg.wallet == shop.wallet && WellFormed(c)
      ensures this.cfg == cfg && this.c == c && sale.shop == shop && Valid()
      ensures fresh(sale.t) && fresh(sale.n) && fresh(sale.f)
    {
      this.cfg, this.c, origin, flying := cfg, c, None, {};
      sale := new RelayRuns.Sale(shop);
      new;
      hide RelayState.Inv, Allowance.WithinAllowance;
      assert WatcherRuns.Inv(Watch(), cfg, shop.tiers);
      SetConfirmed();
    }

    function Watch(): WatcherRuns.State
      reads this, sale.t
    {
      WatcherRuns.State(c, sale.t.rows, sale.t.cursor, origin, flying)
    }

    ghost predicate Watching()
      reads this, sale.t
    {
      Watcher.Sane(cfg) && cfg.wallet == sale.shop.wallet && WatcherRuns.Inv(Watch(), cfg, sale.shop.tiers)
    }

    ghost predicate Selling()
      reads sale.t, sale.n, sale.f
    {
      sale.Valid() && sale.Within()
    }

    ghost predicate Valid()
      reads this, sale.t, sale.n, sale.f
    {
      Watching() && Selling() && sale.f.confirmed == FinalPayments(c, cfg)
    }

    /** The sale learns what is final by now. */
    method SetConfirmed()
      requires Watching() && Selling() && sale.f.confirmed <= FinalPayments(c, cfg)
      modifies sale.f`confirmed
      ensures Valid()
    {
      hide RelayState.Inv, Allowance.WithinAllowance, WatcherRuns.Inv;
      ghost var before := sale.Snap();
      var final := FinalPayments(c, cfg);
      RelayState.ConfirmKeepsInv(before, sale.shop, final);
      assert before.confirmed + final == final;
      Allowance.SameRowsAddNothing(before, before.(confirmed := final));
      Allowance.NothingAddedKeeps(before, before.(confirmed := final), sale.shop);
      sale.f.confirmed := final;
      assert sale.Snap() == before.(confirmed := final);
    }

    method NewBlocks(c': Blocks)
      requires Valid() && Extends(c, c', cfg.confirmations)
      modifies this`c, sale.f`confirmed
      ensures Valid() && c == c'
    {
      hide RelayState.Inv, Allowance.WithinAllowance;
      FinalGrows(c, c', cfg);
      ghost var was := Watch();
      WatcherRuns.StepKeepsInv(was, WatcherRuns.Grow, was.(c := c'), cfg, sale.shop.tiers);
      hide WatcherRuns.Inv;
      c := c';
      SetConfirmed();
    }

    /** A pass reads and plans. Only passes that find no cursor wait for one another. */
    method Propose(w: World) returns (p: Plan)
      requires Valid() && WatcherRuns.HonestScan(w, c, cfg, sale.t.cursor)
      modifies this`flying
      ensures Valid()
      ensures flying == if p.Planned? then old(flying) + {p.claim} else old(flying)
      ensures sale.t.cursor.Some? ==> PlanIsSound(p, sale.t.cursor, cfg, sale.shop.tiers, c, w)
      ensures Healthy(sale.t.cursor, cfg, sale.shop.tiers, w) && sale.t.cursor.Some? ==>
                p.Planned? &&
                p.claim.upTo == Some(Min(sale.t.cursor.value + cfg.ceiling,
                                         Target(w.index, SafeHead(w.head, cfg.confirmations))))
    {
      hide RelayState.Inv, Allowance.WithinAllowance, Healthy, WaitsFor, ReportTells, Answering, IndexBehind;
      if sale.t.cursor.None? && exists f :: f in flying && f.first { return Idle; }
      p := PlanScan(sale.t.cursor, cfg, sale.shop.tiers, c, w);
      if !p.Planned? { return; }
      ghost var was := Watch();
      WatcherRuns.ScanBegins(was, cfg, sale.shop.tiers, p, w);
      ghost var begun := was.(flying := was.flying + {p.claim});
      WatcherRuns.StepKeepsInv(was, WatcherRuns.Begin(p.claim), begun, cfg, sale.shop.tiers);
      hide WatcherRuns.Inv;
      flying := flying + {p.claim};
    }

    /** A planned claim is committed, or its transaction fails. */
    method Finish(cl: Claim, fails: bool, now: int)
      requires Valid()
      modifies this`origin, this`flying, sale.t
      ensures Valid() && flying == old(flying) - {cl}
      ensures origin == if cl in old(flying) && !fails && cl.upTo.Some? && old(sale.t.cursor).None?
                        then Some(cl.from) else old(origin)
      ensures if cl in old(flying) && !fails
              then sale.t.rows == InsertAll(old(sale.t.rows), cl.sightings, old(sale.t.nextId), now) &&
                   sale.t.cursor == Advanced(old(sale.t.cursor), cl.upTo)
              else sale.t.rows == old(sale.t.rows) && sale.t.cursor == old(sale.t.cursor)
      ensures old(sale.t.rows).Keys <= sale.t.rows.Keys
    {
      hide RelayState.Inv, Allowance.WithinAllowance;
      if cl !in flying { return; }
      if fails { Abandon(cl); return; }
      ghost var was, before, id := Watch(), sale.Snap(), sale.t.nextId;
      LandedIsProven(was.rows, cl, id, now, c, cfg, sale.shop.tiers);
      ProvenRowsSuitTheSale(before, sale.shop, InsertAll(was.rows, cl.sightings, id, now), c, cfg);
      if cl.upTo.Some? && sale.t.cursor.None? { origin := Some(cl.from); }
      var done, recorded, duplicates := Watcher.Commit(sale.t, cl, false, now);
      flying := flying - {cl};
      assert sale.Snap() == before.(rows := sale.t.rows);
      WatcherRuns.CommitLands(was, cfg, sale.shop.tiers, cl, id, now, sale.t.rows, sale.t.cursor);
      WatcherRuns.StepKeepsInv(was, WatcherRuns.Land(cl, id, now), Watch(), cfg, sale.shop.tiers);
    }

    method Abandon(cl: Claim)
      requires Valid()
      modifies this`flying
      ensures Valid() && flying == old(flying) - {cl}
    {
      hide RelayState.Inv, Allowance.WithinAllowance;
      ghost var was := Watch();
      WatcherRuns.StepKeepsInv(was, WatcherRuns.Crash(cl), was.(flying := was.flying - {cl}), cfg, sale.shop.tiers);
      hide WatcherRuns.Inv;
      flying := flying - {cl};
    }

    /** Operator: move the cursor over ground the index shows to be empty. */
    method SkipEmpty(x: Index, head: nat, toBlock: nat, balance: nat)
      requires Valid() && Honest(SkipTo(x, head, toBlock, balance), c, cfg, sale.t.cursor)
      modifies sale.t`cursor
      ensures Valid()
      ensures sale.t.cursor != old(sale.t.cursor) ==>
                old(sale.t.cursor).Some? && old(sale.t.cursor).value < toBlock && sale.t.cursor == Some(toBlock)
    {
      hide RelayState.Inv, Allowance.WithinAllowance, HonestIndex;
      ghost var was := Watch();
      var moved := FastForward(sale.t, cfg, c, x, head, toBlock, balance, sale.shop.tiers);
      if moved {
        SafeHeadGrows(c, cfg, head);
        WatcherRuns.FastForwardKeepsInv(was, cfg, sale.shop.tiers, toBlock);
      }
      hide WatcherRuns.Inv;
      assert Watch() == if moved then was.(cursor := Some(toBlock)) else was;
    }

    /** The cursor never goes back. */
    predicate Reaches(before: Option<int>, after: Option<int>) {
      before.Some? ==> after.Some? && before.value <= after.value
    }

    /** Rows proved against the chain go into the table; nothing else changes. */
    lemma ProvenRowsKeepValid(was: WatcherRuns.State, before: RelayState.Sys)
      requires Watcher.Sane(cfg) && cfg.wallet == sale.shop.wallet && WatcherRuns.Inv(was, cfg, sale.shop.tiers)
      requires Priced(sale.shop.tiers) && RelayState.Inv(before, sale.shop)
      requires Allowance.WithinAllowance(before, sale.shop)
      requires before.confirmed == FinalPayments(c, cfg) && before.rows == was.rows
      requires GrowsProven(was.rows, sale.t.rows, c, cfg, sale.shop.tiers)
      requires Watch() == was.(rows := sale.t.rows) && sale.Snap() == before.(rows := sale.t.rows)
      ensures Valid()
    {
      hide RelayState.Inv, Allowance.WithinAllowance;
      ProvenRowsSuitTheSale(before, sale.shop, sale.t.rows, c, cfg);
      WatcherRuns.ProvenRowsAreQueueWork(was.rows, sale.t.rows, c, cfg, sale.shop.tiers);
      WatcherRuns.StepKeepsInv(was, WatcherRuns.QueueWork, Watch(), cfg, sale.shop.tiers);
    }

    /** Operator: one payment by hash. */
    method AdoptOne(e: Event)
      requires Valid() && e.Adopt? && Honest(e, c, cfg, sale.t.cursor)
      modifies sale.t
      ensures Valid() && sale.t.cursor == old(sale.t.cursor)
      ensures GrowsProven(old(sale.t.rows), sale.t.rows, c, cfg, sale.shop.tiers)
      ensures forall b :: b <= SafeHead(e.head, cfg.confirmations) && PaidAt(c, cfg.wallet, e.h, b) ==>
                Visible(e.first, e.again, e.h, c, cfg) ==> e.h in sale.t.rows
    {
      assert WellFormed(c);
      hide RelayState.Inv, Allowance.WithinAllowance, WatcherRuns.Inv, HonestRpc, Proven;
      ghost var was, before, id := Watch(), sale.Snap(), sale.t.nextId;
      var s := AdoptPayment(sale.t, cfg, sale.shop.tiers, c, e.head, e.h, e.first, e.again, e.holding, e.used, e.now);
      if s.Some? { GrowsOne(was.rows, was.rows, sale.t.rows, s.value, id, e.now, c, cfg, sale.shop.tiers); }
      ProvenRowsKeepValid(was, before);
    }

    /** Operator: a window of the history. */
    method AuditWindow(e: Event) returns (finished: bool)
      requires Valid() && e.Audit? && Honest(e, c, cfg, sale.t.cursor)
      modifies sale.t
      ensures Valid() && sale.t.cursor == old(sale.t.cursor)
      ensures GrowsProven(old(sale.t.rows), sale.t.rows, c, cfg, sale.shop.tiers)
      ensures finished && AuditSees(e.x, c, cfg, e.head, e.window, e.rpc) ==>
                MoneyRecorded(sale.t.rows, c, cfg.wallet, AuditFrom(cfg, e.head, e.window),
                              SafeHead(e.head, cfg.confirmations))
    {
      assert WellFormed(c);
      hide RelayState.Inv, Allowance.WithinAllowance, WatcherRuns.Inv, HonestRpc, Proven;
      ghost var was, before := Watch(), sale.Snap();
      finished := AuditPayments(sale.t, cfg, sale.shop.tiers, c, e.x, e.head, e.window, e.rpc, e.holdings,
          e.usages, e.now);
      ProvenRowsKeepValid(was, before);
    }

    /** The sale's own events; what is confirmed and discovered comes from the chain and the watcher here. */
    method Work(e: RelayRuns.Event)
      requires Valid()
      modifies sale.t`rows, sale.t`nextId, sale.n, sale.f
      ensures Valid() && old(sale.t.rows).Keys <= sale.t.rows.Keys
      ensures if e.Confirm? || e.Discovered? then sale.Snap() == old(sale.Snap())
              else sale.Did(old(sale.Snap()), sale.Snap(), e)
    {
      hide RelayState.Inv, Allowance.WithinAllowance, WatcherRuns.Inv;
      if e.Confirm? || e.Discovered? { return; }
      ghost var was, before := Watch(), sale.Snap();
      sale.Step(e);
      RelayRuns.SaleIsQueueWork(before, sale.Snap(), sale.shop);
      WatcherRuns.StepKeepsInv(was, WatcherRuns.QueueWork, Watch(), cfg, sale.shop.tiers);
    }

    method Step(e: Event)
      requires Valid() && Honest(e, c, cfg, sale.t.cursor)
      modifies this, sale.t, sale.n, sale.f
      ensures Valid()
      ensures c == if e.Grow? then e.c else old(c)
      ensures old(sale.t.rows).Keys <= sale.t.rows.Keys
      ensures Reaches(old(sale.t.cursor), sale.t.cursor) && (old(sale.t.cursor).Some? ==> origin == old(origin))
      ensures sale.t.cursor == old(sale.t.cursor) || e.Land? || e.SkipTo?
      ensures e.Land? && e.cl in old(flying) && !e.fails ==>
                sale.t.rows == InsertAll(old(sale.t.rows), e.cl.sightings, old(sale.t.nextId), e.now) &&
                sale.t.cursor == Advanced(old(sale.t.cursor), e.cl.upTo)
      ensures e.Queue? && !e.e.Confirm? && !e.e.Discovered? ==> sale.Did(old(sale.Snap()), sale.Snap(), e.e)
      ensures e.Begin? && old(sale.t.cursor).Some? && Healthy(old(sale.t.cursor), cfg, sale.shop.tiers, e.w) ==>
                exists cl :: cl in flying && cl.upTo == Some(Min(old(sale.t.cursor).value + cfg.ceiling,
                                                        Target(e.w.index, SafeHead(e.w.head, cfg.confirmations))))
    {
      hide Watching, Selling, FinalPayments, Healthy, RelayRuns.Sale.Did;
      match e {
        case Grow(c') => NewBlocks(c');
        case Begin(w) => var p := Propose(w);
        case Land(cl, fails, now) => Finish(cl, fails, now);
        case Crash(cl) => Abandon(cl);
        case SkipTo(x, head, toBlock, balance) => SkipEmpty(x, head, toBlock, balance);
        case Adopt(_, _, _, _, _, _, _) => AdoptOne(e);
        case Audit(_, _, _, _, _, _, _) => var finished := AuditWindow(e);
        case Queue(q) => Work(q);
      }
    }

    /**
     * Every run of the whole, under any schedule that may look at everything. No payment
     * between origin and cursor is without its row; every row carries the chain's own
     * sender and amount; the sale is sound; and behind every node stands its own final
     * payment on this chain, at exactly a tier price, by the node's first owner.
     */
    method Run(env: (nat, WatcherRuns.State) -> Event, n: nat)
      requires Valid()
      requires forall i, s: WatcherRuns.State :: WellFormed(s.c) ==> Honest(env(i, s), s.c, cfg, s.cursor)
      modifies this, sale.t, sale.n, sale.f
      ensures Valid() && RelayRuns.Sound(sale.Snap(), sale.shop)
      ensures WatcherRuns.NothingSteppedOver(Watch(), cfg.wallet) && WatcherRuns.TrueRows(sale.t.rows)
      ensures forall i :: 0 <= i < |sale.f.minted| ==>
                PaidForGood(c, cfg, sale.f.minted[i].ref) && sale.f.minted[i].ref in sale.t.rows
      ensures old(sale.t.rows).Keys <= sale.t.rows.Keys && Reaches(old(sale.t.cursor), sale.t.cursor)
      ensures old(sale.t.cursor).Some? ==> origin == old(origin)
    {
      hide RelayState.Inv, Allowance.WithinAllowance, Honest, FinalPayments;
      for i := 0 to n
        invariant Valid() && old(sale.t.rows).Keys <= sale.t.rows.Keys && Reaches(old(sale.t.cursor), sale.t.cursor)
        invariant old(sale.t.cursor).Some? ==> origin == old(origin)
      {
        Step(env(i, Watch()));
      }
      RelayRuns.RunEnds(sale.Snap(), sale.shop);
      forall i | 0 <= i < |sale.f.minted|
        ensures PaidForGood(c, cfg, sale.f.minted[i].ref) && sale.f.minted[i].ref in sale.t.rows
      {
        FinalMembers(c, cfg, sale.f.minted[i].ref);
      }
    }
  }
}
