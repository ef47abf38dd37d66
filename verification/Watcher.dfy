/**
 * One watcher pass and the operator's tools beside it (lib/watcher.ts).
 *
 * A pass plans a claim, "these payments, and this ground is covered", from what
 * it could read, and then commits the claim in one transaction. The operator's
 * fast-forward and adoption are claims too: one without payments, one without
 * ground.
 */
module Watcher {
  import opened Wrappers
  import opened Seqs
  import opened Chain
  import opened Explorer
  import opened Tiers
  import opened Payments

  const INDEX_LAG_TOLERANCE := 2_000

  datatype Config = Config(
    wallet: Address,
    confirmations: nat,
    startBlock: Option<nat>,
    startWindow: nat,
    ceiling: nat,
    maxBlocksPerPass: nat,
    batchSize: nat,
    pageSize: nat,
    maxPages: nat)

  /** What the environment validation guarantees of a configuration. */
  predicate Sane(cfg: Config) {
    cfg.ceiling >= 1 && cfg.batchSize >= 1 && cfg.pageSize >= 1
  }

  /* --------------------------------------------------------------- deciding */

  /** Status and tier of a transfer; `holding` is None when the chain could not answer. */
  function Decide(amount: nat, from: Address, payTo: Address, tiers: Table, holding: Option<nat>, used: nat): Verdict {
    if from == payTo || amount == 0 then Verdict(false, None)
    else
      var tier := TierForAmount(amount, tiers);
      if tier.None? then Verdict(false, None)
      else if !tiers.Get(tier.value).onSale then Verdict(false, tier)
      else
        var gate := tiers.Get(tier.value).holdingWei;
        if gate > 0 && holding.None? then Verdict(false, tier)
        else if gate > 0 && holding.value < gate then Verdict(false, tier)
        else if used >= tiers.Get(tier.value).maxPerWallet then Verdict(false, tier)
        else Verdict(true, tier)
  }

  /** A transfer that may become a node: not the operator's own, and exactly a tier price. */
  predicate Sellable(h: Hash, wallet: Address, tiers: Table) {
    h.from != wallet && TierForAmount(h.value, tiers).Some?
  }

  /** The tier is on sale, its holding gate is met by a known balance, and the wallet has room left. */
  predicate Eligible(t: Tier, holding: Option<nat>, used: nat) {
    t.onSale && (t.holdingWei > 0 ==> holding.Some? && holding.value >= t.holdingWei) && used < t.maxPerWallet
  }

  /** A payment there is a node for, as far as chain and tables can tell now. */
  predicate Sells(h: Hash, wallet: Address, tiers: Table, holding: Option<nat>, used: nat) {
    && h.value > 0 && Sellable(h, wallet, tiers)
    && Eligible(tiers.Get(TierForAmount(h.value, tiers).value), holding, used)
  }

  /** The tier written beside the decision: the one the amount names, and none for the operator's own money. */
  function TierOf(h: Hash, wallet: Address, tiers: Table): Option<TierId> {
    if h.from == wallet || h.value == 0 then None else TierForAmount(h.value, tiers)
  }

  /** Only a sellable transfer is queued, and always under the tier its amount names. */
  lemma DecideQueuesOnlySales(h: Hash, wallet: Address, tiers: Table, holding: Option<nat>, used: nat)
    ensures var v := Decide(h.value, h.from, wallet, tiers, holding, used);
            && (v.seen ==> Sellable(h, wallet, tiers) && used < tiers.Get(v.tier.value).maxPerWallet)
            && (v.seen <==> Sells(h, wallet, tiers, holding, used)) && v.tier == TierOf(h, wallet, tiers)
  {
  }

  /* -------------------------------------------------------------- verifying */

  datatype TxInfo = TxInfo(from: Address, to: Option<Address>, value: nat, block: Option<nat>)
  datatype Receipt = Receipt(ok: bool, block: nat)

  /** The two reads of one candidate: the call failed, or it answered, perhaps with nothing. */
  datatype RpcAnswer = Down | Answered(tx: Option<TxInfo>, receipt: Option<Receipt>)

  /**
   * The honest-RPC assumption: contents are those the hash commits to, a final
   * transaction is reported in its block with its outcome, and nothing is
   * reported final that is not. It may still know nothing, or lag.
   */
  ghost predicate HonestRpc(a: RpcAnswer, h: Hash, c: Blocks, settled: int) {
    a.Answered? && a.tx.Some? ==>
      && var t := a.tx.value;
      && t.from == h.from && t.to == h.to && t.value == h.value
      && (t.block.Some? && t.block.value <= settled ==> exists ok :: At(c, h, t.block.value, ok))
      && (t.block.Some? ==> forall b, ok :: At(c, h, b, ok) && b <= settled ==>
            b == t.block.value && (a.receipt.Some? ==> a.receipt.value.ok == ok))
  }

  datatype Check = Payment(s: Sighting, mismatch: bool) | Unverified(block: int) | Rejected

  /** Re-read one candidate and decide what it is; the index only supplies the hash. */
  function Verify(e: Entry, tx: Option<TxInfo>, receipt: Option<Receipt>, tiers: Table, payTo: Address, safeHead: int,
                  holding: Option<nat>, used: nat): Check {
    if tx.None? then Unverified(e.block)
    else if tx.value.block.None? || receipt.None? then Unverified(e.block)
    else if !receipt.value.ok then Rejected
    else if tx.value.to != Some(payTo) then Rejected
    else
      var block := tx.value.block.value;
      if block > safeHead then Unverified(block)
      else if receipt.value.block != block then Unverified(block)
      else
        var verdict := Decide(tx.value.value, tx.value.from, payTo, tiers, holding, used);
        var mismatch := tx.value.value != e.value || tx.value.from != e.from;
        Payment(Sighting(e.hash, tx.value.from, tx.value.value, block,
                         if mismatch then Verdict(false, verdict.tier) else verdict), mismatch)
  }

  /** A row that may be written: a final, successful transfer to the wallet, in the chain's own words. */
  ghost predicate Proven(s: Sighting, c: Blocks, wallet: Address, settled: int, tiers: Table) {
    && PaidAt(c, wallet, s.hash, s.block) && s.block <= settled
    && s.from == s.hash.from && s.amount == s.hash.value
    && (s.verdict.seen ==> Sellable(s.hash, wallet, tiers) && s.verdict.tier == TierForAmount(s.amount, tiers))
    && (s.verdict.tier.Some? ==> s.verdict.tier == TierForAmount(s.amount, tiers))
  }

  /** Block, receipt and finality are all known, and agree. */
  predicate Conclusive(a: RpcAnswer, safeHead: int) {
    && Informed(a)
    && a.receipt.value.block == a.tx.value.block.value && a.tx.value.block.value <= safeHead
  }

  /**
   * The explorer discovers, the chain decides: what is conclusive is settled either way, and nothing
   * true is dropped.
   */
  lemma VerifyTellsTheTruth(e: Entry, a: RpcAnswer, tiers: Table, payTo: Address, safeHead: int,
                            holding: Option<nat>, used: nat, c: Blocks, settled: int)
    requires a.Answered? && WellFormed(c) && safeHead <= settled && HonestRpc(a, e.hash, c, settled)
    ensures var v := Verify(e, a.tx, a.receipt, tiers, payTo, safeHead, holding, used);
            && (v.Payment? ==> v.s.hash == e.hash && Proven(v.s, c, payTo, settled, tiers) && v.s.block <= safeHead)
            && (v.Payment? ==> (v.mismatch <==> !Agrees(e)) && v.s.verdict.tier == TierOf(e.hash, payTo, tiers))
            && (v.Payment? ==> (v.s.verdict.seen <==> Agrees(e) && Sells(e.hash, payTo, tiers, holding, used)))
            && (v.Unverified? ==> v.block == if Informed(a) then a.tx.value.block.value else e.block)
            && (PaidAt(c, payTo, e.hash, e.block) && e.block <= settled ==> v.Payment? || v == Unverified(e.block))
            && (Conclusive(a, safeHead) ==>
                    if PaidAt(c, payTo, e.hash, a.tx.value.block.value) then v.Payment? else v == Rejected)
  {
    DecideQueuesOnlySales(e.hash, payTo, tiers, holding, used);
    var v := Verify(e, a.tx, a.receipt, tiers, payTo, safeHead, holding, used);
    if v.Payment? {
      var b := a.tx.value.block.value;
      var ok :| At(c, e.hash, b, ok);
      assert ok == a.receipt.value.ok;
    }
  }

  /* -------------------------------------------------------------- discovery */

  datatype Source = Txlist | AddressesV2 | RpcFallback | NoSource

  datatype Stop =
    | NoWork | CaughtUp | CatchupCeiling | TimeBudget | PageLimit
    | ExplorerError | ExplorerBehind | NotVerified | RpcError

  datatype Discovery = Discovery(
    source: Source,
    candidates: seq<Entry>,
    coveredTo: int,
    indexedHead: Option<nat>,
    stop: Option<Stop>)

  /** Everything one pass reads from outside: arbitrary, and possibly failing anywhere. */
  datatype World = World(
    head: nat,
    index: Index,
    lateScan: nat -> bool,
    blockFails: nat -> bool,
    rpc: Hash -> RpcAnswer,
    holding: Hash -> Option<nat>,
    used: Hash -> nat,
    lateAtEnd: bool,
    commitFails: bool)

  /** How far the pass asks the index. */
  function Target(x: Index, safeHead: int): (t: int)
    ensures t <= safeHead && (x.height.Some? ==> t <= x.height.value)
    ensures t == safeHead || (x.height.Some? && t == x.height.value)
  {
    if x.height.None? then safeHead else Min(safeHead, x.height.value)
  }

  /** The honest-index assumption for one pass. Without a reported height nothing is claimed from its answer. */
  ghost predicate HonestIndex(x: Index, c: Blocks, wallet: Address, from: nat, safeHead: int)
    requires safeHead < |c|
  {
    var to := Target(x, safeHead);
    && Within(x.ranged, from, to)
    && (x.height.Some? && from - 1 <= to ==>
            HonestPaged(x, c, wallet, from, to) && HonestRanged(x, c, wallet, from, to))
  }

  /** Ground is covered when every payment in it is among the candidates, at its own block. */
  ghost predicate Covers(candidates: seq<Entry>, c: Blocks, wallet: Address, from: nat, k: int) {
    forall h, b :: from <= b <= k && PaidAt(c, wallet, h, b) ==>
        exists e :: e in candidates && e.hash == h && e.block == b
  }

  /** An exact walk covers its ground. */
  lemma ExactWalkCovers(w: Walk, c: Blocks, wallet: Address, from: nat, to: int)
    requires to < |c| && Refines(w, c, wallet, from, to)
    ensures Covers(w.transfers, c, wallet, from, w.coveredTo)
  {
    forall h, b | from <= b <= w.coveredTo && PaidAt(c, wallet, h, b)
      ensures exists e :: e in w.transfers && e.hash == h && e.block == b
    {
      var s := Sighted(h, b);
      NaiveScanMembers(c, wallet, from, w.coveredTo, s);
      assert s in multiset(NaiveScan(c, wallet, from, w.coveredTo));
      var kept := Filter(w.transfers, EntryUpTo(w.coveredTo));
      assert s in multiset(Map(kept, SightedOf()));
      var i :| 0 <= i < |kept| && SightedOf()(kept[i]) == s;
      assert kept[i] in w.transfers;
    }
  }

  /**
   * Which source a pass ends up with: v2, then v1 if that threw, then blocks if that threw too and
   * they may be read.
   */
  ghost function SourceOf(cfg: Config, x: Index, from: int): Source {
    if !V2Throws(x, from, cfg.maxPages) then AddressesV2
    else if !V1Throws(x, cfg.pageSize, cfg.maxPages) then Txlist
    else if cfg.maxBlocksPerPass > 0 then RpcFallback
    else NoSource
  }

  /** The index answers for the ground from that block on, by either route, and says how far it has read. */
  ghost predicate Answering(cfg: Config, w: World, from: int) {
    && w.index.height.Some?
    && match SourceOf(cfg, w.index, from)
       case AddressesV2 => V2Ends(w.index, from, cfg.maxPages)
       case Txlist => V1Ends(w.index, cfg.pageSize, cfg.maxPages)
       case _ => false
  }

  /** Nothing is found that the source did not list. */
  ghost predicate ListedBy(source: Source, candidates: seq<Entry>, x: Index, from: int, to: int) {
    match source
    case AddressesV2 => FromHistory(candidates, x, from, to)
    case Txlist => FromRanged(candidates, x)
    case RpcFallback => forall e :: e in candidates ==> Agrees(e)
    case NoSource => candidates == []
  }

  /** The last block one pass reads directly. */
  function Bite(cfg: Config, from: int, to: int): int {
    Min(to, from + cfg.maxBlocksPerPass - 1)
  }

  /** What is covered, and why it stops there, for the source the pass ended up with. */
  ghost predicate Accounted(d: Discovery, cfg: Config, w: World, from: int, to: int) {
    && d.indexedHead == w.index.height && d.source == SourceOf(cfg, w.index, from)
    && ListedBy(d.source, d.candidates, w.index, from, to)
    && match d.source
       case RpcFallback =>
         && d.coveredTo <= Bite(cfg, from, to)
         && (if d.coveredTo == Bite(cfg, from, to) then d.stop == None
             else if w.lateScan(Max(0, d.coveredTo + 1)) then d.stop == None
             else w.blockFails(Max(0, d.coveredTo + 1)) && d.stop == Some(RpcError))
       case NoSource => d.coveredTo == from - 1 && d.stop == Some(ExplorerError)
       case _ =>
         && d.stop == (if w.index.height.None? then Some(ExplorerError)
                       else if Answering(cfg, w, from) then None else Some(PageLimit))
         && (Answering(cfg, w, from) ==> d.coveredTo == to)
         && (w.index.height.None? || (d.source == AddressesV2 && !Answering(cfg, w, from)) ==> d.coveredTo == from - 1)
  }

  /**
   * Index v2, then v1, then blocks. Whatever fails, the ground claimed was really
   * read, and without the index's own height its silence claims nothing. Which
   * source it is, how far it gets and why it stops is decided by the requests.
   */
  method Discover(cfg: Config, c: Blocks, w: World, from: nat, safeHead: int) returns (d: Discovery)
    requires Sane(cfg) && from <= safeHead < |c| && w.index.pages != []
    ensures HonestIndex(w.index, c, cfg.wallet, from, safeHead) ==>
              from - 1 <= d.coveredTo <= safeHead && Covers(d.candidates, c, cfg.wallet, from, d.coveredTo)
    ensures if w.index.height.Some? && Target(w.index, safeHead) < from
            then d == Discovery(NoSource, [], from - 1, w.index.height, Some(ExplorerBehind))
            else Accounted(d, cfg, w, from, Target(w.index, safeHead))
  {
    hide V2Ends, V2Throws, V1Ends, V1Throws, Refines, HonestPaged, HonestRanged, Covers, KeepsPages, RestsOn, Ascends,
         FromHistory, FromRanged, NaiveScan;
    var x := w.index;
    var to := Target(x, safeHead);
    if x.height.Some? && to < from {
      BehindCovers(c, cfg.wallet, from);
      return Discovery(NoSource, [], from - 1, x.height, Some(ExplorerBehind));
    }
    BehindCovers(c, cfg.wallet, from);
    var v2 := WalkAddressV2(x, cfg.wallet, from, to, cfg.maxPages, c);
    if v2.Some? {
      WalkSettles(v2.value, x, c, cfg.wallet, from, safeHead);
      return FromWalk(AddressesV2, v2.value, x.height, from);
    }
    var v1 := WalkTxlist(x, cfg.wallet, from, to, cfg.pageSize, cfg.maxPages, c);
    if v1.Some? {
      WalkSettles(v1.value, x, c, cfg.wallet, from, safeHead);
      return FromWalk(Txlist, v1.value, x.height, from);
    }
    if cfg.maxBlocksPerPass > 0 {
      var bite := Min(to, from + cfg.maxBlocksPerPass - 1);
      var scan, error, begins := FallbackBlockScan(c, cfg.wallet, from, bite, cfg.batchSize, w.lateScan, w.blockFails);
      ExactWalkCovers(scan, c, cfg.wallet, from, bite);
      return Discovery(RpcFallback, scan.transfers, scan.coveredTo, x.height, if error then Some(RpcError) else None);
    }
    return Discovery(NoSource, [], from - 1, x.height, Some(ExplorerError));
  }

  lemma BehindCovers(c: Blocks, wallet: Address, from: nat)
    ensures Covers([], c, wallet, from, from - 1)
  {
  }

  function FromWalk(source: Source, w: Walk, height: Option<nat>, from: nat): Discovery {
    Discovery(source, w.transfers, if height.None? then from - 1 else w.coveredTo, height,
              if height.None? then Some(ExplorerError) else if w.complete then None else Some(PageLimit))
  }

  lemma WalkSettles(walk: Walk, x: Index, c: Blocks, wallet: Address, from: nat, safeHead: int)
    requires from <= safeHead < |c| && from - 1 <= Target(x, safeHead)
    requires var to := Target(x, safeHead);
             HonestPaged(x, c, wallet, from, to) && HonestRanged(x, c, wallet, from, to) ==>
               Refines(walk, c, wallet, from, to)
    ensures HonestIndex(x, c, wallet, from, safeHead) ==>
              Covers(walk.transfers, c, wallet, from, if x.height.None? then from - 1 else walk.coveredTo)
  {
    if HonestIndex(x, c, wallet, from, safeHead) && x.height.Some? {
      ExactWalkCovers(walk, c, wallet, from, Target(x, safeHead));
    }
  }

  /* ----------------------------------------------------------------- claims */

  /** What a pass asks to have committed: payments it proved, and the ground it covered (None: no ground). */
  datatype Claim = Claim(first: bool, from: nat, upTo: Option<int>, sightings: seq<Sighting>)

  ghost predicate Holds(cl: Claim, c: Blocks, cfg: Config, tiers: Table) {
    && (forall s :: s in cl.sightings ==> Proven(s, c, cfg.wallet, Settled(c, cfg.confirmations), tiers))
    && (cl.upTo.Some? ==>
          && cl.from <= cl.upTo.value <= Settled(c, cfg.confirmations)
          && forall h, b :: cl.from <= b <= cl.upTo.value && PaidAt(c, cfg.wallet, h, b) ==> Recorded(cl.sightings, h))
  }

  ghost predicate Recorded(sightings: seq<Sighting>, h: Hash) {
    exists s :: s in sightings && s.hash == h
  }

  /** Every answer about every candidate is honest. */
  ghost predicate HonestWorld(w: World, c: Blocks, cfg: Config, from: nat, safeHead: int)
    requires safeHead < |c|
  {
    && HonestIndex(w.index, c, cfg.wallet, from, safeHead)
    && forall h :: HonestRpc(w.rpc(h), h, c, Settled(c, cfg.confirmations))
  }

  function CheckOf(e: Entry, w: World, tiers: Table, payTo: Address, safeHead: int): Check
    requires w.rpc(e.hash).Answered?
  {
    Verify(e, w.rpc(e.hash).tx, w.rpc(e.hash).receipt, tiers, payTo, safeHead, w.holding(e.hash), w.used(e.hash))
  }

  /** Verdicts of a list of candidates, and the ground left once unverified ones pull it back. */
  datatype Judged = Judged(sightings: seq<Sighting>, claim: int, unverified: nat, rejected: nat, mismatched: nat)

  /** The verdict on e was acted on: recorded, or held the claim below its block, or counted as refused. */
  ghost predicate ActedOn(e: Entry, j: Judged, w: World, tiers: Table, payTo: Address, safeHead: int) {
    w.rpc(e.hash).Answered? &&
      match CheckOf(e, w, tiers, payTo, safeHead)
      case Payment(s, _) => s in j.sightings
      case Unverified(b) => j.claim < b && j.unverified > 0
      case Rejected => j.rejected > 0
  }

  /** A sighting is the verdict on some candidate. */
  ghost predicate ComesFrom(s: Sighting, candidates: seq<Entry>, w: World, tiers: Table, payTo: Address,
                            safeHead: int) {
    exists e :: e in candidates && w.rpc(e.hash).Answered? && IsSighting(CheckOf(e, w, tiers, payTo, safeHead), s)
  }

  predicate IsSighting(v: Check, s: Sighting) {
    v.Payment? && v.s == s
  }

  /** A candidate the chain could not confirm is why nothing above that block is claimed. */
  ghost predicate HeldBy(claim: int, candidates: seq<Entry>, w: World, tiers: Table, payTo: Address, safeHead: int) {
    exists e: Entry :: e in candidates && w.rpc(e.hash).Answered? &&
                       CheckOf(e, w, tiers, payTo, safeHead).Unverified? &&
                       CheckOf(e, w, tiers, payTo, safeHead).block == claim + 1
  }

  /** The index described some payment otherwise than the chain does. */
  ghost predicate SomeMismatch(candidates: seq<Entry>, w: World, tiers: Table, payTo: Address, safeHead: int) {
    exists e: Entry :: e in candidates && w.rpc(e.hash).Answered? &&
                       CheckOf(e, w, tiers, payTo, safeHead).Payment? && CheckOf(e, w, tiers, payTo, safeHead).mismatch
  }

  lemma StaysActedOn(e: Entry, before: Judged, after: Judged, w: World, tiers: Table, payTo: Address, safeHead: int)
    requires ActedOn(e, before, w, tiers, payTo, safeHead) && after.claim <= before.claim
    requires after.unverified >= before.unverified && after.rejected >= before.rejected
    requires before.sightings <= after.sightings
    ensures ActedOn(e, after, w, tiers, payTo, safeHead)
  {
  }

  lemma MismatchSoFar(candidates: seq<Entry>, i: nat, w: World, tiers: Table, payTo: Address, safeHead: int)
    requires i < |candidates| && w.rpc(candidates[i].hash).Answered?
    ensures var v := CheckOf(candidates[i], w, tiers, payTo, safeHead);
            SomeMismatch(candidates[..i + 1], w, tiers, payTo, safeHead) <==>
              SomeMismatch(candidates[..i], w, tiers, payTo, safeHead) || (v.Payment? && v.mismatch)
  {
    hide CheckOf;
    assert candidates[..i + 1] == candidates[..i] + [candidates[i]];
  }

  /**
   * Re-read every candidate; any failed read aborts the whole pass. A candidate
   * the chain cannot confirm holds the claim below its block.
   */
  method VerifyAll(candidates: seq<Entry>, coveredTo: int, w: World, tiers: Table, payTo: Address, safeHead: int)
    returns (r: Option<Judged>)
    ensures r.None? <==> exists e :: e in candidates && w.rpc(e.hash).Down?
    ensures r.Some? ==> r.value.claim <= coveredTo && (r.value.unverified == 0 ==> r.value.claim == coveredTo)
    ensures r.Some? ==> |r.value.sightings| + r.value.rejected + r.value.unverified == |candidates|
    ensures r.Some? ==> r.value.mismatched <= |r.value.sightings|
    ensures r.Some? ==> r.value.claim == coveredTo || HeldBy(r.value.claim, candidates, w, tiers, payTo, safeHead)
    ensures r.Some? && r.value.mismatched > 0 ==> SomeMismatch(candidates, w, tiers, payTo, safeHead)
    ensures r.Some? && SomeMismatch(candidates, w, tiers, payTo, safeHead) ==> r.value.mismatched > 0
    ensures r.Some? ==> forall e :: e in candidates ==> ActedOn(e, r.value, w, tiers, payTo, safeHead)
    ensures r.Some? ==> forall s :: s in r.value.sightings ==> ComesFrom(s, candidates, w, tiers, payTo, safeHead)
    ensures r.Some? && r.value.unverified > 0 ==>
              exists e :: e in candidates && w.rpc(e.hash).Answered? &&
                          CheckOf(e, w, tiers, payTo, safeHead).Unverified?
  {
    hide CheckOf;
    for i := 0 to |candidates|
      invariant forall k :: 0 <= k < i ==> w.rpc(candidates[k].hash).Answered?
    {
      if w.rpc(candidates[i].hash).Down? { return None; }
    }
    var j := Judged([], coveredTo, 0, 0, 0);
    for i := 0 to |candidates|
      invariant j.claim <= coveredTo && (j.unverified == 0 ==> j.claim == coveredTo)
      invariant forall k :: 0 <= k < i ==> ActedOn(candidates[k], j, w, tiers, payTo, safeHead)
      invariant forall s :: s in j.sightings ==> ComesFrom(s, candidates, w, tiers, payTo, safeHead)
      invariant j.unverified > 0 ==>
                  exists k :: 0 <= k < i && CheckOf(candidates[k], w, tiers, payTo, safeHead).Unverified?
      invariant |j.sightings| + j.rejected + j.unverified == i && j.mismatched <= |j.sightings|
      invariant j.claim == coveredTo || HeldBy(j.claim, candidates, w, tiers, payTo, safeHead)
      invariant j.mismatched > 0 <==> SomeMismatch(candidates[..i], w, tiers, payTo, safeHead)
    {
      ghost var was := j;
      match CheckOf(candidates[i], w, tiers, payTo, safeHead) {
        case Payment(s, mismatch) =>
          assert IsSighting(CheckOf(candidates[i], w, tiers, payTo, safeHead), s);
          j := j.(sightings := j.sightings + [s], mismatched := j.mismatched + if mismatch then 1 else 0);
        case Rejected =>
          j := j.(rejected := j.rejected + 1);
        case Unverified(block) =>
          j := j.(unverified := j.unverified + 1, claim := Min(j.claim, block - 1));
      }
      assert ActedOn(candidates[i], j, w, tiers, payTo, safeHead);
      forall k | 0 <= k < i ensures ActedOn(candidates[k], j, w, tiers, payTo, safeHead) {
        StaysActedOn(candidates[k], was, j, w, tiers, payTo, safeHead);
      }
      MismatchSoFar(candidates, i, w, tiers, payTo, safeHead);
    }
    assert candidates[..|candidates|] == candidates;
    r := Some(j);
  }

  /** Verification keeps coverage: an honest pass lost nothing below its claim. */
  lemma JudgedCovers(candidates: seq<Entry>, coveredTo: int, j: Judged, w: World, c: Blocks, cfg: Config,
                     tiers: Table, from: nat, safeHead: int)
    requires WellFormed(c) && safeHead < |c| && safeHead <= Settled(c, cfg.confirmations)
    requires HonestWorld(w, c, cfg, from, safeHead)
    requires coveredTo <= safeHead && Covers(candidates, c, cfg.wallet, from, coveredTo) && j.claim <= coveredTo
    requires forall e :: e in candidates ==> ActedOn(e, j, w, tiers, cfg.wallet, safeHead)
    requires forall s :: s in j.sightings ==> ComesFrom(s, candidates, w, tiers, cfg.wallet, safeHead)
    ensures forall s :: s in j.sightings ==> Proven(s, c, cfg.wallet, Settled(c, cfg.confirmations), tiers)
    ensures forall h, b :: from <= b <= j.claim && PaidAt(c, cfg.wallet, h, b) ==> Recorded(j.sightings, h)
    ensures forall h, b :: from <= b <= coveredTo && PaidAt(c, cfg.wallet, h, b) && Conclusive(w.rpc(h), safeHead) ==>
              Recorded(j.sightings, h)
  {
    var settled := Settled(c, cfg.confirmations);
    forall s | s in j.sightings ensures Proven(s, c, cfg.wallet, settled, tiers) {
      var e :| e in candidates && w.rpc(e.hash).Answered? && IsSighting(CheckOf(e, w, tiers, cfg.wallet, safeHead), s);
      VerifyTellsTheTruth(e, w.rpc(e.hash), tiers, cfg.wallet, safeHead, w.holding(e.hash), w.used(e.hash), c, settled);
    }
    forall h, b | from <= b <= j.claim && PaidAt(c, cfg.wallet, h, b) ensures Recorded(j.sightings, h) {
      var e :| e in candidates && e.hash == h && e.block == b;
      assert ActedOn(e, j, w, tiers, cfg.wallet, safeHead);
      VerifyTellsTheTruth(e, w.rpc(e.hash), tiers, cfg.wallet, safeHead, w.holding(e.hash), w.used(e.hash), c, settled);
      var v := CheckOf(e, w, tiers, cfg.wallet, safeHead);
      assert v.Payment? && v.s in j.sightings;
    }
    forall h, b | from <= b <= coveredTo && PaidAt(c, cfg.wallet, h, b) && Conclusive(w.rpc(h), safeHead)
      ensures Recorded(j.sightings, h)
    {
      var e: Entry :| e in candidates && e.hash == h && e.block == b;
      assert ActedOn(e, j, w, tiers, cfg.wallet, safeHead);
      VerifyTellsTheTruth(e, w.rpc(h), tiers, cfg.wallet, safeHead, w.holding(h), w.used(h), c, settled);
      var v := CheckOf(e, w, tiers, cfg.wallet, safeHead);
      assert v.Payment? && v.s in j.sightings;
    }
  }

  /** Every row an index lists for this payment describes it as the chain does. */
  ghost predicate IndexAgrees(x: Index, h: Hash) {
    forall e: Entry :: e.hash == h && (Some(e) in Flatten(x.pages) || Some(e) in x.ranged) ==> Agrees(e)
  }

  /**
   * The decision a sighting carries is the right one: it is queued only if the shop sells
   * for it now, and always then unless the index told a different story; under the tier of its amount.
   */
  ghost predicate Decided(s: Sighting, x: Index, wallet: Address, tiers: Table, holding: Option<nat>, used: nat) {
    && s.verdict.tier == TierOf(s.hash, wallet, tiers)
    && (s.verdict.seen ==> Sells(s.hash, wallet, tiers, holding, used))
    && (Sells(s.hash, wallet, tiers, holding, used) && IndexAgrees(x, s.hash) ==> s.verdict.seen)
  }

  ghost predicate AllDecided(sightings: seq<Sighting>, w: World, wallet: Address, tiers: Table) {
    forall s :: s in sightings ==> Decided(s, w.index, wallet, tiers, w.holding(s.hash), w.used(s.hash))
  }

  lemma JudgedDecides(source: Source, candidates: seq<Entry>, to: int, j: Judged, w: World, c: Blocks, cfg: Config,
                      tiers: Table, from: nat, safeHead: int)
    requires WellFormed(c) && safeHead < |c| && safeHead <= Settled(c, cfg.confirmations)
    requires HonestWorld(w, c, cfg, from, safeHead) && ListedBy(source, candidates, w.index, from, to)
    requires forall s :: s in j.sightings ==> ComesFrom(s, candidates, w, tiers, cfg.wallet, safeHead)
    ensures AllDecided(j.sightings, w, cfg.wallet, tiers)
  {
    var settled := Settled(c, cfg.confirmations);
    forall s | s in j.sightings ensures Decided(s, w.index, cfg.wallet, tiers, w.holding(s.hash), w.used(s.hash)) {
      var e: Entry :| e in candidates && w.rpc(e.hash).Answered? && IsSighting(CheckOf(e, w, tiers, cfg.wallet,
          safeHead), s);
      VerifyTellsTheTruth(e, w.rpc(e.hash), tiers, cfg.wallet, safeHead, w.holding(e.hash), w.used(e.hash), c, settled);
      hide Sells, TierOf;
      assert Some(e) in Flatten(w.index.pages) || Some(e) in w.index.ranged || Agrees(e);
    }
  }

  /* ------------------------------------------------------------------- pass */

  /** Where a pass with no cursor begins. */
  function StartingPoint(cfg: Config, safeHead: int): (from: nat)
    ensures cfg.startBlock.Some? ==> Some(from) == cfg.startBlock
    ensures cfg.startBlock.None? && safeHead >= 0 ==>
              from <= safeHead <= from + cfg.startWindow && (safeHead == from + cfg.startWindow || from == 0)
  {
    if cfg.startBlock.Some? then cfg.startBlock.value
    else if safeHead > cfg.startWindow then safeHead - cfg.startWindow else 0
  }

  function PassStart(cursor: Option<int>, cfg: Config, safeHead: int): int {
    if cursor.None? then StartingPoint(cfg, safeHead) else cursor.value + 1
  }

  datatype Report = Report(settledAt: int, behind: int, stop: Stop, degraded: bool, caughtUp: bool)

  datatype Plan = Threw | Idle | Planned(claim: Claim, report: Report)

  function StopReason(d: Discovery, unverified: nat, clipped: bool, behindDiscoverable: int, late: bool): Stop {
    if d.stop.Some? then d.stop.value
    else if unverified > 0 then NotVerified
    else if clipped then CatchupCeiling
    else if behindDiscoverable == 0 then CaughtUp
    else if late then TimeBudget
    else ExplorerBehind
  }

  /** Discovery is not working, as opposed to merely not being level with the head. */
  function Blind(stop: Stop, indexedHead: Option<nat>, head: nat): bool {
    || stop == ExplorerError || stop == PageLimit || stop == RpcError
    || (stop == ExplorerBehind && (indexedHead.None? || head - indexedHead.value > INDEX_LAG_TOLERANCE))
  }

  function Reported(cursor: Option<int>, from: nat, cursorTo: int, d: Discovery, j: Judged, clipped: bool, head: nat,
                    safeHead: int, late: bool): Report {
    var settledAt := if cursorTo >= from then cursorTo else if cursor.Some? then cursor.value else from - 1;
    var discoverable := if d.indexedHead.None? then safeHead else Min(safeHead, d.indexedHead.value);
    var behindDiscoverable := Max(0, discoverable - settledAt);
    var stop := StopReason(d, j.unverified, clipped, behindDiscoverable, late);
    var degraded := Blind(stop, d.indexedHead, head) || d.source == RpcFallback || j.mismatched > 0;
    Report(settledAt, Max(0, safeHead - settledAt), stop, degraded, behindDiscoverable == 0 && !degraded)
  }

  /** A row of either route of the index that a pass over this ground may come across. */
  ghost predicate Listed(e: Entry, x: Index, from: int, safeHead: int) {
    (Some(e) in Flatten(x.pages) && from <= e.block <= safeHead) || Some(e) in x.ranged
  }

  /** The RPC answers for, and has final, every transfer the index lists in the range. */
  ghost predicate Confirming(w: World, tiers: Table, payTo: Address, from: int, safeHead: int) {
    forall e :: Listed(e, w.index, from, safeHead) ==>
      w.rpc(e.hash).Answered? && !CheckOf(e, w, tiers, payTo, safeHead).Unverified?
  }

  /** What a pass claims once its candidates were judged, under the trust ceiling. */
  function ClaimOf(cursor: Option<int>, cfg: Config, from: nat, j: Judged): Claim {
    var ceilingTo := from + cfg.ceiling - 1;
    var cursorTo := if j.claim > ceilingTo then ceilingTo else j.claim;
    Claim(cursor.None?, from, if cursorTo >= from then Some(cursorTo) else None, SortBy(j.sightings, SightingBlock()))
  }

  function SightingBlock(): Sighting -> int {
    (s: Sighting) => s.block
  }

  lemma ClaimHolds(cursor: Option<int>, cfg: Config, from: nat, d: Discovery, j: Judged, w: World, c: Blocks,
                   tiers: Table, safeHead: int)
    requires WellFormed(c) && from <= safeHead < |c| && safeHead <= Settled(c, cfg.confirmations)
    requires HonestWorld(w, c, cfg, from, safeHead)
    requires d.coveredTo <= safeHead && Covers(d.candidates, c, cfg.wallet, from, d.coveredTo) && j.claim <= d.coveredTo
    requires forall e :: e in d.candidates ==> ActedOn(e, j, w, tiers, cfg.wallet, safeHead)
    requires forall s :: s in j.sightings ==> ComesFrom(s, d.candidates, w, tiers, cfg.wallet, safeHead)
    ensures Holds(ClaimOf(cursor, cfg, from, j), c, cfg, tiers)
  {
    JudgedCovers(d.candidates, d.coveredTo, j, w, c, cfg, tiers, from, safeHead);
    SortByMembers(j.sightings, SightingBlock());
    var cl := ClaimOf(cursor, cfg, from, j);
    if cl.upTo.Some? {
      forall h, b | cl.from <= b <= cl.upTo.value && PaidAt(c, cfg.wallet, h, b) ensures Recorded(cl.sightings, h) {
        assert Recorded(j.sightings, h);
      }
    }
  }

  /** "Caught up" is never said while blind: it means level with all that could have been found. */
  lemma CaughtUpIsHonest(cursor: Option<int>, from: nat, cursorTo: int, d: Discovery, j: Judged, clipped: bool,
                         w: World, safeHead: int)
    requires d.indexedHead == w.index.height
    requires d.indexedHead.None? ==> d.source == RpcFallback || d.stop == Some(ExplorerError)
    ensures var r := Reported(cursor, from, cursorTo, d, j, clipped, w.head, safeHead, w.lateAtEnd);
            r.caughtUp ==> w.index.height.Some? && r.settledAt >= Target(w.index, safeHead)
  {
  }

  /** How far a claim reaches. */
  function ClaimedTo(cl: Claim): int {
    if cl.upTo.Some? then cl.upTo.value else cl.from - 1
  }

  /** Some transfer the index lists is not settled on the chain yet, and the claim ends no lower than right below it. */
  ghost predicate WaitsFor(cl: Claim, w: World, tiers: Table, payTo: Address, safeHead: int) {
    exists e :: Listed(e, w.index, cl.from, safeHead) && w.rpc(e.hash).Answered? &&
                CheckOf(e, w, tiers, payTo, safeHead).Unverified? &&
                ClaimedTo(cl) >= CheckOf(e, w, tiers, payTo, safeHead).block - 1
  }

  /** The index does not say how far it has read, or is minutes behind. */
  predicate FarBehind(w: World) {
    w.index.height.None? || w.head > w.index.height.value + INDEX_LAG_TOLERANCE
  }

  /**
   * What the report says is the state of affairs: where the pass settled, how far that is from
   * the safe head, that it is level, and, if it is not, what held it; and it is degraded
   * exactly when discovery is blind, ran on blocks, or was told a different story than the chain's.
   */
  ghost predicate TrueReport(rep: Report, cl: Claim, cursor: Option<int>, cfg: Config, w: World, mismatch: bool,
                             unsettled: bool) {
    var safeHead := SafeHead(w.head, cfg.confirmations);
    var from := PassStart(cursor, cfg, safeHead);
    var source := if IndexBehind(cursor, cfg, w) then NoSource else SourceOf(cfg, w.index, from);
    && rep.settledAt == (if cl.upTo.Some? || cursor.None? then ClaimedTo(cl) else cursor.value)
    && rep.behind == Max(0, safeHead - rep.settledAt)
    && (rep.caughtUp <==> rep.settledAt >= Target(w.index, safeHead) && !rep.degraded)
    && (rep.degraded <==> rep.stop in {ExplorerError, PageLimit, RpcError} || source == RpcFallback || mismatch ||
                          (rep.stop == ExplorerBehind && FarBehind(w)))
    && (IndexBehind(cursor, cfg, w) ==> rep.stop == ExplorerBehind)
    && (rep.stop == TimeBudget ==> w.lateAtEnd && source == RpcFallback && rep.settledAt < Target(w.index, safeHead))
    && (rep.stop == ExplorerBehind ==> IndexBehind(cursor, cfg, w) || (!w.lateAtEnd && source == RpcFallback))
    && (!IndexBehind(cursor, cfg, w) && source != RpcFallback && !Answering(cfg, w, from) ==>
          rep.stop == if w.index.height.None? || source == NoSource then ExplorerError else PageLimit)
    && (!IndexBehind(cursor, cfg, w) && Answering(cfg, w, from) ==>
          && (rep.stop == CaughtUp ==> rep.settledAt >= Target(w.index, safeHead))
          && (rep.stop == CatchupCeiling ==> rep.settledAt == from + cfg.ceiling - 1 < Target(w.index, safeHead))
          && rep.stop in {NotVerified, CaughtUp, CatchupCeiling} && (rep.stop == NotVerified <==> unsettled))
  }

  /** The index describes some payment otherwise than the chain does. */
  ghost predicate ListedMismatch(w: World, tiers: Table, payTo: Address, from: int, safeHead: int) {
    exists e :: Listed(e, w.index, from, safeHead) && w.rpc(e.hash).Answered? &&
                CheckOf(e, w, tiers, payTo, safeHead).Payment? && CheckOf(e, w, tiers, payTo, safeHead).mismatch
  }

  /** Some transfer the index lists is not settled on the chain yet. */
  ghost predicate ListedUnsettled(w: World, tiers: Table, payTo: Address, from: int, safeHead: int) {
    exists e :: Listed(e, w.index, from, safeHead) && w.rpc(e.hash).Answered? &&
                CheckOf(e, w, tiers, payTo, safeHead).Unverified?
  }

  /** A true report, whose talk of a mismatch or of something unsettled has a row of the index behind it. */
  ghost predicate ReportTells(rep: Report, cl: Claim, cursor: Option<int>, cfg: Config, tiers: Table, w: World) {
    var safeHead := SafeHead(w.head, cfg.confirmations);
    exists mismatch, unsettled ::
      && TrueReport(rep, cl, cursor, cfg, w, mismatch, unsettled)
      && (mismatch ==> ListedMismatch(w, tiers, cfg.wallet, cl.from, safeHead))
      && (unsettled ==> ListedUnsettled(w, tiers, cfg.wallet, cl.from, safeHead))
  }

  lemma ReportIsTrue(cursor: Option<int>, cfg: Config, w: World, d: Discovery, j: Judged)
    requires Sane(cfg) && (j.unverified == 0 ==> j.claim == d.coveredTo) && j.claim <= d.coveredTo
    requires var safeHead := SafeHead(w.head, cfg.confirmations);
             var from := PassStart(cursor, cfg, safeHead);
             && 0 <= from <= safeHead
             && Found(d, cursor, cfg, w)
    ensures var safeHead := SafeHead(w.head, cfg.confirmations);
            var from := PassStart(cursor, cfg, safeHead);
            var clipped := j.claim > from + cfg.ceiling - 1;
            var cursorTo := if clipped then from + cfg.ceiling - 1 else j.claim;
            TrueReport(Reported(cursor, from, cursorTo, d, j, clipped, w.head, safeHead, w.lateAtEnd),
                       ClaimOf(cursor, cfg, from, j), cursor, cfg, w,
                       d.source != RpcFallback && j.mismatched > 0, d.source != RpcFallback && j.unverified > 0)
  {
    hide ListedBy, V1Ends, V2Ends, V1Throws, V2Throws;
  }

  /** What is said of a mismatch, or of a transfer not settled, is said of a row the index lists. */
  lemma ReportIsBacked(cursor: Option<int>, cfg: Config, tiers: Table, w: World, d: Discovery, j: Judged, rep: Report,
                       cl: Claim)
    requires Found(d, cursor, cfg, w) && cl.from == PassStart(cursor, cfg, SafeHead(w.head, cfg.confirmations))
    requires TrueReport(rep, cl, cursor, cfg, w,
                        d.source != RpcFallback && j.mismatched > 0, d.source != RpcFallback && j.unverified > 0)
    requires j.mismatched > 0 ==> SomeMismatch(d.candidates, w, tiers, cfg.wallet, SafeHead(w.head, cfg.confirmations))
    requires j.unverified > 0 ==>
               exists e :: e in d.candidates && w.rpc(e.hash).Answered? &&
                           CheckOf(e, w, tiers, cfg.wallet, SafeHead(w.head, cfg.confirmations)).Unverified?
    ensures ReportTells(rep, cl, cursor, cfg, tiers, w)
  {
    hide CheckOf, TrueReport, V1Ends, V2Ends, V1Throws, V2Throws, Listed;
    var safeHead := SafeHead(w.head, cfg.confirmations);
    if d.source != RpcFallback {
      forall e | e in d.candidates ensures Listed(e, w.index, cl.from, safeHead) {
        CandidateIsListed(cursor, cfg, w, d, e);
      }
    }
  }

  lemma CandidateIsListed(cursor: Option<int>, cfg: Config, w: World, d: Discovery, e: Entry)
    requires Found(d, cursor, cfg, w) && d.source != RpcFallback && e in d.candidates
    ensures var safeHead := SafeHead(w.head, cfg.confirmations);
            Listed(e, w.index, PassStart(cursor, cfg, safeHead), safeHead)
  {
    hide V1Ends, V2Ends, V1Throws, V2Throws;
  }

  /**
   * One pass up to, but not including, its commit.
   *
   * Honest sources make the claim hold whatever failed on the way; a claim never
   * exceeds the trust ceiling; where the index answers, it is the ceiling, the safe
   * head or the index's height, whichever comes first, or ends right below a
   * transfer that is not settled yet. The report is true of all that.
   */
  method PlanScan(cursor: Option<int>, cfg: Config, tiers: Table, c: Blocks, w: World) returns (p: Plan)
    requires Sane(cfg) && WellFormed(c) && w.head < |c| && w.index.pages != []
    requires cursor.Some? ==> cursor.value >= -1
    ensures PlanIsSound(p, cursor, cfg, tiers, c, w)
    ensures p.Threw? ==> exists h :: w.rpc(h).Down?
    ensures IndexBehind(cursor, cfg, w) ==> p.Idle? || (p.Planned? && p.claim.upTo.None?)
    ensures p.Planned? && !IndexBehind(cursor, cfg, w) && Answering(cfg, w, p.claim.from) ==>
              var safeHead := SafeHead(w.head, cfg.confirmations);
              || ClaimedTo(p.claim) == Min(p.claim.from + cfg.ceiling - 1, Target(w.index, safeHead))
              || WaitsFor(p.claim, w, tiers, cfg.wallet, safeHead)
    ensures Healthy(cursor, cfg, tiers, w) ==>
              var safeHead := SafeHead(w.head, cfg.confirmations);
              p.Planned? &&
              p.claim.upTo == Some(Min(PassStart(cursor, cfg, safeHead) + cfg.ceiling - 1, Target(w.index, safeHead)))
    ensures p.Planned? ==> ReportTells(p.report, p.claim, cursor, cfg, tiers, w)
    ensures Healthy(cursor, cfg, tiers, w) ==>
              var safeHead := SafeHead(w.head, cfg.confirmations);
              var from := PassStart(cursor, cfg, safeHead);
              ListedMismatch(w, tiers, cfg.wallet, from, safeHead) ||
              (!p.report.degraded && (p.report.caughtUp <==> from + cfg.ceiling - 1 >= Target(w.index, safeHead))
               && p.report.stop == if p.report.caughtUp then CaughtUp else CatchupCeiling)
  {
    hide PlanIsSound, Covers, HonestIndex, ActedOn, ComesFrom, FromHistory, Reported, ClaimOf, Answering, Confirming,
         Accounted, TrueReport, ReportTells, WaitsFor, HeldBy, SomeMismatch, ListedMismatch, ListedBy, AllDecided,
         CheckOf;
    var safeHead := SafeHead(w.head, cfg.confirmations);
    var from: int := PassStart(cursor, cfg, safeHead);
    if from > safeHead {
      NoPlanIsSound(Idle, cursor, cfg, tiers, c, w);
      return Idle;
    }
    SafeHeadGrows(c, cfg, w.head);
    var d := Discover(cfg, c, w, from, safeHead);
    var judged := VerifyAll(d.candidates, d.coveredTo, w, tiers, cfg.wallet, safeHead);
    if judged.None? {
      NoPlanIsSound(Threw, cursor, cfg, tiers, c, w);
      ThrowIsUnhealthy(cursor, cfg, tiers, w, d);
      return Threw;
    }
    var j := judged.value;
    var ceilingTo := from + cfg.ceiling - 1;
    var clipped := j.claim > ceilingTo;
    var cursorTo := if clipped then ceilingTo else j.claim;
    p := Planned(ClaimOf(cursor, cfg, from, j),
                 Reported(cursor, from, cursorTo, d, j, clipped, w.head, safeHead, w.lateAtEnd));
    NoGroundNoClaim(cursor, cfg, from, j);
    ReportIsTrue(cursor, cfg, w, d, j);
    ReportIsBacked(cursor, cfg, tiers, w, d, j, p.report, p.claim);
    PlannedIsSound(cursor, cfg, tiers, c, w, d, j, p);
    ClaimReaches(cursor, cfg, tiers, w, d, j);
    LevelSaysSo(cursor, cfg, tiers, w, p.report, p.claim);
  }

  lemma NoGroundNoClaim(cursor: Option<int>, cfg: Config, from: nat, j: Judged)
    requires Sane(cfg)
    ensures j.claim < from ==> ClaimOf(cursor, cfg, from, j).upTo.None?
    ensures ClaimOf(cursor, cfg, from, j).from == from
  {
  }

  lemma NoPlanIsSound(p: Plan, cursor: Option<int>, cfg: Config, tiers: Table, c: Blocks, w: World)
    requires WellFormed(c) && w.head < |c| && !p.Planned?
    requires p.Idle?
       <==> PassStart(cursor, cfg, SafeHead(w.head, cfg.confirmations)) > SafeHead(w.head, cfg.confirmations)
    ensures PlanIsSound(p, cursor, cfg, tiers, c, w)
    ensures p.Idle? ==> !Healthy(cursor, cfg, tiers, w)
  {
  }

  /** Where discovery left the pass: what PlanScan knows of it, whatever failed. */
  ghost predicate Discovered(d: Discovery, cursor: Option<int>, cfg: Config, tiers: Table, c: Blocks, w: World)
    requires WellFormed(c) && w.head < |c|
  {
    var safeHead := SafeHead(w.head, cfg.confirmations);
    var from := PassStart(cursor, cfg, safeHead);
    && 0 <= from <= safeHead < |c|
    && (HonestIndex(w.index, c, cfg.wallet, from, safeHead) ==>
            from - 1 <= d.coveredTo <= safeHead && Covers(d.candidates, c, cfg.wallet, from, d.coveredTo))
    && Found(d, cursor, cfg, w)
  }

  /** What Discover promises of the source it ended up with. */
  ghost predicate Found(d: Discovery, cursor: Option<int>, cfg: Config, w: World) {
    var safeHead := SafeHead(w.head, cfg.confirmations);
    var from := PassStart(cursor, cfg, safeHead);
    if IndexBehind(cursor, cfg, w) then d == Discovery(NoSource, [], from - 1, w.index.height, Some(ExplorerBehind))
    else Accounted(d, cfg, w, from, Target(w.index, safeHead))
  }

  lemma ConclusiveClaim(cursor: Option<int>, cfg: Config, tiers: Table, c: Blocks, w: World, d: Discovery, j: Judged)
    requires Sane(cfg) && WellFormed(c) && w.head < |c| && Discovered(d, cursor, cfg, tiers, c, w)
    requires j.claim <= d.coveredTo
    requires forall e :: e in d.candidates ==> ActedOn(e, j, w, tiers, cfg.wallet, SafeHead(w.head, cfg.confirmations))
    requires forall s :: s in j.sightings ==>
              ComesFrom(s, d.candidates, w, tiers, cfg.wallet, SafeHead(w.head, cfg.confirmations))
    requires HonestWorld(w, c, cfg, PassStart(cursor, cfg, SafeHead(w.head, cfg.confirmations)),
                         SafeHead(w.head, cfg.confirmations))
    ensures var safeHead := SafeHead(w.head, cfg.confirmations);
            var from := PassStart(cursor, cfg, safeHead);
            !IndexBehind(cursor, cfg, w) && Answering(cfg, w, from) ==>
              ConclusiveAreRecorded(ClaimOf(cursor, cfg, from, j), w, c, cfg, from, safeHead)
  {
    hide Covers, HonestIndex, ActedOn, ComesFrom, ListedBy, SortBy;
    var safeHead := SafeHead(w.head, cfg.confirmations);
    SafeHeadGrows(c, cfg, w.head);
    JudgedCovers(d.candidates, d.coveredTo, j, w, c, cfg, tiers, PassStart(cursor, cfg, safeHead), safeHead);
    SortByMembers(j.sightings, SightingBlock());
  }

  lemma PlannedIsSound(cursor: Option<int>, cfg: Config, tiers: Table, c: Blocks, w: World, d: Discovery, j: Judged,
                       p: Plan)
    requires Sane(cfg) && WellFormed(c) && w.head < |c| && Discovered(d, cursor, cfg, tiers, c, w)
    requires j.claim <= d.coveredTo
    requires forall e :: e in d.candidates ==> ActedOn(e, j, w, tiers, cfg.wallet, SafeHead(w.head, cfg.confirmations))
    requires forall s :: s in j.sightings ==>
              ComesFrom(s, d.candidates, w, tiers, cfg.wallet, SafeHead(w.head, cfg.confirmations))
    requires var safeHead := SafeHead(w.head, cfg.confirmations);
             var from := PassStart(cursor, cfg, safeHead);
             var clipped := j.claim > from + cfg.ceiling - 1;
             var cursorTo := if clipped then from + cfg.ceiling - 1 else j.claim;
             p == Planned(ClaimOf(cursor, cfg, from, j),
                          Reported(cursor, from, cursorTo, d, j, clipped, w.head, safeHead, w.lateAtEnd))
    ensures PlanIsSound(p, cursor, cfg, tiers, c, w)
  {
    hide Covers, HonestIndex, ActedOn, ComesFrom, Holds, ListedBy, AllDecided, ConclusiveAreRecorded, Answering, SortBy;
    var safeHead := SafeHead(w.head, cfg.confirmations);
    var from := PassStart(cursor, cfg, safeHead);
    var clipped := j.claim > from + cfg.ceiling - 1;
    SafeHeadGrows(c, cfg, w.head);
    if HonestWorld(w, c, cfg, from, safeHead) {
      ClaimHolds(cursor, cfg, from, d, j, w, c, tiers, safeHead);
      ConclusiveClaim(cursor, cfg, tiers, c, w, d, j);
      DecidedClaim(cursor, cfg, tiers, c, w, d, j);
    }
    SortBySorts(j.sightings, SightingBlock());
    CaughtUpIsHonest(cursor, from, if clipped then from + cfg.ceiling - 1 else j.claim, d, j, clipped, w, safeHead);
  }

  lemma DecidedClaim(cursor: Option<int>, cfg: Config, tiers: Table, c: Blocks, w: World, d: Discovery, j: Judged)
    requires WellFormed(c) && w.head < |c| && Discovered(d, cursor, cfg, tiers, c, w)
    requires var safeHead := SafeHead(w.head, cfg.confirmations);
             HonestWorld(w, c, cfg, PassStart(cursor, cfg, safeHead), safeHead)
    requires forall s :: s in j.sightings ==>
              ComesFrom(s, d.candidates, w, tiers, cfg.wallet, SafeHead(w.head, cfg.confirmations))
    ensures AllDecided(SortBy(j.sightings, SightingBlock()), w, cfg.wallet, tiers)
  {
    hide Covers, HonestIndex, ComesFrom, Decided, ListedBy;
    var safeHead := SafeHead(w.head, cfg.confirmations);
    SafeHeadGrows(c, cfg, w.head);
    NothingListed(w.index, PassStart(cursor, cfg, safeHead), Target(w.index, safeHead));
    JudgedDecides(d.source, d.candidates, Target(w.index, safeHead), j, w, c, cfg, tiers, PassStart(cursor, cfg,
        safeHead), safeHead);
    SortByMembers(j.sightings, SightingBlock());
  }

  lemma NothingListed(x: Index, from: int, to: int)
    ensures ListedBy(NoSource, [], x, from, to)
  {
  }

  /** Where everything answers, every candidate is judged and none is left open. */
  lemma ThrowIsUnhealthy(cursor: Option<int>, cfg: Config, tiers: Table, w: World, d: Discovery)
    requires exists e :: e in d.candidates && w.rpc(e.hash).Down?
    requires Found(d, cursor, cfg, w)
    ensures !Healthy(cursor, cfg, tiers, w)
  {
    hide V1Ends, V2Ends, V1Throws, V2Throws, CheckOf;
  }

  /** How far the claim reaches when the index answers: all the way, or to what it waits for. */
  lemma ClaimReaches(cursor: Option<int>, cfg: Config, tiers: Table, w: World, d: Discovery, j: Judged)
    requires Sane(cfg) && Found(d, cursor, cfg, w)
    requires j.claim <= d.coveredTo && (j.unverified == 0 ==> j.claim == d.coveredTo)
    requires j.claim == d.coveredTo ||
             HeldBy(j.claim, d.candidates, w, tiers, cfg.wallet, SafeHead(w.head, cfg.confirmations))
    requires 0 <= PassStart(cursor, cfg, SafeHead(w.head, cfg.confirmations)) <= SafeHead(w.head, cfg.confirmations)
    ensures var safeHead := SafeHead(w.head, cfg.confirmations);
            var from := PassStart(cursor, cfg, safeHead);
            var cl := ClaimOf(cursor, cfg, from, j);
            && (!IndexBehind(cursor, cfg, w) && Answering(cfg, w, from) ==>
                  || ClaimedTo(cl) == Min(from + cfg.ceiling - 1, Target(w.index, safeHead))
                  || WaitsFor(cl, w, tiers, cfg.wallet, safeHead))
            && (Healthy(cursor, cfg, tiers, w) ==>
                    cl.upTo == Some(Min(from + cfg.ceiling - 1, Target(w.index, safeHead))))
  {
    hide CheckOf, V1Ends, V2Ends, V1Throws, V2Throws, SortBy;
  }

  /** A pass that covered all it could, on an index that agrees with the chain, says so and is not degraded. */
  lemma LevelSaysSo(cursor: Option<int>, cfg: Config, tiers: Table, w: World, rep: Report, cl: Claim)
    requires Sane(cfg) && ReportTells(rep, cl, cursor, cfg, tiers, w)
    requires var safeHead := SafeHead(w.head, cfg.confirmations);
             var from := PassStart(cursor, cfg, safeHead);
             && cl.from == from
             && (Healthy(cursor, cfg, tiers, w) ==>
                     cl.upTo == Some(Min(from + cfg.ceiling - 1, Target(w.index, safeHead))))
    ensures var safeHead := SafeHead(w.head, cfg.confirmations);
            var from := PassStart(cursor, cfg, safeHead);
            Healthy(cursor, cfg, tiers, w) && !ListedMismatch(w, tiers, cfg.wallet, from, safeHead) ==>
              && !rep.degraded && (rep.caughtUp <==> from + cfg.ceiling - 1 >= Target(w.index, safeHead))
              && rep.stop == if rep.caughtUp then CaughtUp else CatchupCeiling
  {
    hide ListedMismatch, CheckOf, V1Ends, V2Ends, V1Throws, V2Throws, Listed;
  }

  /** A payment the chain is conclusive about is recorded now, whatever else the claim waits for. */
  ghost predicate ConclusiveAreRecorded(cl: Claim, w: World, c: Blocks, cfg: Config, from: int, safeHead: int) {
    forall h, b :: from <= b <= Target(w.index, safeHead) && PaidAt(c, cfg.wallet, h, b) ==>
      Conclusive(w.rpc(h), safeHead) ==> Recorded(cl.sightings, h)
  }

  /** The meaning of a plan, honest sources or not. */
  ghost predicate PlanIsSound(p: Plan, cursor: Option<int>, cfg: Config, tiers: Table, c: Blocks, w: World)
    requires WellFormed(c) && w.head < |c|
  {
    var safeHead := SafeHead(w.head, cfg.confirmations);
    var from := PassStart(cursor, cfg, safeHead);
    && (p.Idle? <==> from > safeHead)
    && (p.Planned? ==>
          && p.claim.from == from && p.claim.first == cursor.None? && Sorted(p.claim.sightings, SightingBlock())
          && (p.claim.upTo.Some? ==> from <= p.claim.upTo.value < from + cfg.ceiling)
          && (0 <= from <= safeHead < |c| && HonestWorld(w, c, cfg, from, safeHead) ==>
                && Holds(p.claim, c, cfg, tiers) && AllDecided(p.claim.sightings, w, cfg.wallet, tiers)
                && (!IndexBehind(cursor, cfg, w) && Answering(cfg, w, from) ==>
                      ConclusiveAreRecorded(p.claim, w, c, cfg, from, safeHead)))
          && (p.report.caughtUp && (p.claim.upTo.Some? || cursor.Some?) ==>
                w.index.height.Some?
                && (if p.claim.upTo.Some? then p.claim.upTo.value else cursor.value) >= Target(w.index, safeHead)))
  }

  /** The index has not reached the ground the pass would start on. */
  predicate IndexBehind(cursor: Option<int>, cfg: Config, w: World) {
    var safeHead := SafeHead(w.head, cfg.confirmations);
    w.index.height.Some? && Target(w.index, safeHead) < PassStart(cursor, cfg, safeHead)
  }

  /** There is ground to cover, and index and RPC both answer for it. */
  ghost predicate Healthy(cursor: Option<int>, cfg: Config, tiers: Table, w: World) {
    var safeHead := SafeHead(w.head, cfg.confirmations);
    var from := PassStart(cursor, cfg, safeHead);
    from <= Target(w.index, safeHead) && Answering(cfg, w, from) && Confirming(w, tiers, cfg.wallet, from, safeHead)
  }

  lemma SafeHeadGrows(c: Blocks, cfg: Config, head: nat)
    requires head < |c|
    ensures 0 <= SafeHead(head, cfg.confirmations) <= Settled(c, cfg.confirmations) < |c|
  {
  }

  /* ---------------------------------------------------------------- writing */

  function InsertAll(rows: Rows, sightings: seq<Sighting>, id: nat, now: int): Rows {
    if sightings == [] then rows else
    var before := InsertAll(rows, sightings[..|sightings| - 1], id, now);
    var s := sightings[|sightings| - 1];
    if s.hash in before then before else before[s.hash := FreshRow(s, id + |sightings| - 1, now)]
  }

  lemma LastInserted(rows: Rows, sightings: seq<Sighting>, id: nat, now: int)
    requires sightings != []
    ensures var before, s := InsertAll(rows, sightings[..|sightings| - 1], id, now), sightings[|sightings| - 1];
            InsertAll(rows, sightings, id, now) ==
              if s.hash in before then before else before[s.hash := FreshRow(s, id + |sightings| - 1, now)]
  {
  }

  /** Held rows are untouched, and every sighting ends up with a row of its own hash. */
  lemma {:induction false} InsertAllFacts(rows: Rows, sightings: seq<Sighting>, id: nat, now: int)
    ensures var r := InsertAll(rows, sightings, id, now);
            && (forall h :: h in rows ==> h in r && r[h] == rows[h])
            && (forall s :: s in sightings ==> s.hash in r)
            && (forall h :: h in r && h !in rows ==>
                  exists i :: 0 <= i < |sightings| && sightings[i].hash == h &&
                              r[h] == FreshRow(sightings[i], id + i, now))
  {
    if sightings != [] {
      var front, last := sightings[..|sightings| - 1], sightings[|sightings| - 1];
      InsertAllFacts(rows, front, id, now);
      var r := InsertAll(rows, sightings, id, now);
      LastInserted(rows, sightings, id, now);
      hide InsertAll, FreshRow;
      forall s | s in sightings ensures s.hash in r { assert s == last || s in front; }
      forall h | h in r && h !in rows
        ensures exists i :: 0 <= i < |sightings| && sightings[i].hash == h &&
                            r[h] == FreshRow(sightings[i], id + i, now)
      {
        var before := InsertAll(rows, front, id, now);
        if h in before {
          var i :| 0 <= i < |front| && front[i].hash == h && before[h] == FreshRow(front[i], id + i, now);
          assert sightings[i] == front[i];
        } else {
          assert sightings[|sightings| - 1].hash == h;
        }
      }
    }
  }

  lemma OneMoreInserted(rows: Rows, sightings: seq<Sighting>, i: nat, id: nat, now: int)
    requires i < |sightings|
    ensures var before, s := InsertAll(rows, sightings[..i], id, now), sightings[i];
            InsertAll(rows, sightings[..i + 1], id, now) ==
              if s.hash in before then before else before[s.hash := FreshRow(s, id + i, now)]
  {
    assert sightings[..i + 1][..i] == sightings[..i];
  }

  /** Every payment of the claim, then the cursor, in one transaction: all of it lands or none does. */
  method Commit(t: PaymentTable, cl: Claim, fails: bool, now: int) returns (done: bool, recorded: nat, duplicates: nat)
    modifies t
    ensures done == !fails
    ensures !done ==> t.rows == old(t.rows) && t.cursor == old(t.cursor) && recorded == 0 && duplicates == 0
    ensures done ==> t.rows == InsertAll(old(t.rows), cl.sightings, old(t.nextId), now)
    ensures done ==> t.cursor == (if cl.upTo.None? then old(t.cursor)
                                  else if old(t.cursor).None? then cl.upTo
                                  else Some(Max(old(t.cursor).value, cl.upTo.value)))
    ensures done ==> recorded + duplicates == |cl.sightings| && recorded == |t.rows| - |old(t.rows)|
  {
    recorded, duplicates := 0, 0;
    if fails { return false, 0, 0; }
    assert InsertAll(t.rows, [], t.nextId, now) == t.rows;
    hide InsertAll, FreshRow;
    for i := 0 to |cl.sightings|
      invariant t.rows == InsertAll(old(t.rows), cl.sightings[..i], old(t.nextId), now)
      invariant t.nextId == old(t.nextId) + i && t.cursor == old(t.cursor)
      invariant recorded + duplicates == i && recorded == |t.rows| - |old(t.rows)|
    {
      OneMoreInserted(old(t.rows), cl.sightings, i, old(t.nextId), now);
      var inserted := t.RecordSeen(cl.sightings[i], now);
      if inserted { recorded := recorded + 1; } else { duplicates := duplicates + 1; }
    }
    assert cl.sightings[..|cl.sightings|] == cl.sightings;
    if cl.upTo.Some? { t.SetCursor(cl.upTo.value); }
    done := true;
  }

  /** The cursor after a claim is committed. */
  function Advanced(cursor: Option<int>, upTo: Option<int>): Option<int> {
    if upTo.None? then cursor
    else if cursor.None? then upTo
    else Some(Max(cursor.value, upTo.value))
  }

  /** One whole pass: plan, then commit what was planned; anything thrown leaves the tables alone. */
  method ScanPayments(t: PaymentTable, cfg: Config, tiers: Table, c: Blocks, w: World, now: int)
    returns (p: Plan, committed: bool)
    requires Sane(cfg) && WellFormed(c) && w.head < |c| && w.index.pages != []
    requires t.cursor.Some? ==> t.cursor.value >= -1
    modifies t
    ensures committed <==> p.Planned? && !w.commitFails
    ensures !committed ==> t.rows == old(t.rows) && t.cursor == old(t.cursor)
    ensures committed ==> t.rows == InsertAll(old(t.rows), p.claim.sightings, old(t.nextId), now)
    ensures committed ==> t.cursor == Advanced(old(t.cursor), p.claim.upTo)
    ensures PlanIsSound(p, old(t.cursor), cfg, tiers, c, w)
    ensures committed && p.report.caughtUp && t.cursor.Some? ==>
              w.index.height.Some? && t.cursor.value >= Target(w.index, SafeHead(w.head, cfg.confirmations))
    ensures IndexBehind(old(t.cursor), cfg, w) ==> t.cursor == old(t.cursor)
    ensures committed && HonestPass(old(t.cursor), cfg, c, w) ==>
              forall h :: h in t.rows && h !in old(t.rows) ==>
                RowDecided(t.rows[h], h, w.index, cfg.wallet, tiers, w.holding(h), w.used(h))
    ensures committed && HonestPass(old(t.cursor), cfg, c, w) && !IndexBehind(old(t.cursor), cfg, w) ==>
              var safeHead := SafeHead(w.head, cfg.confirmations);
              Answering(cfg, w, p.claim.from) ==>
                forall h, b :: p.claim.from <= b <= Target(w.index, safeHead) && PaidAt(c, cfg.wallet, h, b) ==>
                  Conclusive(w.rpc(h), safeHead) ==> h in t.rows
    ensures Healthy(old(t.cursor), cfg, tiers, w) && !w.commitFails ==>
              t.cursor == Some(Min(PassStart(old(t.cursor), cfg, SafeHead(w.head, cfg.confirmations)) + cfg.ceiling - 1,
                                   Target(w.index, SafeHead(w.head, cfg.confirmations))))
  {
    hide Healthy, IndexBehind, Holds, AllDecided, RowDecided, Answering, ReportTells, ListedMismatch, WaitsFor,
         InsertAll;
    p := PlanScan(t.cursor, cfg, tiers, c, w);
    committed := false;
    if p.Planned? {
      ghost var rows, id, cursor := t.rows, t.nextId, t.cursor;
      var recorded, duplicates;
      committed, recorded, duplicates := Commit(t, p.claim, w.commitFails, now);
      if committed && HonestPass(cursor, cfg, c, w) { ScanDecides(rows, t.rows, id, now, cursor, p, cfg, tiers, c, w); }
    }
  }

  /** The pass has ground, and every answer about it is honest. */
  ghost predicate HonestPass(cursor: Option<int>, cfg: Config, c: Blocks, w: World) {
    var safeHead := SafeHead(w.head, cfg.confirmations);
    var from := PassStart(cursor, cfg, safeHead);
    0 <= from <= safeHead < |c| && HonestWorld(w, c, cfg, from, safeHead)
  }

  /**
   * A row as it enters the table: the chain's sender and amount, the amount's tier, nothing tried
   * yet, queued or parked.
   */
  ghost predicate Entered(row: Row, h: Hash, wallet: Address, tiers: Table) {
    && row.from == h.from && row.amount == h.value && row.tier == TierOf(h, wallet, tiers)
    && row.attempts == 0 && row.node == None
    && (row.status == Seen || row.status == ManualReview) && (row.status == Seen <==> Claimable(row))
  }

  /** It is queued only if the shop sells for it, and always then unless the index told a different story. */
  ghost predicate RowDecided(row: Row, h: Hash, x: Index, wallet: Address, tiers: Table, holding: Option<nat>,
                             used: nat) {
    && Entered(row, h, wallet, tiers)
    && (row.status == Seen ==> Sells(h, wallet, tiers, holding, used))
    && (Sells(h, wallet, tiers, holding, used) && IndexAgrees(x, h) ==> row.status == Seen)
  }

  /** It is queued exactly if the shop sells for it. */
  ghost predicate RowSettled(row: Row, h: Hash, wallet: Address, tiers: Table, holding: Option<nat>, used: nat) {
    Entered(row, h, wallet, tiers) && (row.status == Seen <==> Sells(h, wallet, tiers, holding, used))
  }

  lemma ScanDecides(before: Rows, after: Rows, id: nat, now: int, cursor: Option<int>, p: Plan, cfg: Config,
                    tiers: Table,
                    c: Blocks, w: World)
    requires WellFormed(c) && w.head < |c| && p.Planned? && PlanIsSound(p, cursor, cfg, tiers, c, w)
    requires HonestPass(cursor, cfg, c, w) && after == InsertAll(before, p.claim.sightings, id, now)
    ensures forall h :: h in after && h !in before ==>
              RowDecided(after[h], h, w.index, cfg.wallet, tiers, w.holding(h), w.used(h))
    ensures var safeHead := SafeHead(w.head, cfg.confirmations);
            !IndexBehind(cursor, cfg, w) && Answering(cfg, w, p.claim.from) ==>
              forall h, b :: p.claim.from <= b <= Target(w.index, safeHead) && PaidAt(c, cfg.wallet, h, b) ==>
                Conclusive(w.rpc(h), safeHead) ==> h in after
  {
    hide InsertAll, Answering, IndexBehind, Sells, TierOf, Conclusive, HonestWorld;
    InsertAllFacts(before, p.claim.sightings, id, now);
    forall h | h in after && h !in before
      ensures RowDecided(after[h], h, w.index, cfg.wallet, tiers, w.holding(h), w.used(h))
    {
      var i :| 0 <= i < |p.claim.sightings| && p.claim.sightings[i].hash == h &&
               after[h] == FreshRow(p.claim.sightings[i], id + i, now);
      var s := p.claim.sightings[i];
      assert s in p.claim.sightings;
      assert Decided(s, w.index, cfg.wallet, tiers, w.holding(h), w.used(h));
      assert Proven(s, c, cfg.wallet, Settled(c, cfg.confirmations), tiers);
    }
  }

  /* ----------------------------------------------------------- fast forward */

  const FAST_FORWARD_PAGES: nat := 50

  /** The operator's own calls run without a deadline. */
  function NoDeadline(x: Index): (y: Index)
    ensures (forall page: nat :: !y.late(page)) && y == x.(late := y.late)
  {
    x.(late := (page: nat) => false)
  }

  /**
   * Move the cursor over ground the index shows to be empty. Every doubt is a
   * refusal, and with an honest index one payment in the range is enough doubt.
   */
  method FastForward(t: PaymentTable, cfg: Config, c: Blocks, x: Index, head: nat, toBlock: nat, balance: nat,
                     ghost tiers: Table)
    returns (moved: bool)
    requires Sane(cfg) && WellFormed(c) && head < |c| && x.pages != []
    requires t.cursor.Some? ==> t.cursor.value >= -1
    modifies t`cursor
    ensures !moved ==> t.cursor == old(t.cursor)
    ensures moved ==>
              old(t.cursor).Some? && old(t.cursor).value < toBlock <= SafeHead(head, cfg.confirmations) &&
              t.cursor == Some(toBlock)
    ensures moved && HonestIndex(x, c, cfg.wallet, old(t.cursor).value + 1, toBlock) ==>
              Holds(Claim(false, old(t.cursor).value + 1, Some(toBlock), []), c, cfg, tiers)
    ensures moved && HonestIndex(x, c, cfg.wallet, old(t.cursor).value + 1, toBlock) ==>
              forall h, b :: old(t.cursor).value < b <= toBlock ==> !PaidAt(c, cfg.wallet, h, b)
    ensures moved ==> !(balance > 0 && t.rows == map[])
    ensures MayMove(old(t.cursor), cfg, x, head, toBlock) && !(balance > 0 && t.rows == map[]) && toBlock < |c|
              && HonestIndex(x, c, cfg.wallet, old(t.cursor).value + 1, toBlock)
              && NothingSent(c, cfg.wallet, old(t.cursor).value + 1, toBlock) ==>
              moved
  {
    hide Refines, HonestRanged, HonestPaged, FromHistory, FromRanged, WellFormed, KeepsPages, RestsOn, Ascends,
         NothingSent,
         V1Ends, V2Ends, V1Throws, V2Throws;
    var safeHead := SafeHead(head, cfg.confirmations);
    if t.cursor.None? || toBlock <= t.cursor.value || toBlock > safeHead { return false; }
    if x.height.None? || x.height.value < toBlock { return false; }
    SafeHeadGrows(c, cfg, head);
    var from: nat := t.cursor.value + 1;
    HonestWithoutDeadline(x, c, cfg.wallet, from, toBlock);
    var walk := WalkAddressV2(NoDeadline(x), cfg.wallet, from, toBlock, FAST_FORWARD_PAGES, c);
    if walk.None? {
      walk := WalkTxlist(NoDeadline(x), cfg.wallet, from, toBlock, cfg.pageSize, FAST_FORWARD_PAGES, c);
    }
    if walk.Some? && walk.value.complete
       && HonestIndex(x, c, cfg.wallet, from, toBlock) && NothingSent(c, cfg.wallet, from, toBlock) {
      QuietWalkIsEmpty(walk.value, x, c, cfg.wallet, from, toBlock);
    }
    if walk.None? || !walk.value.complete || walk.value.transfers != [] { return false; }
    EmptyWalkIsEmpty(walk.value, x, c, cfg.wallet, from, toBlock);
    if balance > 0 && t.rows == map[] { return false; }
    t.SetCursor(toBlock);
    moved := true;
  }

  /** Everything an operator can check beforehand, and an index that answers for the whole range. */
  ghost predicate MayMove(cursor: Option<int>, cfg: Config, x: Index, head: nat, toBlock: nat) {
    && cursor.Some? && cursor.value < toBlock <= SafeHead(head, cfg.confirmations)
    && x.height.Some? && x.height.value >= toBlock && cursor.value >= -1
    && var y, from := NoDeadline(x), cursor.value + 1;
    && (V2Ends(y, from, FAST_FORWARD_PAGES) ||
        (V2Throws(y, from, FAST_FORWARD_PAGES) && V1Ends(y, cfg.pageSize, FAST_FORWARD_PAGES)))
  }

  /** No transaction at all to the wallet, failed ones included. */
  ghost predicate NothingSent(c: Blocks, wallet: Address, from: int, to: int) {
    forall h, b, ok :: from <= b <= to && At(c, h, b, ok) ==> h.to != Some(wallet)
  }

  lemma HonestWithoutDeadline(x: Index, c: Blocks, wallet: Address, from: nat, to: int)
    requires to < |c|
    ensures HonestPaged(NoDeadline(x), c, wallet, from, to) <==> HonestPaged(x, c, wallet, from, to)
    ensures HonestRanged(NoDeadline(x), c, wallet, from, to) <==> HonestRanged(x, c, wallet, from, to)
    ensures forall ts :: FromHistory(ts, NoDeadline(x), from, to) <==> FromHistory(ts, x, from, to)
    ensures forall ts :: FromRanged(ts, NoDeadline(x)) <==> FromRanged(ts, x)
  {
  }

  /** Over quiet ground an honest index lists nothing. */
  lemma QuietWalkIsEmpty(walk: Walk, x: Index, c: Blocks, wallet: Address, from: nat, to: int)
    requires from <= to < |c| && x.height.Some? && x.height.value >= to
    requires HonestIndex(x, c, wallet, from, to) && NothingSent(c, wallet, from, to)
    requires HonestPaged(x, c, wallet, from, to) && HonestRanged(x, c, wallet, from, to) ==>
              Refines(walk, c, wallet, from, to)
    requires FromHistory(walk.transfers, x, from, to) || FromRanged(walk.transfers, x)
    requires walk.complete && walk.coveredTo == to
    ensures walk.transfers == []
  {
    if walk.transfers != [] {
      var e := walk.transfers[0];
      assert e in walk.transfers;
      if Some(e) in x.ranged {
        var i :| 0 <= i < |x.ranged| && x.ranged[i] == Some(e);
        assert e.block <= to;
      }
      hide HonestRanged, HonestPaged, FromHistory, FromRanged, NaiveScan, Flatten;
      var kept := Filter(walk.transfers, EntryUpTo(to));
      assert EntryUpTo(to)(e) && e in kept;
      var k :| 0 <= k < |kept| && kept[k] == e;
      var s := Sighted(e.hash, e.block);
      assert Map(kept, SightedOf())[k] == s && s in multiset(Map(kept, SightedOf()));
      assert s in multiset(NaiveScan(c, wallet, from, to));
      NaiveScanMembers(c, wallet, from, to, s);
      assert false;
    }
  }

  lemma EmptyWalkIsEmpty(walk: Walk, x: Index, c: Blocks, wallet: Address, from: nat, to: int)
    requires from <= to < |c| && x.height.Some? && x.height.value >= to
    requires HonestPaged(x, c, wallet, from, to) && HonestRanged(x, c, wallet, from, to) ==>
              Refines(walk, c, wallet, from, to)
    requires walk.complete && walk.coveredTo == to && walk.transfers == []
    ensures HonestIndex(x, c, wallet, from, to) ==> forall h, b :: from <= b <= to ==> !PaidAt(c, wallet, h, b)
  {
    if HonestIndex(x, c, wallet, from, to) {
      ExactWalkCovers(walk, c, wallet, from, to);
    }
  }

  /* --------------------------------------------------------------- adoption */

  /** One payment by hash: the chain is asked, and the same verification applies. The cursor does not move. */
  method AdoptPayment(t: PaymentTable, cfg: Config, tiers: Table, c: Blocks, head: nat, h: Hash, first: RpcAnswer,
                      a: RpcAnswer,
                      holding: Option<nat>, used: nat, now: int)
    returns (s: Option<Sighting>)
    requires WellFormed(c) && head < |c|
    modifies t
    ensures t.cursor == old(t.cursor)
    ensures s.None? ==> t.rows == old(t.rows)
    ensures s.Some? ==> s.value.hash == h && t.rows == InsertAll(old(t.rows), [s.value], old(t.nextId), now)
    ensures s.Some? && HonestRpc(a, h, c, Settled(c, cfg.confirmations)) ==>
              Proven(s.value, c, cfg.wallet, Settled(c, cfg.confirmations), tiers)
    ensures forall b :: b <= SafeHead(head, cfg.confirmations) && PaidAt(c, cfg.wallet, h, b) ==>
              Visible(first, a, h, c, cfg) ==> s.Some?
    ensures s.Some? && h !in old(t.rows) && HonestRpc(first, h, c, Settled(c, cfg.confirmations))
              && HonestRpc(a, h, c, Settled(c, cfg.confirmations)) ==>
              h in t.rows && RowSettled(t.rows[h], h, cfg.wallet, tiers, holding, used)
  {
    var safeHead := SafeHead(head, cfg.confirmations);
    SafeHeadGrows(c, cfg, head);
    if first.Down? || first.tx.None? || first.tx.value.block.None? || a.Down? { return None; }
    var tx := first.tx.value;
    var candidate := Entry(h, tx.from, tx.to, tx.value, tx.block.value, true);
    var v := Verify(candidate, a.tx, a.receipt, tiers, cfg.wallet, safeHead, holding, used);
    if HonestRpc(a, h, c, Settled(c, cfg.confirmations)) {
      VerifyTellsTheTruth(candidate, a, tiers, cfg.wallet, safeHead, holding, used, c, Settled(c, cfg.confirmations));
    }
    if !v.Payment? { return None; }
    var inserted := t.RecordSeen(v.s, now);
    assert [v.s][..0] == [];
    assert t.rows == InsertAll(old(t.rows), [v.s], old(t.nextId), now);
    s := Some(v.s);
  }

  /** Both reads are honest, and know the transaction, its block and one consistent receipt. */
  ghost predicate Visible(first: RpcAnswer, a: RpcAnswer, h: Hash, c: Blocks, cfg: Config) {
    && HonestRpc(first, h, c, Settled(c, cfg.confirmations)) && HonestRpc(a, h, c, Settled(c, cfg.confirmations))
    && Informed(first) && Informed(a) && a.receipt.value.block == a.tx.value.block.value
  }

  /** The RPC knows the transaction, its block and its receipt. */
  predicate Informed(a: RpcAnswer) {
    a.Answered? && a.tx.Some? && a.tx.value.block.Some? && a.receipt.Some?
  }

  /* ------------------------------------------------------------------ audit */

  /** Index rows worth auditing: they carried money, and the index says they succeeded. */
  function CarriedMoney(): Entry -> bool {
    (e: Entry) => e.value > 0 && e.succeeded
  }

  /** The index tells the truth about value and outcome too. */
  ghost predicate HonestClaims(x: Index, c: Blocks) {
    forall e :: Some(e) in Flatten(x.pages) ==>
        e.value == e.hash.value && (At(c, e.hash, e.block, true) ==> e.succeeded)
  }

  /** Tables only grow, and only by rows proved against the chain. */
  ghost predicate GrowsProven(before: Rows, after: Rows, c: Blocks, cfg: Config, tiers: Table) {
    && (forall h :: h in before ==> h in after && after[h] == before[h])
    && (forall h :: h in after && h !in before ==>
          exists s: Sighting, id, at :: s.hash == h && after[h] == FreshRow(s, id, at) &&
                                        Proven(s, c, cfg.wallet, Settled(c, cfg.confirmations), tiers))
  }

  lemma GrowsOne(before: Rows, mid: Rows, after: Rows, s: Sighting, id: nat, now: int, c: Blocks, cfg: Config,
                 tiers: Table)
    requires GrowsProven(before, mid, c, cfg, tiers) && after == InsertAll(mid, [s], id, now)
    requires Proven(s, c, cfg.wallet, Settled(c, cfg.confirmations), tiers)
    ensures GrowsProven(before, after, c, cfg, tiers) && s.hash in after
  {
    assert [s][..0] == [];
    assert InsertAll(mid, [], id, now) == mid;
    assert after == if s.hash in mid then mid else mid[s.hash := FreshRow(s, id, now)];
  }

  /** Every row added is queued exactly if the shop sells for it. */
  ghost predicate AllSettled(before: Rows, after: Rows, wallet: Address, tiers: Table, holding: Hash -> Option<nat>,
                             used: Hash -> nat) {
    forall h :: h in after && h !in before ==> RowSettled(after[h], h, wallet, tiers, holding(h), used(h))
  }

  /** Nobody lies about a final transaction. */
  ghost predicate HonestChain(rpc: Hash -> RpcAnswer, c: Blocks, cfg: Config) {
    forall h :: HonestRpc(rpc(h), h, c, Settled(c, cfg.confirmations))
  }

  /**
   * Compare a window of the wallet's history with the table, and adopt what is
   * missing. It closes every hole in the window when index and RPC answer for it,
   * and is thrown out only by one of them failing.
   */
  method AuditPayments(t: PaymentTable, cfg: Config, tiers: Table, c: Blocks, x: Index, head: nat, window: nat,
                       rpc: Hash -> RpcAnswer, holding: Hash -> Option<nat>, used: Hash -> nat, now: int)
    returns (finished: bool)
    requires WellFormed(c) && head < |c| && x.pages != []
    modifies t
    ensures t.cursor == old(t.cursor)
    ensures HonestChain(rpc, c, cfg) ==>
              GrowsProven(old(t.rows), t.rows, c, cfg, tiers) &&
              AllSettled(old(t.rows), t.rows, cfg.wallet, tiers, holding, used)
    ensures finished && AuditSees(x, c, cfg, head, window, rpc) ==>
              MoneyRecorded(t.rows, c, cfg.wallet, AuditFrom(cfg, head, window), SafeHead(head, cfg.confirmations))
    ensures V2Throws(NoDeadline(x), AuditFrom(cfg, head, window), cfg.maxPages) ==> !finished && t.rows == old(t.rows)
    ensures !finished ==>
              V2Throws(NoDeadline(x), AuditFrom(cfg, head, window), cfg.maxPages) ||
              exists e :: Some(e) in Flatten(x.pages) && e.value > 0 && e.succeeded && rpc(e.hash).Down?
    ensures finished ==>
              LookedAt(x, old(t.rows), cfg, AuditFrom(cfg, head, window), SafeHead(head, cfg.confirmations), rpc)
    ensures forall h :: h in t.rows && h !in old(t.rows) ==> MoneyListed(x, h)
  {
    hide MoneyListed, LookedAt, V2Ends, V2Throws, AuditSees, Filter, KeepsRange, CarriedMoney, Refines, HonestPaged,
         FromHistory, KeepsPages, Ascends, HonestChain, GrowsProven, AllSettled, CanAdopt, MoneyRecorded, Visible,
         Proven, InsertAll, HonestRpc, RowSettled;
    SafeHeadGrows(c, cfg, head);
    var safeHead := SafeHead(head, cfg.confirmations);
    var from := AuditFrom(cfg, head, window);
    HonestWithoutDeadline(x, c, cfg.wallet, from, safeHead);
    var walk := WalkAddressV2(NoDeadline(x), cfg.wallet, from, safeHead, cfg.maxPages, c);
    if walk.None? {
      NothingGrown(t.rows, c, cfg, tiers, holding, used);
      return false;
    }
    var candidates := Filter(walk.value.transfers, CarriedMoney());
    NothingGrown(t.rows, c, cfg, tiers, holding, used);
    for i := 0 to |candidates|
      invariant t.cursor == old(t.cursor)
      invariant HonestChain(rpc, c, cfg) ==>
                  GrowsProven(old(t.rows), t.rows, c, cfg, tiers) &&
                  AllSettled(old(t.rows), t.rows, cfg.wallet, tiers, holding, used)
      invariant forall k :: 0 <= k < i && CanAdopt(rpc, candidates[k].hash, c, cfg, head) ==>
                  candidates[k].hash in t.rows
      invariant forall k :: 0 <= k < i ==> candidates[k].hash in old(t.rows) || rpc(candidates[k].hash).Answered?
      invariant forall h :: h in t.rows && h !in old(t.rows) ==> MoneyListed(x, h) && rpc(h).Answered?
    {
      CandidateCarried(walk.value.transfers, candidates[i], x, from, safeHead);
      var asked := AuditOne(t, cfg, tiers, c, head, candidates[i].hash, rpc, holding, used, now, old(t.rows));
      if !asked { return false; }
    }
    AllLookedAt(walk.value, candidates, old(t.rows), x, cfg, from, safeHead, rpc);
    if AuditSees(x, c, cfg, head, window, rpc) {
      AuditEnds(walk.value, candidates, t.rows, x, c, cfg, head, window, rpc);
    }
    finished := true;
  }

  /** One candidate: held already, or adopted, or the chain could not be asked. */
  method AuditOne(t: PaymentTable, cfg: Config, tiers: Table, c: Blocks, head: nat, h: Hash, rpc: Hash -> RpcAnswer,
                  holding: Hash -> Option<nat>, used: Hash -> nat, now: int, ghost start: Rows)
    returns (asked: bool)
    requires WellFormed(c) && head < |c|
    requires HonestChain(rpc, c, cfg) ==>
               GrowsProven(start, t.rows, c, cfg, tiers) && AllSettled(start, t.rows, cfg.wallet, tiers, holding, used)
    modifies t
    ensures t.cursor == old(t.cursor)
    ensures HonestChain(rpc, c, cfg) ==>
              GrowsProven(start, t.rows, c, cfg, tiers) && AllSettled(start, t.rows, cfg.wallet, tiers, holding, used)
    ensures asked <==> h in old(t.rows) || rpc(h).Answered?
    ensures asked && CanAdopt(rpc, h, c, cfg, head) ==> h in t.rows
    ensures forall k :: k in old(t.rows) ==> k in t.rows
    ensures forall k :: k in t.rows && k !in old(t.rows) ==> k == h && rpc(h).Answered?
  {
    hide HonestChain, GrowsProven, AllSettled, CanAdopt, Visible, Proven, InsertAll, HonestRpc, RowSettled;
    if h in t.rows { return true; }
    if rpc(h).Down? { return false; }
    ghost var mid, id := t.rows, t.nextId;
    var s := AdoptPayment(t, cfg, tiers, c, head, h, rpc(h), rpc(h), holding(h), used(h), now);
    AdoptedOne(start, mid, t.rows, s, h, id, now, rpc, c, cfg, tiers, holding, used, head);
    if s.Some? { InsertAllFacts(mid, [s.value], id, now); }
    asked := true;
  }

  lemma NothingGrown(rows: Rows, c: Blocks, cfg: Config, tiers: Table, holding: Hash -> Option<nat>, used: Hash -> nat)
    ensures GrowsProven(rows, rows, c, cfg, tiers) && AllSettled(rows, rows, cfg.wallet, tiers, holding, used)
  {
  }

  lemma CandidateCarried(transfers: seq<Entry>, e: Entry, x: Index, from: int, to: int)
    requires FromHistory(transfers, x, from, to) && e in Filter(transfers, CarriedMoney())
    ensures Some(e) in Flatten(x.pages) && e.value > 0 && e.succeeded && MoneyListed(x, e.hash)
  {
  }

  /** By the index's account, money that reached the wallet in that range. */
  predicate HasMoney(e: Entry, wallet: Address, from: int, to: int) {
    e.to == Some(wallet) && from <= e.block <= to && e.value > 0 && e.succeeded
  }

  /** The index lists the payment, with money in it. */
  ghost predicate MoneyListed(x: Index, h: Hash) {
    exists e :: Some(e) in Flatten(x.pages) && e.hash == h && e.value > 0 && e.succeeded
  }

  /**
   * Of a history in order that could be read to the end of the window, every payment with money
   * was in the table already, or the chain was asked about it and answered.
   */
  ghost predicate LookedAt(x: Index, rows: Rows, cfg: Config, from: int, to: int, rpc: Hash -> RpcAnswer) {
    Descending(Flatten(x.pages)) && V2Ends(NoDeadline(x), from, cfg.maxPages) ==>
      forall e :: Some(e) in Flatten(x.pages) && HasMoney(e, cfg.wallet, from, to) ==>
        e.hash in rows || rpc(e.hash).Answered?
  }

  lemma AllLookedAt(walk: Walk, candidates: seq<Entry>, rows: Rows, x: Index, cfg: Config, from: nat, to: int,
                    rpc: Hash -> RpcAnswer)
    requires candidates == Filter(walk.transfers, CarriedMoney())
    requires walk.complete <==> V2Ends(NoDeadline(x), from, cfg.maxPages)
    requires walk.complete ==> KeepsRange(walk, NoDeadline(x), cfg.wallet, from, to)
    requires forall k :: 0 <= k < |candidates| ==> candidates[k].hash in rows || rpc(candidates[k].hash).Answered?
    ensures LookedAt(x, rows, cfg, from, to, rpc)
  {
    hide V2Ends;
    if Descending(Flatten(x.pages)) && walk.complete {
      forall e | Some(e) in Flatten(x.pages) && HasMoney(e, cfg.wallet, from, to)
        ensures e.hash in rows || rpc(e.hash).Answered?
      {
        assert CarriedMoney()(e) && e in candidates;
        var k :| 0 <= k < |candidates| && candidates[k] == e;
      }
    }
  }

  /** One adoption inside the audit: the table grows by a proven, rightly decided row, or not at all. */
  lemma AdoptedOne(start: Rows, mid: Rows, after: Rows, s: Option<Sighting>, h: Hash, id: nat, now: int,
                   rpc: Hash -> RpcAnswer,
                   c: Blocks, cfg: Config, tiers: Table, holding: Hash -> Option<nat>, used: Hash -> nat, head: nat)
    requires h !in mid && (s.None? ==> after == mid)
    requires s.Some? ==> s.value.hash == h && after == InsertAll(mid, [s.value], id, now)
    requires s.Some? && HonestRpc(rpc(h), h, c, Settled(c, cfg.confirmations)) ==>
               && Proven(s.value, c, cfg.wallet, Settled(c, cfg.confirmations), tiers)
               && h in after && RowSettled(after[h], h, cfg.wallet, tiers, holding(h), used(h))
    requires HonestChain(rpc, c, cfg) ==>
               GrowsProven(start, mid, c, cfg, tiers) && AllSettled(start, mid, cfg.wallet, tiers, holding, used)
    requires forall b :: b <= SafeHead(head, cfg.confirmations) && PaidAt(c, cfg.wallet, h, b) ==>
               Visible(rpc(h), rpc(h), h, c, cfg) ==> s.Some?
    ensures HonestChain(rpc, c, cfg) ==>
              GrowsProven(start, after, c, cfg, tiers) && AllSettled(start, after, cfg.wallet, tiers, holding, used)
    ensures CanAdopt(rpc, h, c, cfg, head) ==> h in after
  {
    hide Proven, HonestRpc, RowSettled, GrowsProven, Visible;
    if s.Some? {
      assert [s.value][..0] == [];
      assert InsertAll(mid, [], id, now) == mid;
      assert after == mid[h := FreshRow(s.value, id, now)];
      if HonestChain(rpc, c, cfg) { GrowsOne(start, mid, after, s.value, id, now, c, cfg, tiers); }
    }
  }

  lemma AuditEnds(walk: Walk, candidates: seq<Entry>, rows: Rows, x: Index, c: Blocks, cfg: Config, head: nat,
                  window: nat,
                  rpc: Hash -> RpcAnswer)
    requires WellFormed(c) && head < |c| && AuditSees(x, c, cfg, head, window, rpc)
    requires 0 <= SafeHead(head, cfg.confirmations) < |c| && candidates == Filter(walk.transfers, CarriedMoney())
    requires var from, safeHead := AuditFrom(cfg, head, window), SafeHead(head, cfg.confirmations);
             && (HonestPaged(x, c, cfg.wallet, from, safeHead) ==> Refines(walk, c, cfg.wallet, from, safeHead))
             && walk.coveredTo == (if walk.complete then safeHead else from - 1)
             && (walk.complete <==> V2Ends(NoDeadline(x), from, cfg.maxPages))
             && FromHistory(walk.transfers, x, from, safeHead)
    requires forall k :: 0 <= k < |candidates| && CanAdopt(rpc, candidates[k].hash, c, cfg, head) ==>
              candidates[k].hash in rows
    ensures MoneyRecorded(rows, c, cfg.wallet, AuditFrom(cfg, head, window), SafeHead(head, cfg.confirmations))
  {
    hide Refines, HonestPaged, FromHistory, V2Ends, CanAdopt, MoneyRecorded, HonestClaims;
    AuditFinds(walk, candidates, rows, x, c, cfg, head, window, rpc);
  }

  function AuditFrom(cfg: Config, head: nat, window: nat): (from: nat)
    ensures var safeHead := SafeHead(head, cfg.confirmations);
            from <= safeHead <= from + window && (safeHead == from + window || from == 0)
  {
    var safeHead := SafeHead(head, cfg.confirmations);
    if safeHead > window then safeHead - window else 0
  }

  ghost predicate MoneyRecorded(rows: Rows, c: Blocks, wallet: Address, from: int, to: int) {
    forall h, b :: from <= b <= to && PaidAt(c, wallet, h, b) && h.value > 0 ==> h in rows
  }

  /** Reading this hash now would let it be adopted. */
  ghost predicate CanAdopt(rpc: Hash -> RpcAnswer, h: Hash, c: Blocks, cfg: Config, head: nat) {
    && Visible(rpc(h), rpc(h), h, c, cfg)
    && exists b :: b <= SafeHead(head, cfg.confirmations) && PaidAt(c, cfg.wallet, h, b)
  }

  /** The index answers for the window and tells the truth; the RPC knows every final payment. */
  ghost predicate AuditSees(x: Index, c: Blocks, cfg: Config, head: nat, window: nat, rpc: Hash -> RpcAnswer)
    requires |c| > head
  {
    var safeHead := SafeHead(head, cfg.confirmations);
    && HonestClaims(x, c)
    && (safeHead < |c| ==> HonestPaged(x, c, cfg.wallet, AuditFrom(cfg, head, window), safeHead))
    && V2Ends(NoDeadline(x), AuditFrom(cfg, head, window), cfg.maxPages)
    && forall h, b :: PaidAt(c, cfg.wallet, h, b) && b <= safeHead ==> Visible(rpc(h), rpc(h), h, c, cfg)
  }

  lemma AuditFinds(walk: Walk, candidates: seq<Entry>, rows: Rows, x: Index, c: Blocks, cfg: Config, head: nat,
                   window: nat, rpc: Hash -> RpcAnswer)
    requires WellFormed(c) && head < |c| && AuditSees(x, c, cfg, head, window, rpc)
    requires 0 <= SafeHead(head, cfg.confirmations) < |c|
    requires Refines(walk, c, cfg.wallet, AuditFrom(cfg, head, window), SafeHead(head, cfg.confirmations))
    requires walk.coveredTo == SafeHead(head, cfg.confirmations)
    requires FromHistory(walk.transfers, x, AuditFrom(cfg, head, window), SafeHead(head, cfg.confirmations))
    requires candidates == Filter(walk.transfers, CarriedMoney())
    requires forall k :: 0 <= k < |candidates| && CanAdopt(rpc, candidates[k].hash, c, cfg, head) ==>
              candidates[k].hash in rows
    ensures MoneyRecorded(rows, c, cfg.wallet, AuditFrom(cfg, head, window), SafeHead(head, cfg.confirmations))
  {
    var from, safeHead := AuditFrom(cfg, head, window), SafeHead(head, cfg.confirmations);
    ExactWalkCovers(walk, c, cfg.wallet, from, safeHead);
    hide Refines, HonestPaged, V2Ends, SafeHead, AuditFrom;
    forall h, b | from <= b <= safeHead && PaidAt(c, cfg.wallet, h, b) && h.value > 0 ensures h in rows {
      var e :| e in walk.transfers && e.hash == h && e.block == b;
      WorthAuditing(e, walk.transfers, x, c, cfg.wallet, from, safeHead);
      assert CanAdopt(rpc, h, c, cfg, head);
    }
  }

  /** An honest index lists a payment among the rows worth auditing. */
  lemma WorthAuditing(e: Entry, transfers: seq<Entry>, x: Index, c: Blocks, wallet: Address, from: nat, to: int)
    requires HonestClaims(x, c) && FromHistory(transfers, x, from, to)
    requires e in transfers && PaidAt(c, wallet, e.hash, e.block) && e.hash.value > 0
    ensures e in Filter(transfers, CarriedMoney())
  {
    assert CarriedMoney()(e);
  }
}
