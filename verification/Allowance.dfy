/**
 * The per-tier allowance, enforced off chain (lib/tiers.ts, lib/mintRelay.ts).
 * Admission may let any number of payments in at once; the relay's sequential
 * re-check is what keeps the count of nodes within the allowance.
 */
module Allowance {
  import opened Wrappers
  import opened Chain
  import opened Selection
  import opened Tiers
  import opened Payments
  import opened Watcher
  import opened RelayState

  /** Payments of one wallet and tier that have not been refused: minted, in flight, or retrying. */
  function UsageSet(rows: Rows, owner: Address, tier: TierId): set<Hash> {
    set h | h in rows && rows[h].from == owner && TierById(rows[h].tier) == tier &&
            (Queued(rows[h]) || rows[h].status == Minted)
  }

  function TierUsage(rows: Rows, owner: Address, tier: TierId): nat {
    |UsageSet(rows, owner, tier)|
  }

  /** Of those, the ones that have a node, or whose mint was sent and may still land. */
  ghost function Committed(s: Sys, owner: Address, tier: TierId): set<Hash> {
    set h | h in UsageSet(s.rows, owner, tier) && (s.rows[h].status == Minted || RefLive(s, h))
  }

  ghost predicate WithinAllowance(s: Sys, shop: Shop) {
    forall owner, tier :: |Committed(s, owner, tier)| <= shop.tiers.Get(tier).maxPerWallet
  }

  function MintedSet(rows: Rows, owner: Address, tier: TierId): set<Hash> {
    set h | h in rows && rows[h].from == owner && TierById(rows[h].tier) == tier && rows[h].status == Minted
  }

  /** Within the allowance, no wallet has more minted payments of a tier than the tier allows. */
  lemma MintedWithinAllowance(s: Sys, shop: Shop, owner: Address, tier: TierId)
    requires WithinAllowance(s, shop)
    ensures |MintedSet(s.rows, owner, tier)| <= shop.tiers.Get(tier).maxPerWallet
  {
    SubsetSize(MintedSet(s.rows, owner, tier), Committed(s, owner, tier));
  }

  /* ------------------------------------------------ what statements may add */

  ghost predicate AddsNothing(s: Sys, s': Sys) {
    forall owner, tier :: Committed(s', owner, tier) <= Committed(s, owner, tier)
  }

  lemma NothingAddedKeeps(s: Sys, s': Sys, shop: Shop)
    requires WithinAllowance(s, shop) && AddsNothing(s, s')
    ensures WithinAllowance(s', shop)
  {
    forall owner, tier ensures |Committed(s', owner, tier)| <= shop.tiers.Get(tier).maxPerWallet {
      SubsetSize(Committed(s', owner, tier), Committed(s, owner, tier));
    }
  }

  /** No queue statement adds a commitment, except a requeue of a parked row whose mint exists. */
  lemma UpdateAddsNothing(s: Sys, shop: Shop, h: Hash, op: RowOp, now: int)
    requires h in s.rows && Serialised(s.rows[h], op)
    requires op.MarkMinted? ==> RefLive(s, h)
    requires op.SetTier? && RefLive(s, h) ==> s.rows[h].tier == Some(op.tier)
    requires op.Requeue? && RefLive(s, h) ==>
              op.verdict.tier == s.rows[h].tier && (s.rows[h].status == ManualReview ==> !op.verdict.seen)
    ensures AddsNothing(s, Updated(s, h, op, now))
  {
    var s' := Updated(s, h, op, now);
    forall owner, tier, k | k in Committed(s', owner, tier) ensures k in Committed(s, owner, tier) {
      assert RefLive(s', k) <==> RefLive(s, k);
    }
  }

  lemma UpdateAllAddsNothing(s: Sys, hs: set<Hash>, op: RowOp, now: int)
    requires op.ClaimRow? || op.RequeueStuck?
    ensures AddsNothing(s, s.(rows := ApplyAll(s.rows, hs, op, now)))
  {
    var s' := s.(rows := ApplyAll(s.rows, hs, op, now));
    forall owner, tier, k | k in Committed(s', owner, tier) ensures k in Committed(s, owner, tier) {
      assert RefLive(s', k) <==> RefLive(s, k);
    }
  }

  lemma NewRowAddsNothing(s: Sys, shop: Shop, h: Hash, row: Row)
    requires Inv(s, shop) && h !in s.rows && row.status != Minted
    ensures AddsNothing(s, s.(rows := s.rows[h := row]))
  {
    var s' := s.(rows := s.rows[h := row]);
    forall owner, tier, k | k in Committed(s', owner, tier) ensures k in Committed(s, owner, tier) {
      assert RefLive(s', k) <==> RefLive(s, k);
      if k == h { LiveIsBacked(s, shop, h); }
    }
  }

  /** Statements about nodes, timers and confirmations leave payments and mints alone. */
  lemma SameRowsAddNothing(s: Sys, s': Sys)
    requires s'.rows == s.rows && forall h :: RefLive(s', h) ==> RefLive(s, h)
    ensures AddsNothing(s, s')
  {
  }

  /**
   * The relay's check before sending: this payment is itself counted in the usage,
   * so one less than the usage must still be below the allowance.
   */
  lemma CheckedSendStaysWithin(s: Sys, shop: Shop, h: Hash)
    requires WithinAllowance(s, shop) && h in s.rows && Queued(s.rows[h])
    requires TierUsage(s.rows, s.rows[h].from, TierById(s.rows[h].tier)) - 1
           < shop.tiers.Get(TierById(s.rows[h].tier)).maxPerWallet
    ensures WithinAllowance(Sent(s, Mint(h.from, h)), shop)
  {
    var s' := Sent(s, Mint(h.from, h));
    var w, t := s.rows[h].from, TierById(s.rows[h].tier);
    forall owner, tier ensures |Committed(s', owner, tier)| <= shop.tiers.Get(tier).maxPerWallet {
      if owner == w && tier == t {
        SubsetSize(Committed(s', w, t), UsageSet(s.rows, w, t));
      } else {
        forall k | k in Committed(s', owner, tier) ensures k in Committed(s, owner, tier) {
          assert k != h;
          assert RefLive(s', k) ==> RefLive(s, k);
        }
        SubsetSize(Committed(s', owner, tier), Committed(s, owner, tier));
      }
    }
  }

  /** The usage a fresh decision about this payment reads: its wallet's, in the tier its amount names. */
  function UsageRead(rows: Rows, h: Hash, tiers: Table): nat {
    var tier := TierForAmount(h.value, tiers);
    if tier.None? then 0 else TierUsage(rows, h.from, tier.value)
  }

  /**
   * An operator may requeue anything. A parked payment is not in the usage its own
   * decision reads, so a verdict to queue it means a slot is free, also when its node
   * exists already or its mint may still land.
   */
  lemma RequeueKeepsAllowance(s: Sys, shop: Shop, h: Hash, holding: Option<nat>, now: int)
    requires Inv(s, shop) && Priced(shop.tiers) && WithinAllowance(s, shop) && h in s.rows
    ensures var v := Decide(h.value, h.from, shop.wallet, shop.tiers, holding, UsageRead(s.rows, h, shop.tiers));
            WithinAllowance(Updated(s, h, Requeue(v), now), shop)
  {
    hide Inv, WithinAllowance;
    var v := Decide(h.value, h.from, shop.wallet, shop.tiers, holding, UsageRead(s.rows, h, shop.tiers));
    DecideQueuesOnlySales(h, shop.wallet, shop.tiers, holding, UsageRead(s.rows, h, shop.tiers));
    if RefLive(s, h) {
      LiveIsBacked(s, shop, h);
      DecideNamesTier(h, shop, holding, UsageRead(s.rows, h, shop.tiers));
    }
    if RefLive(s, h) && s.rows[h].status == ManualReview && v.seen {
      SubsetSize(Committed(s, h.from, v.tier.value), UsageSet(s.rows, h.from, v.tier.value));
      RequeueOfMintedTakesASlot(s, shop, h, v, now);
    } else {
      UpdateAddsNothing(s, shop, h, Requeue(v), now);
      NothingAddedKeeps(s, Updated(s, h, Requeue(v), now), shop);
    }
  }

  /**
   * Why the decision has to be fresh: on a verdict from elsewhere, requeueing a parked
   * payment whose mint exists or may land stays within the allowance if and only if a
   * slot was free.
   */
  lemma RequeueOfMintedTakesASlot(s: Sys, shop: Shop, h: Hash, v: Verdict, now: int)
    requires Inv(s, shop) && WithinAllowance(s, shop)
    requires h in s.rows && s.rows[h].status == ManualReview && RefLive(s, h) && v.seen && v.tier == s.rows[h].tier
    ensures WithinAllowance(Updated(s, h, Requeue(v), now), shop)
       <==> |Committed(s, h.from, TierById(v.tier))| < shop.tiers.Get(TierById(v.tier)).maxPerWallet
  {
    var s' := Updated(s, h, Requeue(v), now);
    var w, t := h.from, TierById(v.tier);
    assert RowOk(s, shop, h);
    forall k ensures RefLive(s', k) <==> RefLive(s, k) { SameRefs(s, s', k); }
    RequeueAddsOne(s, h, v, now);
    assert Committed(s', w, t) == Committed(s, w, t) + {h};
    if |Committed(s, w, t)| < shop.tiers.Get(t).maxPerWallet {
      forall owner, tier ensures |Committed(s', owner, tier)| <= shop.tiers.Get(tier).maxPerWallet {
        if owner != w || tier != t { assert Committed(s', owner, tier) == Committed(s, owner, tier); }
      }
    }
  }

  lemma SameRefs(s: Sys, s': Sys, k: Hash)
    requires s'.minted == s.minted && s'.pending == s.pending
    ensures RefLive(s', k) <==> RefLive(s, k)
  {
  }

  lemma RequeueAddsOne(s: Sys, h: Hash, v: Verdict, now: int)
    requires h in s.rows && s.rows[h].status == ManualReview && RefLive(s, h) && v.seen && v.tier == s.rows[h].tier
    requires forall k :: RefLive(Updated(s, h, Requeue(v), now), k) <==> RefLive(s, k)
    ensures var s' := Updated(s, h, Requeue(v), now);
            forall owner, tier :: h !in Committed(s, owner, tier) && Committed(s', owner, tier) ==
              Committed(s, owner, tier) + if owner == s.rows[h].from && tier == TierById(v.tier) then {h} else {}
  {
  }

  /* ------------------------------------------------- a failure-free sequence */

  /** What a failure-free attempt at an unminted payment does to its row (MintRelay.MintOne). */
  function CleanAttempt(rows: Rows, h: Hash, shop: Shop): Rows
    requires h in rows
  {
    var t := TierById(rows[h].tier);
    var full := TierUsage(rows, rows[h].from, t) - 1 >= shop.tiers.Get(t).maxPerWallet;
    rows[h := rows[h].(status := if full then ManualReview else Minted)]
  }

  function CleanPass(rows: Rows, hs: seq<Hash>, shop: Shop): (r: Rows)
    requires forall h :: h in hs ==> h in rows
    ensures r.Keys == rows.Keys
    ensures forall h :: h in rows && h !in hs ==> r[h] == rows[h]
    ensures forall h :: h in rows ==> r[h].from == rows[h].from && r[h].tier == rows[h].tier
  {
    if hs == [] then rows else
    CleanAttempt(CleanPass(rows, hs[..|hs| - 1], shop), hs[|hs| - 1], shop)
  }

  /** Distinct payments, all still in the queue. */
  ghost predicate Pending(rows: Rows, hs: seq<Hash>) {
    && (forall i, j :: 0 <= i < j < |hs| ==> hs[i] != hs[j])
    && (forall h :: h in hs ==> h in rows && Queued(rows[h]))
  }

  /** How many of these payments are by this wallet for this tier. */
  function CountOf(rows: Rows, hs: seq<Hash>, owner: Address, tier: TierId): nat
    requires forall h :: h in hs ==> h in rows
  {
    if hs == [] then 0 else
    var h := hs[|hs| - 1];
    assert h in hs;
    CountOf(rows, hs[..|hs| - 1], owner, tier)
      + if rows[h].from == owner && TierById(rows[h].tier) == tier then 1 else 0
  }

  /** By how many a wallet's claims on a tier exceed its allowance, if positive. */
  function Over(rows: Rows, owner: Address, tier: TierId, shop: Shop): int {
    TierUsage(rows, owner, tier) - shop.tiers.Get(tier).maxPerWallet
  }

  lemma PendingFront(rows: Rows, hs: seq<Hash>)
    requires Pending(rows, hs) && hs != []
    ensures Pending(rows, hs[..|hs| - 1])
    ensures hs[|hs| - 1] !in hs[..|hs| - 1] && hs[|hs| - 1] in rows && Queued(rows[hs[|hs| - 1]])
  {
    assert hs[|hs| - 1] in hs;
  }

  /** Every refusal frees the slot it was counted in, and refusals stop once the rest fits. */
  lemma {:induction false} CleanPassUsage(rows: Rows, hs: seq<Hash>, shop: Shop, owner: Address, tier: TierId)
    requires Pending(rows, hs)
    ensures TierUsage(CleanPass(rows, hs, shop), owner, tier)
         == TierUsage(rows, owner, tier) - Max(0, Min(Over(rows, owner, tier, shop), CountOf(rows, hs, owner, tier)))
  {
    if hs != [] {
      PendingFront(rows, hs);
      CleanPassUsage(rows, hs[..|hs| - 1], shop, owner, tier);
      CleanAttemptUsage(CleanPass(rows, hs[..|hs| - 1], shop), hs[|hs| - 1], shop, owner, tier);
    }
  }

  lemma CleanAttemptUsage(rows: Rows, h: Hash, shop: Shop, owner: Address, tier: TierId)
    requires h in rows && Queued(rows[h])
    ensures var r := CleanAttempt(rows, h, shop);
            TierUsage(r, owner, tier) == TierUsage(rows, owner, tier)
              - if r[h].status == ManualReview && rows[h].from == owner && TierById(rows[h].tier) == tier then 1 else 0
  {
    var r := CleanAttempt(rows, h, shop);
    if r[h].status == ManualReview && rows[h].from == owner && TierById(rows[h].tier) == tier {
      assert h in UsageSet(rows, owner, tier);
      assert UsageSet(r, owner, tier) == UsageSet(rows, owner, tier) - {h};
    } else {
      assert UsageSet(r, owner, tier) == UsageSet(rows, owner, tier);
    }
  }

  /**
   * Who is refused in a failure-free pass: a payment is parked exactly when fewer
   * payments of its wallet and tier went before it than the wallet is over by. It
   * is the earliest payments that are parked, not the ones over the line.
   */
  lemma {:induction false} CleanPassRefusesTheFirst(rows: Rows, hs: seq<Hash>, shop: Shop, i: nat)
    requires Pending(rows, hs) && i < |hs|
    ensures var row := rows[hs[i]];
            CleanPass(rows, hs, shop)[hs[i]].status ==
              if CountOf(rows, hs[..i], row.from, TierById(row.tier)) < Over(rows, row.from, TierById(row.tier), shop)
              then ManualReview else Minted
  {
    PendingFront(rows, hs);
    if i == |hs| - 1 {
      CleanPassUsage(rows, hs[..i], shop, rows[hs[i]].from, TierById(rows[hs[i]].tier));
    } else {
      assert hs[..|hs| - 1][..i] == hs[..i];
      CleanPassRefusesTheFirst(rows, hs[..|hs| - 1], shop, i);
    }
  }

  /**
   * A failure-free pass over everything a wallet has pending in a tier leaves
   * exactly min(allowance, usage) of its payments un-refused, provided the nodes
   * it already has fit.
   */
  lemma CleanPassFillsTheAllowance(rows: Rows, hs: seq<Hash>, owner: Address, tier: TierId, shop: Shop)
    requires Pending(rows, hs)
    requires forall h :: h in UsageSet(rows, owner, tier) && Queued(rows[h]) ==> h in hs
    requires |MintedSet(rows, owner, tier)| <= shop.tiers.Get(tier).maxPerWallet
    ensures TierUsage(CleanPass(rows, hs, shop), owner, tier)
         == Min(shop.tiers.Get(tier).maxPerWallet, TierUsage(rows, owner, tier))
  {
    CleanPassUsage(rows, hs, shop, owner, tier);
    PendingAndMinted(rows, hs, owner, tier);
  }

  lemma PendingAndMinted(rows: Rows, hs: seq<Hash>, owner: Address, tier: TierId)
    requires Pending(rows, hs)
    requires forall h :: h in UsageSet(rows, owner, tier) && Queued(rows[h]) ==> h in hs
    ensures TierUsage(rows, owner, tier) == CountOf(rows, hs, owner, tier) + |MintedSet(rows, owner, tier)|
  {
    PendingCount(rows, hs, owner, tier);
    var usage, minted := UsageSet(rows, owner, tier), MintedSet(rows, owner, tier);
    var pending := set h | h in hs && h in usage;
    assert usage == pending + minted;
    assert pending !! minted;
  }

  lemma {:induction false} PendingCount(rows: Rows, hs: seq<Hash>, owner: Address, tier: TierId)
    requires Pending(rows, hs)
    ensures CountOf(rows, hs, owner, tier) == |set h | h in hs && h in UsageSet(rows, owner, tier)|
  {
    if hs != [] {
      var front, h := hs[..|hs| - 1], hs[|hs| - 1];
      PendingFront(rows, hs);
      PendingCount(rows, front, owner, tier);
      var was := set k | k in front && k in UsageSet(rows, owner, tier);
      var now := set k | k in hs && k in UsageSet(rows, owner, tier);
      assert now == if h in UsageSet(rows, owner, tier) then was + {h} else was;
    }
  }

  /** Equal in everything the allowance depends on. */
  ghost predicate Agree(a: Rows, b: Rows) {
    && a.Keys == b.Keys
    && forall h :: h in a ==> a[h].from == b[h].from && a[h].tier == b[h].tier && a[h].status == b[h].status
  }

  lemma AgreeOnUsage(a: Rows, b: Rows, owner: Address, tier: TierId)
    requires Agree(a, b)
    ensures TierUsage(a, owner, tier) == TierUsage(b, owner, tier)
  {
    assert UsageSet(a, owner, tier) == UsageSet(b, owner, tier);
  }
}
