/**
 * The sale between payment and node, as one state: the payments queue, the node
 * ledger with its timers, the factory's mints, and mint transactions that were
 * sent and may still land. The invariant here survives every single statement.
 */
module RelayState {
  import opened Wrappers
  import opened Chain
  import opened Selection
  import opened Tiers
  import opened Payments
  import opened Watcher

  /** A mint the factory accepted; ids are positions counted from 1, without gaps. */
  datatype Mint = Mint(owner: Address, ref: Hash)

  datatype NodeRow = NodeRow(owner: Address, price: nat, tier: TierId)

  datatype Shop = Shop(wallet: Address, tiers: Table, basePrice: nat)

  /** `confirmed` holds the final, successful transfers to the payments wallet. */
  datatype Sys = Sys(
    rows: Rows,
    nodes: map<nat, NodeRow>,
    timers: map<nat, int>,
    minted: seq<Mint>,
    pending: set<Mint>,
    confirmed: set<Hash>)

  ghost predicate RefUsed(minted: seq<Mint>, ref: Hash) {
    exists i :: 0 <= i < |minted| && minted[i].ref == ref
  }

  ghost predicate RefLive(s: Sys, ref: Hash) {
    RefUsed(s.minted, ref) || exists m :: m in s.pending && m.ref == ref
  }

  predicate IsNode(s: Sys, id: nat) {
    1 <= id <= |s.minted|
  }

  predicate Queued(row: Row) {
    row.status == Seen || row.status == Minting || row.status == Failed
  }

  /* -------------------------------------------------------------- invariant */

  ghost predicate RowOk(s: Sys, shop: Shop, h: Hash)
    requires h in s.rows
  {
    && s.rows[h].from == h.from && s.rows[h].amount == h.value
    && WellCounted(s.rows[h])
    && (s.rows[h].status != Refunded ==> h in s.confirmed)
    && (Queued(s.rows[h]) ==> h.from != shop.wallet)
  }

  /** A mint, landed or not, stands on a distinct confirmed payment of exactly a tier price, by its owner. */
  ghost predicate Backed(s: Sys, shop: Shop, m: Mint) {
    && m.owner == m.ref.from && m.ref.from != shop.wallet
    && m.ref in s.confirmed && m.ref.to == Some(shop.wallet)
    && TierForAmount(m.ref.value, shop.tiers).Some?
    && m.ref in s.rows && s.rows[m.ref].tier == TierForAmount(m.ref.value, shop.tiers)
  }

  /** The ledger's copy of a node: priced at what was paid, in the tier that amount names. */
  ghost predicate NodeOk(s: Sys, shop: Shop, id: nat)
    requires id in s.nodes
  {
    && IsNode(s, id) && id in s.timers
    && var m := s.minted[id - 1];
    && s.nodes[id].owner == m.owner && s.nodes[id].price == m.ref.value
    && Some(s.nodes[id].tier) == TierForAmount(m.ref.value, shop.tiers)
  }

  /** A finished payment: its own node exists on chain, in the ledger and on a timer. */
  ghost predicate Settled(s: Sys, h: Hash)
    requires h in s.rows
  {
    && s.rows[h].node.Some?
    && var id := s.rows[h].node.value;
    && IsNode(s, id) && s.minted[id - 1].ref == h && id in s.nodes && id in s.timers
  }

  ghost predicate Inv(s: Sys, shop: Shop) {
    && (forall h :: h in s.confirmed ==> h.to == Some(shop.wallet))
    && (forall h :: h in s.rows ==> RowOk(s, shop, h))
    && (forall m :: m in s.pending ==> Backed(s, shop, m))
    && (forall i :: 0 <= i < |s.minted| ==> Backed(s, shop, s.minted[i]))
    && (forall i, j :: 0 <= i < j < |s.minted| ==> s.minted[i].ref != s.minted[j].ref)
    && (forall id :: id in s.nodes ==> NodeOk(s, shop, id))
    && (forall id :: id in s.timers ==> IsNode(s, id))
    && (forall h :: h in s.rows && s.rows[h].status == Minted ==> Settled(s, h))
  }

  /** One payment, one node: refs are distinct, so a payment determines its node. */
  lemma OnePaymentOneNode(s: Sys, shop: Shop, h: Hash, k: Hash)
    requires Inv(s, shop) && h in s.rows && k in s.rows
    requires s.rows[h].status == Minted && s.rows[k].status == Minted
    ensures s.rows[h].node == s.rows[k].node <==> h == k
    ensures forall id :: IsNode(s, id) && s.minted[id - 1].ref == h ==> s.rows[h].node == Some(id)
    ensures var id := s.rows[h].node.value;
            && s.minted[id - 1].owner == h.from && h in s.confirmed
            && s.nodes[id] == NodeRow(h.from, s.rows[h].amount, TierForAmount(h.value, shop.tiers).value)
  {
    hide TierForAmount;
    assert Settled(s, h) && Settled(s, k);
    var id := s.rows[h].node.value;
    assert NodeOk(s, shop, id) && Backed(s, shop, s.minted[id - 1]);
    forall other | IsNode(s, other) && s.minted[other - 1].ref == h ensures other == id {
      assert s.minted[id - 1].ref == h;
    }
  }

  /* ------------------------------------------------------------- statements */

  function Updated(s: Sys, h: Hash, op: RowOp, now: int): Sys {
    s.(rows := ApplyAt(s.rows, h, op, now))
  }

  /** insert into node_schedule ... on conflict do nothing */
  function Scheduled(s: Sys, id: nat, next: int): Sys {
    if id in s.timers then s else s.(timers := s.timers[id := next])
  }

  /** The ledger row recordMintedNodes writes: price and tier come from the payment behind the ref. */
  function LedgerRow(s: Sys, m: Mint, basePrice: nat): NodeRow {
    if m.ref in s.rows
    then NodeRow(m.owner, s.rows[m.ref].amount, TierById(s.rows[m.ref].tier))
    else NodeRow(m.owner, basePrice, Base)
  }

  /** One node of the recordMintedNodes transaction: ledger row if absent, timer if absent. */
  function Recorded(s: Sys, id: nat, basePrice: nat, next: int): Sys
    requires IsNode(s, id)
  {
    var held := if id in s.nodes then s else s.(nodes := s.nodes[id := LedgerRow(s, s.minted[id - 1], basePrice)]);
    Scheduled(held, id, next)
  }

  /** The whole recordMintedNodes transaction. */
  function RecordedAll(s: Sys, ids: seq<nat>, basePrice: nat, next: nat -> int): (r: Sys)
    requires forall id :: id in ids ==> IsNode(s, id)
    ensures r.minted == s.minted
  {
    if ids == [] then s else
    var last := ids[|ids| - 1];
    assert last in ids && IsNode(s, last);
    Recorded(RecordedAll(s, ids[..|ids| - 1], basePrice, next), last, basePrice, next(last))
  }

  /** A mint transaction leaves for the chain. */
  function Sent(s: Sys, m: Mint): Sys {
    s.(pending := s.pending + {m})
  }

  /** A sent transaction is mined: the factory refuses a used ref, and mints the next id otherwise. */
  ghost function Landed(s: Sys, m: Mint): Sys {
    if m !in s.pending then s
    else if RefUsed(s.minted, m.ref) then s.(pending := s.pending - {m})
    else s.(pending := s.pending - {m}, minted := s.minted + [m])
  }

  /* ----------------------------------------------- each statement keeps Inv */

  lemma LiveIsBacked(s: Sys, shop: Shop, h: Hash)
    requires Inv(s, shop) && RefLive(s, h)
    ensures Backed(s, shop, Mint(h.from, h))
  {
    if RefUsed(s.minted, h) {
      var i :| 0 <= i < |s.minted| && s.minted[i].ref == h;
      assert Backed(s, shop, s.minted[i]);
    } else {
      var m :| m in s.pending && m.ref == h;
      assert Backed(s, shop, m);
    }
  }

  lemma RowIsTrue(s: Sys, shop: Shop, h: Hash)
    requires Inv(s, shop) && h in s.rows
    ensures RowOk(s, shop, h) && (s.rows[h].status == Minted ==> Settled(s, h))
  {
  }

  /** A used ref is always findable through the payer's own mint logs. */
  lemma UsedRefHasNode(s: Sys, shop: Shop, h: Hash)
    requires Inv(s, shop)
    ensures RefUsed(s.minted, h) <==> Mint(h.from, h) in s.minted
  {
    if RefUsed(s.minted, h) {
      var i :| 0 <= i < |s.minted| && s.minted[i].ref == h;
      assert Backed(s, shop, s.minted[i]);
      assert s.minted[i] == Mint(h.from, h);
    }
  }

  lemma DecideNamesTier(h: Hash, shop: Shop, holding: Option<nat>, used: nat)
    requires Priced(shop.tiers)
    ensures h.from != shop.wallet ==>
              Decide(h.value, h.from, shop.wallet, shop.tiers, holding, used).tier == TierForAmount(h.value, shop.tiers)
  {
  }

  /** Rows may change as long as each stays true and a tier with a mint behind it stays put. */
  lemma RowsKeepInv(s: Sys, shop: Shop, rows: Rows)
    requires Inv(s, shop)
    requires forall k :: k in s.rows ==> k in rows && (RefLive(s, k) ==> rows[k].tier == s.rows[k].tier)
    requires var s' := s.(rows := rows); forall k :: k in rows ==>
              RowOk(s', shop, k) && (rows[k].status == Minted ==> Settled(s', k))
    ensures Inv(s.(rows := rows), shop)
  {
    hide RowOk, Settled;
    var s' := s.(rows := rows);
    forall m | m in s'.pending ensures Backed(s', shop, m) {
      assert Backed(s, shop, m) && RefLive(s, m.ref);
    }
    forall i | 0 <= i < |s'.minted| ensures Backed(s', shop, s'.minted[i]) {
      assert Backed(s, shop, s.minted[i]) && RefUsed(s.minted, s.minted[i].ref);
    }
    forall id | id in s'.nodes ensures NodeOk(s', shop, id) {
      assert NodeOk(s, shop, id);
    }
  }

  lemma OneRowKeepsInv(s: Sys, shop: Shop, h: Hash, row: Row)
    requires Inv(s, shop)
    requires h in s.rows && RefLive(s, h) ==> row.tier == s.rows[h].tier
    requires var s' := s.(rows := s.rows[h := row]); RowOk(s', shop, h) && (row.status == Minted ==> Settled(s', h))
    ensures Inv(s.(rows := s.rows[h := row]), shop)
  {
    hide Inv;
    var s' := s.(rows := s.rows[h := row]);
    forall k | k in s'.rows ensures RowOk(s', shop, k) && (s'.rows[k].status == Minted ==> Settled(s', k)) {
      if k != h { RowIsTrue(s, shop, k); }
    }
    RowsKeepInv(s, shop, s'.rows);
  }

  /** Queue statements other than settling: a row moves, its identity and its node's backing do not. */
  lemma UpdateKeepsInv(s: Sys, shop: Shop, h: Hash, op: RowOp, now: int)
    requires Inv(s, shop) && h in s.rows && Serialised(s.rows[h], op)
    requires op.ClaimRow? || op.MarkMintFailed? || op.MarkManualReview? || op.RequeueStuck? || op.MarkRefunded?
    ensures Inv(Updated(s, h, op, now), shop)
  {
    hide Inv;
    RowIsTrue(s, shop, h);
    ApplyKeepsCount(s.rows[h], op, now);
    OneRowKeepsInv(s, shop, h, Apply(s.rows[h], op, now));
  }

  /** The operator's requeue re-decides from the chain; the tier it writes is the tier of the amount. */
  lemma RequeueKeepsInv(s: Sys, shop: Shop, h: Hash, holding: Option<nat>, used: nat, now: int)
    requires Inv(s, shop) && h in s.rows && Priced(shop.tiers)
    ensures Inv(Updated(s, h, Requeue(Decide(h.value, h.from, shop.wallet, shop.tiers, holding, used)), now), shop)
  {
    hide Inv;
    var v := Decide(h.value, h.from, shop.wallet, shop.tiers, holding, used);
    DecideQueuesOnlySales(h, shop.wallet, shop.tiers, holding, used);
    RowIsTrue(s, shop, h);
    ApplyKeepsCount(s.rows[h], Requeue(v), now);
    if RefLive(s, h) {
      LiveIsBacked(s, shop, h);
      DecideNamesTier(h, shop, holding, used);
    }
    OneRowKeepsInv(s, shop, h, Apply(s.rows[h], Requeue(v), now));
  }

  /** Claiming and un-sticking touch many rows at once. */
  lemma UpdateAllKeepsInv(s: Sys, shop: Shop, hs: set<Hash>, op: RowOp, now: int)
    requires Inv(s, shop) && (op.ClaimRow? || op.RequeueStuck?)
    ensures Inv(s.(rows := ApplyAll(s.rows, hs, op, now)), shop)
  {
    hide Inv;
    var s' := s.(rows := ApplyAll(s.rows, hs, op, now));
    forall k | k in s'.rows ensures RowOk(s', shop, k) && (s'.rows[k].status == Minted ==> Settled(s', k)) {
      RowIsTrue(s, shop, k);
      ApplyKeepsCount(s.rows[k], op, now);
    }
    hide RowOk, Settled;
    RowsKeepInv(s, shop, s'.rows);
  }

  /** The relay corrects a tier from the amount; behind a live ref it was already that. */
  lemma SetTierKeepsInv(s: Sys, shop: Shop, h: Hash, now: int)
    requires Inv(s, shop) && h in s.rows && s.rows[h].status == Minting
    requires TierForAmount(h.value, shop.tiers).Some?
    ensures Inv(Updated(s, h, SetTier(TierForAmount(h.value, shop.tiers).value), now), shop)
  {
    hide Inv;
    var op := SetTier(TierForAmount(h.value, shop.tiers).value);
    RowIsTrue(s, shop, h);
    ApplyKeepsCount(s.rows[h], op, now);
    if RefLive(s, h) { LiveIsBacked(s, shop, h); }
    OneRowKeepsInv(s, shop, h, Apply(s.rows[h], op, now));
  }

  /** Marking a payment done is right only once its node is in the ledger and on a timer. */
  lemma MarkMintedKeepsInv(s: Sys, shop: Shop, h: Hash, id: nat, now: int)
    requires Inv(s, shop) && h in s.rows && s.rows[h].status == Minting
    requires IsNode(s, id) && s.minted[id - 1].ref == h && id in s.nodes && id in s.timers
    ensures Inv(Updated(s, h, MarkMinted(id), now), shop)
  {
    hide Inv;
    RowIsTrue(s, shop, h);
    ApplyKeepsCount(s.rows[h], MarkMinted(id), now);
    OneRowKeepsInv(s, shop, h, Apply(s.rows[h], MarkMinted(id), now));
  }

  lemma ScheduleKeepsInv(s: Sys, shop: Shop, id: nat, next: int)
    requires Inv(s, shop) && IsNode(s, id)
    ensures Inv(Scheduled(s, id, next), shop)
  {
    var s' := Scheduled(s, id, next);
    forall k | k in s'.nodes ensures NodeOk(s', shop, k) { assert NodeOk(s, shop, k); }
    forall k | k in s'.rows && s'.rows[k].status == Minted ensures Settled(s', k) { assert Settled(s, k); }
    BackedStays(s, s', shop);
    hide RowOk, Backed, NodeOk, Settled;
  }

  lemma BackedStays(s: Sys, s': Sys, shop: Shop)
    requires s'.rows == s.rows && s.confirmed <= s'.confirmed
    ensures forall m :: Backed(s, shop, m) ==> Backed(s', shop, m)
    ensures forall h :: h in s.rows && RowOk(s, shop, h) ==> RowOk(s', shop, h)
  {
  }

  lemma RecordKeepsInv(s: Sys, shop: Shop, id: nat, next: int)
    requires Inv(s, shop) && IsNode(s, id)
    ensures Inv(Recorded(s, id, shop.basePrice, next), shop)
    ensures id in Recorded(s, id, shop.basePrice, next).nodes && id in Recorded(s, id, shop.basePrice, next).timers
  {
    ScheduleKeepsInv(s, shop, id, next);
    if id !in s.nodes {
      InsertNodeKeepsInv(Scheduled(s, id, next), shop, id);
    }
  }

  /** Entries are only ever added. */
  ghost predicate Keeps<V>(before: map<nat, V>, after: map<nat, V>) {
    forall id :: id in before ==> id in after && after[id] == before[id]
  }

  /** Recording is safe for any batch of real nodes, covers the batch, and rewrites nothing already held. */
  lemma {:induction false} RecordAllKeepsInv(s: Sys, shop: Shop, ids: seq<nat>, next: nat -> int)
    requires Inv(s, shop) && forall id :: id in ids ==> IsNode(s, id)
    ensures var r := RecordedAll(s, ids, shop.basePrice, next);
            && Inv(r, shop) && r == s.(nodes := r.nodes, timers := r.timers)
            && (forall id :: id in ids ==> id in r.nodes && id in r.timers)
            && (forall id :: id in r.nodes ==> id in s.nodes || id in ids)
            && Keeps(s.nodes, r.nodes) && Keeps(s.timers, r.timers)
            && (forall id :: id in r.timers && id !in s.timers ==> id in ids && r.timers[id] == next(id))
  {
    hide Inv;
    if ids != [] {
      var front, last := ids[..|ids| - 1], ids[|ids| - 1];
      assert last in ids && IsNode(s, last);
      RecordAllKeepsInv(s, shop, front, next);
      RecordKeepsInv(RecordedAll(s, front, shop.basePrice, next), shop, last, next(last));
      forall id | id in ids ensures id in front || id == last { }
    }
  }

  lemma InsertNodeKeepsInv(s: Sys, shop: Shop, id: nat)
    requires Inv(s, shop) && IsNode(s, id) && id in s.timers && id !in s.nodes
    ensures Inv(s.(nodes := s.nodes[id := LedgerRow(s, s.minted[id - 1], shop.basePrice)]), shop)
  {
    var m := s.minted[id - 1];
    assert Backed(s, shop, m) && RowOk(s, shop, m.ref);
    var s' := s.(nodes := s.nodes[id := LedgerRow(s, m, shop.basePrice)]);
    forall k | k in s'.nodes ensures NodeOk(s', shop, k) {
      if k != id { assert NodeOk(s, shop, k); }
    }
    forall k | k in s'.rows && s'.rows[k].status == Minted ensures Settled(s', k) { assert Settled(s, k); }
    BackedStays(s, s', shop);
    hide RowOk, Backed, NodeOk, Settled;
  }

  /** What verifyPayment established is what a mint needs behind it. */
  lemma SendKeepsInv(s: Sys, shop: Shop, h: Hash)
    requires Inv(s, shop) && h in s.rows && s.rows[h].status == Minting
    requires h.to == Some(shop.wallet) && s.rows[h].tier == TierForAmount(h.value, shop.tiers) && s.rows[h].tier.Some?
    ensures Inv(Sent(s, Mint(h.from, h)), shop)
  {
    var s' := Sent(s, Mint(h.from, h));
    assert RowOk(s, shop, h);
    forall k | k in s'.nodes ensures NodeOk(s', shop, k) { assert NodeOk(s, shop, k); }
    forall k | k in s'.rows && s'.rows[k].status == Minted ensures Settled(s', k) { assert Settled(s, k); }
    BackedStays(s, s', shop);
    hide RowOk, Backed, NodeOk, Settled;
  }

  lemma LandKeepsInv(s: Sys, shop: Shop, m: Mint)
    requires Inv(s, shop)
    ensures Inv(Landed(s, m), shop)
    ensures s.minted <= Landed(s, m).minted && Landed(s, m).pending <= s.pending
    ensures forall h :: RefLive(Landed(s, m), h) <==> RefLive(s, h)
  {
    var s' := Landed(s, m);
    forall h ensures RefLive(s', h) <==> RefLive(s, h) { LandKeepsLive(s, m, h); }
    LandKeepsTables(s, shop, m);
    LandKeepsBacking(s, shop, m);
  }

  lemma LandKeepsTables(s: Sys, shop: Shop, m: Mint)
    requires Inv(s, shop)
    ensures var s' := Landed(s, m);
            && (forall k :: k in s'.nodes ==> NodeOk(s', shop, k)) && (forall id :: id in s'.timers ==> IsNode(s', id))
            && (forall k :: k in s'.rows && s'.rows[k].status == Minted ==> Settled(s', k))
  {
    hide RowOk, Backed;
    var s' := Landed(s, m);
    forall k | k in s'.nodes ensures NodeOk(s', shop, k) { assert NodeOk(s, shop, k); }
    forall k | k in s'.rows && s'.rows[k].status == Minted ensures Settled(s', k) { assert Settled(s, k); }
  }

  lemma LandKeepsBacking(s: Sys, shop: Shop, m: Mint)
    requires Inv(s, shop)
    ensures var s' := Landed(s, m);
            && (forall h :: h in s'.rows ==> RowOk(s', shop, h))
            && (forall k :: k in s'.pending ==> Backed(s', shop, k))
            && (forall i :: 0 <= i < |s'.minted| ==> Backed(s', shop, s'.minted[i]))
            && (forall i, j :: 0 <= i < j < |s'.minted| ==> s'.minted[i].ref != s'.minted[j].ref)
  {
    hide NodeOk, Settled;
    var s' := Landed(s, m);
    BackedStays(s, s', shop);
  }

  lemma LandKeepsLive(s: Sys, m: Mint, h: Hash)
    ensures RefLive(Landed(s, m), h) <==> RefLive(s, h)
  {
    var s' := Landed(s, m);
    if RefUsed(s.minted, h) {
      var i :| 0 <= i < |s.minted| && s.minted[i].ref == h;
      assert s'.minted[i].ref == h;
    }
    if s' != s && !RefUsed(s.minted, m.ref) {
      assert s'.minted[|s.minted|] == m;
      if RefUsed(s'.minted, h) {
        var i :| 0 <= i < |s'.minted| && s'.minted[i].ref == h;
        assert i < |s.minted| ==> s.minted[i].ref == h;
      }
    }
  }

  /** A transfer newly proved by the watcher enters the queue, or is parked. */
  lemma SeenKeepsInv(s: Sys, shop: Shop, sight: Sighting, id: nat, now: int)
    requires Inv(s, shop) && sight.hash !in s.rows && sight.hash in s.confirmed
    requires sight.from == sight.hash.from && sight.amount == sight.hash.value
    requires sight.verdict.seen ==> Sellable(sight.hash, shop.wallet, shop.tiers)
    ensures Inv(s.(rows := s.rows[sight.hash := FreshRow(sight, id, now)]), shop)
  {
    NewRowKeepsInv(s, shop, sight.hash, FreshRow(sight, id, now));
  }

  lemma NewRowKeepsInv(s: Sys, shop: Shop, h: Hash, row: Row)
    requires Inv(s, shop) && h !in s.rows
    requires row.from == h.from && row.amount == h.value && WellCounted(row) && row.status != Minted
    requires row.status != Refunded ==> h in s.confirmed
    requires Queued(row) ==> h.from != shop.wallet
    ensures Inv(s.(rows := s.rows[h := row]), shop)
  {
    hide Inv;
    OneRowKeepsInv(s, shop, h, row);
  }

  lemma ConfirmKeepsInv(s: Sys, shop: Shop, more: set<Hash>)
    requires Inv(s, shop) && forall h :: h in more ==> h.to == Some(shop.wallet)
    ensures Inv(s.(confirmed := s.confirmed + more), shop)
  {
    var s' := s.(confirmed := s.confirmed + more);
    forall k | k in s'.nodes ensures NodeOk(s', shop, k) { assert NodeOk(s, shop, k); }
    forall k | k in s'.rows && s'.rows[k].status == Minted ensures Settled(s', k) { assert Settled(s, k); }
    BackedStays(s, s', shop);
    hide RowOk, Backed, NodeOk, Settled;
  }
}
