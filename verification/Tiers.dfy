/** Node tiers: the amount paid is what selects one (lib/tiers.ts). */
module Tiers {
  import opened Wrappers

  datatype TierId = Base | Plus | Prime

  datatype Tier = Tier(priceWei: nat, maxPerWallet: nat, holdingWei: nat, payoutBps: nat, onSale: bool)

  datatype Table = Table(base: Tier, plus: Tier, prime: Tier) {
    function Get(id: TierId): Tier {
      match id
      case Base => base
      case Plus => plus
      case Prime => prime
    }

    function Set(id: TierId, t: Tier): (r: Table)
      ensures forall i :: r.Get(i) == if i == id then t else Get(i)
    {
      match id
      case Base => this.(base := t)
      case Plus => this.(plus := t)
      case Prime => this.(prime := t)
    }
  }

  const TIER_IDS: seq<TierId> := [Base, Plus, Prime]

  /** Which tier an exact payment buys: the first whose price matches. */
  function TierForAmount(amount: nat, tiers: Table): (r: Option<TierId>)
    ensures r.Some? ==> tiers.Get(r.value).priceWei == amount
    ensures r.None? <==> forall id :: tiers.Get(id).priceWei != amount
    ensures forall j, k :: 0 <= j < k < |TIER_IDS| && r == Some(TIER_IDS[k]) ==>
              tiers.Get(TIER_IDS[j]).priceWei != amount
  {
    if tiers.base.priceWei == amount then Some(Base)
    else if tiers.plus.priceWei == amount then Some(Plus)
    else if tiers.prime.priceWei == amount then
      assert tiers.Get(Prime).priceWei == amount;
      Some(Prime)
    else None
  }

  /** A stored tier, where rows from before tiers existed read as base. */
  function TierById(id: Option<TierId>): (r: TierId)
    ensures r == Base <==> id == None || id == Some(Base)
  {
    if id.Some? then id.value else Base
  }

  ghost predicate PricesDistinct(tiers: Table) {
    forall a, b :: tiers.Get(a).priceWei == tiers.Get(b).priceWei ==> a == b
  }

  /** With distinct prices the amount and the tier determine each other; with a clash one tier cannot be bought. */
  lemma AmountNamesTier(tiers: Table)
    ensures PricesDistinct(tiers) <==> forall id :: TierForAmount(tiers.Get(id).priceWei, tiers) == Some(id)
  {
    if forall id :: TierForAmount(tiers.Get(id).priceWei, tiers) == Some(id) {
      forall a, b | tiers.Get(a).priceWei == tiers.Get(b).priceWei ensures a == b {
        assert TierForAmount(tiers.Get(a).priceWei, tiers) == Some(a);
        assert TierForAmount(tiers.Get(b).priceWei, tiers) == Some(b);
      }
    }
  }

  /** One stored settings row, after its key was split and its value parsed (None: unparsable). */
  datatype Setting =
    | UnknownTier
    | UnknownField(id: TierId)
    | PriceWei(id: TierId, wei: Option<nat>)
    | MaxPerWallet(id: TierId, count: Option<nat>)
    | HoldingWei(id: TierId, wei: Option<nat>)
    | PayoutBps(id: TierId, bps: Option<nat>)
    | OnSale(id: TierId, open: bool)

  predicate Usable(s: Setting) {
    match s
    case UnknownTier => false
    case UnknownField(_) => false
    case PriceWei(_, wei) => wei.Some? && wei.value > 0
    case MaxPerWallet(_, n) => n.Some? && n.value <= 1000
    case HoldingWei(_, wei) => wei.Some?
    case PayoutBps(_, n) => n.Some? && n.value <= 1_000_000
    case OnSale(_, _) => true
  }

  /** A table an operator may set up: prices that can be paid, and allowances and multipliers within reason. */
  ghost predicate Bounded(tiers: Table) {
    forall id ::
      tiers.Get(id).priceWei > 0 && tiers.Get(id).maxPerWallet <= 1000 && tiers.Get(id).payoutBps <= 1_000_000
  }

  /** A stored row is usable exactly if some such table says it. */
  lemma UsableIsBounded(s: Setting)
    ensures Usable(s) <==> exists tiers :: Bounded(tiers) && Shows(tiers, s)
  {
    if Usable(s) {
      var t := Tier(1, 0, 0, 0, false);
      var tiers := ApplySetting(Table(t, t, t), s);
      assert Bounded(tiers) && Shows(tiers, s);
    }
  }

  function ApplySetting(tiers: Table, s: Setting): Table
    requires Usable(s)
  {
    match s
    case PriceWei(id, wei) => tiers.Set(id, tiers.Get(id).(priceWei := wei.value))
    case MaxPerWallet(id, n) => tiers.Set(id, tiers.Get(id).(maxPerWallet := n.value))
    case HoldingWei(id, wei) => tiers.Set(id, tiers.Get(id).(holdingWei := wei.value))
    case PayoutBps(id, n) => tiers.Set(id, tiers.Get(id).(payoutBps := n.value))
    case OnSale(id, open) => tiers.Set(id, tiers.Get(id).(onSale := open))
  }

  ghost predicate Priced(tiers: Table) {
    forall id :: tiers.Get(id).priceWei > 0
  }

  /** Rows of the same key: the same field of the same tier. */
  predicate SameKey(a: Setting, b: Setting) {
    match (a, b)
    case (PriceWei(x, _), PriceWei(y, _)) => x == y
    case (MaxPerWallet(x, _), MaxPerWallet(y, _)) => x == y
    case (HoldingWei(x, _), HoldingWei(y, _)) => x == y
    case (PayoutBps(x, _), PayoutBps(y, _)) => x == y
    case (OnSale(x, _), OnSale(y, _)) => x == y
    case _ => false
  }

  /** The table has, in the row's field, what the row says. */
  predicate Shows(tiers: Table, s: Setting) {
    match s
    case PriceWei(id, wei) => wei == Some(tiers.Get(id).priceWei)
    case MaxPerWallet(id, n) => n == Some(tiers.Get(id).maxPerWallet)
    case HoldingWei(id, wei) => wei == Some(tiers.Get(id).holdingWei)
    case PayoutBps(id, n) => n == Some(tiers.Get(id).payoutBps)
    case OnSale(id, open) => open == tiers.Get(id).onSale
    case _ => false
  }

  /**
   * What a table shows in a field is what the last usable row of that key says, and the
   * default's value if there is none.
   */
  ghost predicate Layered(tiers: Table, defaults: Table, rows: seq<Setting>) {
    && (forall i :: 0 <= i < |rows| && Usable(rows[i]) && !Mentioned(rows[i], rows[i + 1..]) ==> Shows(tiers, rows[i]))
    && (forall s :: !Mentioned(s, rows) ==> (Shows(tiers, s) <==> Shows(defaults, s)))
  }

  /** Some usable row has the key. */
  ghost predicate Mentioned(s: Setting, rows: seq<Setting>) {
    exists j :: 0 <= j < |rows| && Usable(rows[j]) && SameKey(s, rows[j])
  }

  lemma ApplyShows(tiers: Table, s: Setting)
    requires Usable(s)
    ensures Shows(ApplySetting(tiers, s), s)
    ensures forall r: Setting :: !SameKey(r, s) ==> (Shows(ApplySetting(tiers, s), r) <==> Shows(tiers, r))
    ensures Priced(tiers) ==> Priced(ApplySetting(tiers, s))
  {
  }

  lemma NothingStored(defaults: Table)
    ensures Layered(defaults, defaults, [])
  {
  }

  lemma LayerOne(before: Table, after: Table, defaults: Table, rows: seq<Setting>, s: Setting)
    requires Layered(before, defaults, rows)
    requires if Usable(s)
             then Shows(after, s) && forall r: Setting :: !SameKey(r, s) ==> (Shows(after, r) <==> Shows(before, r))
             else after == before
    ensures Layered(after, defaults, rows + [s])
  {
    hide Shows, SameKey, Usable;
    var all := rows + [s];
    forall i | 0 <= i < |all| && Usable(all[i]) && !Mentioned(all[i], all[i + 1..]) ensures Shows(after, all[i]) {
      if i < |rows| {
        assert all[i + 1..] == rows[i + 1..] + [s];
        NotMentioned(all[i], rows[i + 1..], s);
      }
    }
    forall r | !Mentioned(r, all) ensures Shows(after, r) <==> Shows(defaults, r) {
      NotMentioned(r, rows, s);
    }
  }

  lemma NotMentioned(r: Setting, rows: seq<Setting>, s: Setting)
    requires !Mentioned(r, rows + [s])
    ensures !Mentioned(r, rows) && (Usable(s) ==> !SameKey(r, s))
  {
    var all := rows + [s];
    assert all[|rows|] == s;
    assert forall j :: 0 <= j < |rows| ==> all[j] == rows[j];
  }

  /**
   * Defaults with stored rows on top. A bad row is counted and skipped, so every
   * price stays positive; a price clash is reported, though not undone.
   */
  method LoadTiers(defaults: Table, rows: seq<Setting>) returns (tiers: Table, problems: nat)
    requires Priced(defaults)
    ensures Priced(tiers)
    ensures problems == 0 <==> PricesDistinct(tiers) && forall s :: s in rows ==> Usable(s)
    ensures Layered(tiers, defaults, rows)
  {
    NothingStored(defaults);
    hide Layered, Shows, SameKey, ApplySetting, Priced;
    tiers, problems := defaults, 0;
    for i := 0 to |rows|
      invariant Priced(tiers)
      invariant problems == 0 <==> forall k :: 0 <= k < i ==> Usable(rows[k])
      invariant Layered(tiers, defaults, rows[..i])
    {
      ghost var before := tiers;
      assert rows[..i + 1] == rows[..i] + [rows[i]];
      if Usable(rows[i]) {
        tiers := ApplySetting(tiers, rows[i]);
        ApplyShows(before, rows[i]);
      } else {
        problems := problems + 1;
      }
      LayerOne(before, tiers, defaults, rows[..i], rows[i]);
    }
    assert rows[..|rows|] == rows;
    var clashes := PriceClashes(tiers);
    problems := problems + clashes;
  }

  /** How many tiers repeat the price of an earlier one. */
  method PriceClashes(tiers: Table) returns (clashes: nat)
    ensures clashes == 0 <==> PricesDistinct(tiers)
  {
    clashes := 0;
    var seen: map<nat, TierId> := map[];
    for i := 0 to |TIER_IDS|
      invariant seen.Keys == set k | 0 <= k < i :: tiers.Get(TIER_IDS[k]).priceWei
      invariant clashes == 0 <==>
        forall j, k :: 0 <= j < k < i ==> tiers.Get(TIER_IDS[j]).priceWei != tiers.Get(TIER_IDS[k]).priceWei
    {
      var price := tiers.Get(TIER_IDS[i]).priceWei;
      if price in seen { clashes := clashes + 1; }
      seen := seen[price := TIER_IDS[i]];
    }
    DistinctByIndex(tiers);
  }

  lemma DistinctByIndex(tiers: Table)
    ensures PricesDistinct(tiers) <==>
      forall j, k :: 0 <= j < k < |TIER_IDS| ==> tiers.Get(TIER_IDS[j]).priceWei != tiers.Get(TIER_IDS[k]).priceWei
  {
    assert TIER_IDS == [Base, Plus, Prime];
    if forall j, k :: 0 <= j < k < |TIER_IDS| ==> tiers.Get(TIER_IDS[j]).priceWei != tiers.Get(TIER_IDS[k]).priceWei {
      assert tiers.Get(TIER_IDS[0]).priceWei != tiers.Get(TIER_IDS[1]).priceWei;
      assert tiers.Get(TIER_IDS[0]).priceWei != tiers.Get(TIER_IDS[2]).priceWei;
      assert tiers.Get(TIER_IDS[1]).priceWei != tiers.Get(TIER_IDS[2]).priceWei;
    }
  }
}
