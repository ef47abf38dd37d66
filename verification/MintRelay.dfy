/**
 * The mint relay and the reconciler (lib/mintRelay.ts, lib/reconcile.ts): recorded
 * payments become nodes, through statements any of which may throw or be the last
 * one the process executes, and chain calls that may fail, lag or land late.
 */
module MintRelay {
  import opened Wrappers
  import Seqs
  import opened Chain
  import opened Selection
  import opened Tiers
  import opened Payments
  import opened Process
  import opened RelayState
  import opened Allowance

  class NodeTable {
    var nodes: map<nat, NodeRow>
    var timers: map<nat, int>

    constructor ()
      ensures nodes == map[] && timers == map[]
    {
      nodes, timers := map[], map[];
    }

    method ScheduleNewNode(id: nat, next: int)
      modifies this`timers
      ensures timers == if id in old(timers) then old(timers) else old(timers)[id := next]
    {
      if id !in timers { timers := timers[id := next]; }
    }
  }

  /**
   * The factory's mint side, the mint transactions on their way to it, and the final payments of the
   * chain it lives on.
   */
  class Factory {
    var minted: seq<Mint>
    var pending: set<Mint>
    var confirmed: set<Hash>

    constructor ()
      ensures minted == [] && pending == {} && confirmed == {}
    {
      minted, pending, confirmed := [], {}, {};
    }

    method PaymentRefUsed(ref: Hash) returns (used: bool)
      ensures used <==> RefUsed(minted, ref)
    {
      used := false;
      for i := 0 to |minted|
        invariant used <==> exists k :: 0 <= k < i && minted[k].ref == ref
      {
        if minted[i].ref == ref { used := true; }
      }
    }

    /** The first of the owner's mint logs that carries the ref. */
    method ExistingNodeFor(owner: Address, ref: Hash) returns (id: Option<nat>)
      ensures id.Some? ==> 1 <= id.value <= |minted| && minted[id.value - 1] == Mint(owner, ref)
      ensures id.None? ==> Mint(owner, ref) !in minted
    {
      for i := 0 to |minted|
        invariant Mint(owner, ref) !in minted[..i]
      {
        if minted[i].owner == owner && minted[i].ref == ref { return Some(i + 1); }
      }
      id := None;
    }

    /** mintFor is mined: refused for a used ref, the next id otherwise. */
    method Land(m: Mint) returns (id: Option<nat>)
      modifies this`minted, this`pending
      ensures m in old(pending) && !RefUsed(old(minted), m.ref) ==>
                id == Some(|old(minted)| + 1) && minted == old(minted) + [m] && pending == old(pending) - {m}
      ensures m !in old(pending) || RefUsed(old(minted), m.ref) ==>
                id == None && minted == old(minted) && pending == old(pending) - {m}
    {
      id := None;
      if m in pending {
        var used := PaymentRefUsed(m.ref);
        if !used {
          minted := minted + [m];
          id := Some(|minted|);
        }
        pending := pending - {m};
      }
    }
  }

  datatype Reading = Broken | Silent | Truthful

  datatype Sim = SimTruthful | SimStale | SimWalletLimit | SimOther

  datatype Send = Unsent(broadcast: bool) | NoReceipt | Reverted | Accepted(logged: bool)

  /** Everything one attempt reads from the chain; `drift` are older transactions that land meanwhile. */
  datatype Attempt = Attempt(
    tx: Reading, used: Reading, sim: Sim, send: Send, usedAgain: Reading, log: Reading,
    before: seq<Mint>, during: seq<Mint>, firstTimer: int, secondTimer: int)

  datatype Outcome = FreshlyMinted | AlreadyMinted | MintFailed | Parked

  datatype Ended = Done(outcome: Outcome) | Threw | Died

  function Interrupted(f: Fate): (e: Ended)
    requires f != Fine
    ensures (e == Threw <==> f == Throws) && (e == Died <==> f == Dies)
  {
    match f
    case Throws => Threw
    case Dies => Died
  }

  /** A process issues no statement after the one it died at, and is dead only then. */
  ghost predicate Lives(fate: nat -> Fate, from: nat, to: nat, died: bool) {
    && from <= to
    && (forall k: nat :: from <= k < to && fate(k) == Dies ==> k == to - 1)
    && (died <==> from < to && fate(to - 1) == Dies)
  }

  lemma LivesYet(fate: nat -> Fate, at: nat)
    ensures Lives(fate, at, at, false) && Lives(fate, at, at + 1, fate(at) == Dies)
  {
  }

  /** The deadline had not passed when any of the first n attempts began. */
  ghost predicate OnTime(late: nat -> bool, n: nat) {
    forall k: nat :: k < n ==> !late(k)
  }

  lemma OnTimeYet(late: nat -> bool, n: nat)
    ensures OnTime(late, 0) && (OnTime(late, n) && !late(n) ==> OnTime(late, n + 1))
  {
  }

  /** Nothing is issued after a death. */
  ghost predicate Mortal(fate: nat -> Fate, from: nat, to: nat) {
    Lives(fate, from, to, false) || Lives(fate, from, to, true)
  }

  lemma ThreeStatements(fate: nat -> Fate, at: nat)
    ensures Lives(fate, at, at + 1, fate(at) == Dies)
    ensures fate(at) == Fine ==> Lives(fate, at, at + 2, fate(at + 1) == Dies)
    ensures fate(at) == Fine && fate(at + 1) == Fine ==> Lives(fate, at, at + 3, fate(at + 2) == Dies)
  {
  }

  lemma LivesOn(fate: nat -> Fate, from: nat, mid: nat, to: nat, died: bool)
    requires Lives(fate, from, mid, false) && Lives(fate, mid, to, died)
    ensures Lives(fate, from, to, died)
  {
  }

  lemma LivesThen(fate: nat -> Fate, from: nat, mid: nat, to: nat)
    requires Lives(fate, from, mid, false) && Mortal(fate, mid, to)
    ensures Mortal(fate, from, to)
  {
  }

  class Pipeline {
    const shop: Shop
    const t: PaymentTable
    const n: NodeTable
    const f: Factory
    const s: Session

    constructor (shop: Shop, t: PaymentTable, n: NodeTable, f: Factory, s: Session)
      ensures this.shop == shop && this.t == t && this.n == n && this.f == f && this.s == s
    {
      this.shop, this.t, this.n, this.f, this.s := shop, t, n, f, s;
    }

    ghost function Snap(): Sys
      reads t, n, f
    {
      Sys(t.rows, n.nodes, n.timers, f.minted, f.pending, f.confirmed)
    }

    ghost predicate Valid()
      reads t, n, f
    {
      Priced(shop.tiers) && Inv(Snap(), shop)
    }

    ghost predicate Within()
      reads t, n, f
    {
      WithinAllowance(Snap(), shop)
    }

    /** This row is the relay's to finish. */
    ghost predicate Holding(h: Hash)
      reads t
    {
      h in t.rows && t.rows[h].status == Minting
    }

    /** Every listed mint in flight has landed, or lost its ref to one that had; nothing else was minted. */
    static ghost predicate Drifted(before: Sys, after: Sys, ms: seq<Mint>) {
      && after == before.(minted := after.minted, pending := after.pending)
      && (forall m :: m in after.pending <==> m in before.pending && m !in ms)
      && (forall m :: m in ms && m in before.pending ==> RefUsed(after.minted, m.ref))
      && (forall m :: m in after.minted ==> m in before.minted || (m in ms && m in before.pending))
    }

    static lemma DriftedOn(before: Sys, mid: Sys, after: Sys, ms: seq<Mint>, i: nat)
      requires i < |ms| && Drifted(before, mid, ms[..i]) && after == Landed(mid, ms[i])
      ensures Drifted(before, after, ms[..i + 1])
    {
      assert ms[..i + 1] == ms[..i] + [ms[i]];
      forall m | m in ms[..i + 1] && m in before.pending ensures RefUsed(after.minted, m.ref) {
        if m in ms[..i] {
          RefUsedStays(mid.minted, after.minted, m.ref);
        } else if !RefUsed(mid.minted, m.ref) {
          assert after.minted[|mid.minted|].ref == m.ref;
        }
      }
    }

    /** Older mint transactions land, in some order. */
    method Drift(ms: seq<Mint>)
      requires Valid()
      modifies f`minted, f`pending
      ensures Valid() && (old(Within()) ==> Within())
      ensures old(f.minted) <= f.minted && f.pending <= old(f.pending)
      ensures ms == [] ==> f.minted == old(f.minted)
      ensures Drifted(old(Snap()), Snap(), ms)
      ensures forall h :: RefLive(Snap(), h) <==> RefLive(old(Snap()), h)
    {
      hide Inv, WithinAllowance, RefUsed;
      for i := 0 to |ms|
        invariant Valid() && (old(Within()) ==> Within())
        invariant Drifted(old(Snap()), Snap(), ms[..i])
        invariant old(f.minted) <= f.minted && f.pending <= old(f.pending)
        invariant ms == [] ==> f.minted == old(f.minted)
        invariant Snap() == old(Snap()).(minted := f.minted, pending := f.pending)
        invariant forall h :: RefLive(Snap(), h) <==> RefLive(old(Snap()), h)
      {
        ghost var before := Snap();
        LandKeepsInv(before, shop, ms[i]);
        var id := f.Land(ms[i]);
        assert f.pending == before.pending - {ms[i]};
        if ms[i] !in before.pending { assert f.pending == before.pending; }
        assert Snap() == Landed(before, ms[i]);
        DriftedOn(old(Snap()), before, Snap(), ms, i);
        SameRowsAddNothing(before, Snap());
        if old(Within()) { NothingAddedKeeps(before, Snap(), shop); }
      }
      assert ms[..|ms|] == ms;
    }

    /** The attempt failed: count it, and park the payment once the budget is spent. */
    method Fail(h: Hash, now: int) returns (e: Ended)
      requires Valid() && Holding(h)
      modifies t`rows, s
      ensures Valid() && (old(Within()) ==> Within())
      ensures e == Done(MintFailed) ==> t.rows == ApplyAt(old(t.rows), h, MarkMintFailed, now)
      ensures e != Done(MintFailed) ==>
                e != Done(FreshlyMinted) && e != Done(AlreadyMinted) && e != Done(Parked) && t.rows == old(t.rows)
      ensures old(s.AllFine()) ==> s.AllFine() && e == Done(MintFailed)
      ensures s.at == old(s.at) + 1 && Lives(s.fate, old(s.at), s.at, e == Died)
      ensures var fate := s.fate(old(s.at)); e == if fate == Fine then Done(MintFailed) else Interrupted(fate)
    {
      var fate := s.Tick();
      if fate != Fine { return Interrupted(fate); }
      UpdateKeepsInv(Snap(), shop, h, MarkMintFailed, now);
      UpdateAddsNothing(Snap(), shop, h, MarkMintFailed, now);
      if Within() { NothingAddedKeeps(Snap(), Updated(Snap(), h, MarkMintFailed, now), shop); }
      t.Update(h, MarkMintFailed, now);
      e := Done(MintFailed);
    }

    /** No retry can help: park the payment for a person. */
    method Park(h: Hash, now: int) returns (e: Ended)
      requires Valid() && Holding(h)
      modifies t`rows, s
      ensures Valid() && (old(Within()) ==> Within())
      ensures e == Done(Parked) ==> t.rows == ApplyAt(old(t.rows), h, MarkManualReview, now)
      ensures e != Done(Parked) ==> (e == Threw || e == Died) && t.rows == old(t.rows)
      ensures old(s.AllFine()) ==> s.AllFine() && e == Done(Parked)
      ensures s.at == old(s.at) + 1 && Lives(s.fate, old(s.at), s.at, e == Died)
      ensures var fate := s.fate(old(s.at)); e == if fate == Fine then Done(Parked) else Interrupted(fate)
    {
      var fate := s.Tick();
      if fate != Fine { return Interrupted(fate); }
      UpdateKeepsInv(Snap(), shop, h, MarkManualReview, now);
      UpdateAddsNothing(Snap(), shop, h, MarkManualReview, now);
      if Within() { NothingAddedKeeps(Snap(), Updated(Snap(), h, MarkManualReview, now), shop); }
      t.Update(h, MarkManualReview, now);
      e := Done(Parked);
    }

    /** One transaction: every given node gets a ledger row and a timer, where it had none. */
    method RecordMintedNodes(ids: seq<nat>, next: nat -> int) returns (fate: Fate)
      requires Valid() && forall id :: id in ids ==> IsNode(Snap(), id)
      modifies n, s
      ensures Valid() && (old(Within()) ==> Within())
      ensures fate == old(s.fate(s.at)) && s.at == old(s.at) + 1 && (old(s.AllFine()) ==> s.AllFine())
      ensures Snap() == if fate == Fine then RecordedAll(old(Snap()), ids, shop.basePrice, next) else old(Snap())
      ensures fate == Fine ==> forall id :: id in ids ==> id in n.nodes && id in n.timers
      ensures forall id :: id in n.nodes ==> id in old(n.nodes) || id in ids
      ensures Keeps(old(n.nodes), n.nodes) && Keeps(old(n.timers), n.timers)
      ensures forall id :: id in n.timers && id !in old(n.timers) ==> id in ids && n.timers[id] == next(id)
    {
      hide Inv, WithinAllowance;
      fate := s.Tick();
      if fate == Fine {
        RecordAllKeepsInv(Snap(), shop, ids, next);
        ghost var before := Snap();
        RecordAll(ids, next);
        StaysWithin(before, Snap());
      }
    }

    method RecordAll(ids: seq<nat>, next: nat -> int)
      requires forall id :: id in ids ==> IsNode(Snap(), id)
      modifies n
      ensures Snap() == RecordedAll(old(Snap()), ids, shop.basePrice, next)
    {
      for i := 0 to |ids|
        invariant Snap() == RecordedAll(old(Snap()), ids[..i], shop.basePrice, next)
      {
        assert ids[..i + 1][..i] == ids[..i];
        assert ids[i] in ids;
        RecordOne(ids[i], next(ids[i]));
      }
      assert ids[..|ids|] == ids;
    }

    method RecordOne(id: nat, next: int)
      requires IsNode(Snap(), id)
      modifies n
      ensures Snap() == Recorded(old(Snap()), id, shop.basePrice, next)
    {
      if id !in n.nodes {
        var m := f.minted[id - 1];
        var row := if m.ref in t.rows
                   then NodeRow(m.owner, t.rows[m.ref].amount, TierById(t.rows[m.ref].tier))
                   else NodeRow(m.owner, shop.basePrice, Base);
        n.nodes := n.nodes[id := row];
      }
      n.ScheduleNewNode(id, next);
    }

    /** The allowance is about payments and mints; other tables do not move it. */
    lemma StaysWithin(before: Sys, after: Sys)
      requires after.rows == before.rows && after.minted == before.minted && after.pending == before.pending
      ensures WithinAllowance(before, shop) ==> WithinAllowance(after, shop)
    {
      forall h ensures RefLive(after, h) <==> RefLive(before, h) { SameRefs(before, after, h); }
      SameRowsAddNothing(before, after);
      if WithinAllowance(before, shop) { NothingAddedKeeps(before, after, shop); }
    }

    method FirstTimer(id: nat, next: int) returns (fate: Fate)
      requires Valid() && IsNode(Snap(), id)
      modifies n`timers, s
      ensures Valid() && (old(Within()) ==> Within())
      ensures fate == old(s.fate(s.at)) && s.at == old(s.at) + 1 && (old(s.AllFine()) ==> s.AllFine())
      ensures n.timers == if fate != Fine || id in old(n.timers) then old(n.timers) else old(n.timers)[id := next]
    {
      fate := s.Tick();
      if fate != Fine { return; }
      ghost var before := Snap();
      ScheduleKeepsInv(before, shop, id, next);
      n.ScheduleNewNode(id, next);
      assert Snap() == Scheduled(before, id, next);
      StaysWithin(before, Snap());
    }

    method MarkDone(h: Hash, id: nat, now: int) returns (fate: Fate)
      requires Valid() && Holding(h) && IsNode(Snap(), id) && f.minted[id - 1].ref == h
      requires id in n.nodes && id in n.timers
      modifies t`rows, s
      ensures Valid() && (old(Within()) ==> Within())
      ensures fate == old(s.fate(s.at)) && s.at == old(s.at) + 1 && (old(s.AllFine()) ==> s.AllFine())
      ensures t.rows == if fate == Fine then ApplyAt(old(t.rows), h, MarkMinted(id), now) else old(t.rows)
    {
      fate := s.Tick();
      if fate != Fine { return; }
      assert RefUsed(f.minted, h);
      MarkMintedKeepsInv(Snap(), shop, h, id, now);
      UpdateAddsNothing(Snap(), shop, h, MarkMinted(id), now);
      if Within() { NothingAddedKeeps(Snap(), Updated(Snap(), h, MarkMinted(id), now), shop); }
      t.Update(h, MarkMinted(id), now);
    }

    static lemma KeepsItself<V>(m: map<nat, V>)
      ensures Keeps(m, m)
    {
    }

    /** The first timer is set once, and what comes after for the same node finds it there. */
    static lemma TimerSet(before: map<nat, int>, mid: map<nat, int>, after: map<nat, int>, id: nat, next: int,
                          ran: bool)
      requires mid == if !ran || id in before then before else before[id := next]
      requires (mid == after || Keeps(mid, after)) && forall k :: k in after && k !in mid ==> k == id
      ensures Keeps(before, after) && (ran ==> after == mid)
    {
      if ran { assert after.Keys == mid.Keys; }
    }

    /**
     * Timer, ledger row, and only then the payment marked done. Interrupted
     * anywhere, the payment still looks unfinished.
     */
    method Settle(h: Hash, id: nat, a: Attempt, now: int) returns (ok: bool, e: Ended)
      requires Valid() && Holding(h) && IsNode(Snap(), id) && f.minted[id - 1].ref == h
      modifies t`rows, n, s
      ensures Valid() && (old(Within()) ==> Within())
      ensures ok ==> t.rows == ApplyAt(old(t.rows), h, MarkMinted(id), now)
      ensures !ok ==> t.rows == old(t.rows) && (e == Threw || e == Died)
      ensures ok <==> s.fate(old(s.at)) == Fine && s.fate(old(s.at) + 1) == Fine && s.fate(old(s.at) + 2) == Fine
      ensures Lives(s.fate, old(s.at), s.at, !ok && e == Died)
      ensures ok ==>
                id in n.nodes && n.timers == if id in old(n.timers) then old(n.timers)
                  else old(n.timers)[id := a.firstTimer]
      ensures Keeps(old(n.nodes), n.nodes) && Keeps(old(n.timers), n.timers)
      ensures old(s.AllFine()) ==> s.AllFine() && ok
    {
      hide Inv, WithinAllowance, Lives, RecordedAll, ApplyAt, Keeps;
      ghost var at := s.at;
      e, ok := Threw, false;
      ThreeStatements(s.fate, at);
      ghost var timers, nodes := n.timers, n.nodes;
      KeepsItself(nodes);
      var fate := FirstTimer(id, a.firstTimer);
      ghost var mid := n.timers;
      TimerSet(timers, mid, mid, id, a.firstTimer, fate == Fine);
      if fate != Fine { return false, Interrupted(fate); }
      fate := RecordMintedNodes([id], (k: nat) => a.secondTimer);
      TimerSet(timers, mid, n.timers, id, a.firstTimer, true);
      if fate != Fine { return false, Interrupted(fate); }
      assert id in [id];
      fate := MarkDone(h, id, now);
      if fate != Fine { return false, Interrupted(fate); }
      ok := true;
    }

    /** The contract has seen this ref: find its node and finish, or wait for the log. */
    method ResolveAlreadyMinted(h: Hash, a: Attempt, now: int) returns (e: Ended)
      requires Valid() && Holding(h)
      modifies t`rows, n, s
      ensures Valid() && (old(Within()) ==> Within())
      ensures old(s.AllFine()) ==> s.AllFine() && e != Died
      ensures After(old(t.rows), t.rows, h, e)
      ensures e != Done(Parked) && e != Done(FreshlyMinted)
      ensures old(s.AllFine()) && a.log == Truthful && RefUsed(f.minted, h) ==> e == Done(AlreadyMinted)
      ensures old(s.AllFine()) && (a.log == Silent || (a.log == Truthful && !RefUsed(f.minted, h))) ==>
                e == Done(MintFailed)
      ensures a.log == Broken ==> e == Threw
      ensures Lives(s.fate, old(s.at), s.at, e == Died)
    {
      hide Inv, WithinAllowance, Lives, After, OnlyTouched, ApplyAt, Apply;
      LivesYet(s.fate, s.at);
      EndsOfAnAttempt(t.rows, h, now);
      EndsMinted(t.rows, h, now);
      if a.log == Broken { return Threw; }
      UsedRefHasNode(Snap(), shop, h);
      var existing := f.ExistingNodeFor(h.from, h);
      if existing.None? || a.log == Silent {
        e := Fail(h, now);
        return;
      }
      var ok;
      ok, e := Settle(h, existing.value, a, now);
      if ok { e := Done(AlreadyMinted); }
    }

    /** One row changed at most; its payer, its amount and a right tier did not. */
    ghost predicate OnlyTouched(before: Rows, after: Rows, h: Hash) {
      && after.Keys == before.Keys && h in before
      && (forall k :: k in before && k != h ==> after[k] == before[k])
      && SamePayment(before[h], after[h].(tier := before[h].tier))
      && (before[h].tier == TierForAmount(h.value, shop.tiers) ==> after[h].tier == before[h].tier)
    }

    /** How an attempt leaves the queue: one row changed, in the way the outcome says. */
    ghost predicate After(before: Rows, after: Rows, h: Hash, e: Ended) {
      && OnlyTouched(before, after, h)
      && (match e
          case Done(FreshlyMinted) => after[h].status == Minted && after[h].attempts == before[h].attempts
          case Done(AlreadyMinted) => after[h].status == Minted && after[h].attempts == before[h].attempts
          case Done(MintFailed) =>
            && after[h].attempts == before[h].attempts + 1
            && after[h].status == if after[h].attempts >= MAX_MINT_ATTEMPTS then ManualReview else Failed
          case Done(Parked) => after[h].status == ManualReview && after[h].attempts == before[h].attempts
          case _ => after[h].status == Minting && after[h].attempts == before[h].attempts)
    }

    /** The attempt has not ended: the row is still held, at most its tier was corrected. */
    ghost predicate StillHeld(before: Rows, after: Rows, h: Hash) {
      && OnlyTouched(before, after, h)
      && after[h].status == before[h].status && after[h].attempts == before[h].attempts
    }

    /** The three ways an attempt that changed nothing yet may end. */
    lemma EndsOfAnAttempt(rows: Rows, h: Hash, now: int)
      requires h in rows && rows[h].status == Minting
      ensures After(rows, rows, h, Threw) && After(rows, rows, h, Died)
      ensures After(rows, ApplyAt(rows, h, MarkMintFailed, now), h, Done(MintFailed))
      ensures After(rows, ApplyAt(rows, h, MarkManualReview, now), h, Done(Parked))
    {
      hide TierForAmount;
    }

    lemma EndsMinted(rows: Rows, h: Hash, now: int)
      requires h in rows && rows[h].status == Minting
      ensures forall id: nat ::
                && After(rows, ApplyAt(rows, h, MarkMinted(id), now), h, Done(FreshlyMinted))
                && After(rows, ApplyAt(rows, h, MarkMinted(id), now), h, Done(AlreadyMinted))
    {
      hide TierForAmount;
    }

    /** Correcting the tier, or finding it right, leaves the row held. */
    lemma TierLeavesHeld(rows: Rows, h: Hash, now: int)
      requires h in rows && rows[h].status == Minting
      ensures StillHeld(rows, rows, h)
      ensures var tier := TierForAmount(h.value, shop.tiers);
              tier.Some? && rows[h].tier != tier ==>
                var after := ApplyAt(rows, h, SetTier(tier.value), now);
                h in after && StillHeld(rows, after, h) && after[h].status == Minting && after[h].tier == tier
    {
      hide TierForAmount;
    }

    lemma HeldThenAfter(before: Rows, mid: Rows, after: Rows, h: Hash, e: Ended)
      requires StillHeld(before, mid, h) && After(mid, after, h, e)
      ensures After(before, after, h, e)
    {
    }

    /** The transaction behind the row is one this shop sells for. */
    predicate Genuine(h: Hash) {
      h.to == Some(shop.wallet) && TierForAmount(h.value, shop.tiers).Some?
    }

    /** Re-read the payment itself; the row's tier is corrected from the amount. None: go on. */
    method VerifyPayment(h: Hash, a: Attempt, now: int) returns (e: Option<Ended>)
      requires Valid() && Holding(h)
      modifies t`rows, s
      ensures Valid() && (old(Within()) ==> Within())
      ensures e.Some? ==> After(old(t.rows), t.rows, h, e.value)
      ensures (a.tx == Broken ==> e == Some(Threw)) && (e == Some(Done(Parked)) ==> a.tx == Truthful)
      ensures e.None? ==>
                a.tx == Truthful && Genuine(h) && StillHeld(old(t.rows), t.rows, h) &&
                t.rows[h].tier == TierForAmount(h.value, shop.tiers)
      ensures old(t.rows)[h].tier == TierForAmount(h.value, shop.tiers) && e.None? ==> t.rows == old(t.rows)
      ensures old(s.AllFine()) ==> s.AllFine() && e != Some(Died) && (Genuine(h) && a.tx == Truthful ==> e.None?)
      ensures e != Some(Done(FreshlyMinted)) && (e == Some(Done(Parked)) ==> !Genuine(h))
      ensures Lives(s.fate, old(s.at), s.at, e == Some(Died))
      ensures old(s.AllFine()) && a.tx == Truthful && !Genuine(h) ==> e == Some(Done(Parked))
      ensures old(s.AllFine()) && a.tx == Silent ==> e == Some(Done(MintFailed))
    {
      hide Inv, WithinAllowance, TierUsage, RefLive, TierForAmount, Lives, After, StillHeld, OnlyTouched, ApplyAt,
           Apply;
      ghost var at := s.at;
      LivesYet(s.fate, at);
      RowIsTrue(Snap(), shop, h);
      EndsOfAnAttempt(t.rows, h, now);
      TierLeavesHeld(t.rows, h, now);
      if a.tx == Broken { return Some(Threw); }
      if a.tx == Silent {
        var failed := Fail(h, now);
        return Some(failed);
      }
      var tier := TierForAmount(h.value, shop.tiers);
      var addressed := h.to == Some(shop.wallet);
      var sender := t.rows[h].from;
      if addressed && tier.Some? && t.rows[h].tier != tier {
        var fate := CorrectTier(h, tier.value, now);
        if fate != Fine { return Some(Interrupted(fate)); }
      }
      if !addressed || tier.None? || sender != h.from {
        ghost var mid, later := t.rows, s.at;
        EndsOfAnAttempt(mid, h, now);
        var parked := Park(h, now);
        HeldThenAfter(old(t.rows), mid, t.rows, h, parked);
        LivesOn(s.fate, at, later, s.at, parked == Died);
        return Some(parked);
      }
      e := None;
    }

    method CorrectTier(h: Hash, tier: TierId, now: int) returns (fate: Fate)
      requires Valid() && Holding(h) && TierForAmount(h.value, shop.tiers) == Some(tier)
      modifies t`rows, s
      ensures Valid() && (old(Within()) ==> Within())
      ensures fate == old(s.fate(s.at)) && s.at == old(s.at) + 1 && (old(s.AllFine()) ==> s.AllFine())
      ensures t.rows == if fate == Fine then ApplyAt(old(t.rows), h, SetTier(tier), now) else old(t.rows)
    {
      fate := s.Tick();
      if fate != Fine { return; }
      SetTierKeepsInv(Snap(), shop, h, now);
      if RefLive(Snap(), h) { LiveIsBacked(Snap(), shop, h); }
      UpdateAddsNothing(Snap(), shop, h, SetTier(tier), now);
      if Within() { NothingAddedKeeps(Snap(), Updated(Snap(), h, SetTier(tier), now), shop); }
      t.Update(h, SetTier(tier), now);
    }

    /** One below the usage must be below the allowance: the payment asking is itself counted. */
    predicate SlotFree(rows: Rows, h: Hash)
      requires h in rows
    {
      TierUsage(rows, rows[h].from, TierById(rows[h].tier)) - 1 < shop.tiers.Get(TierById(rows[h].tier)).maxPerWallet
    }

    /** The allowance, counted again with every earlier payment of this pass already settled. */
    method CheckAllowance(h: Hash, now: int) returns (e: Option<Ended>)
      requires Valid() && Holding(h)
      modifies t`rows, s
      ensures Valid() && (old(Within()) ==> Within())
      ensures e.Some? ==> After(old(t.rows), t.rows, h, e.value)
      ensures e != Some(Done(FreshlyMinted)) && (e == Some(Done(Parked)) ==> !SlotFree(old(t.rows), h))
      ensures e.None? ==> t.rows == old(t.rows) && SlotFree(t.rows, h)
      ensures old(s.AllFine()) ==> s.AllFine() && e == if SlotFree(old(t.rows), h) then None else Some(Done(Parked))
      ensures s.fate(old(s.at)) != Fine ==> e == Some(Interrupted(s.fate(old(s.at))))
      ensures Lives(s.fate, old(s.at), s.at, e == Some(Died))
    {
      hide Inv, WithinAllowance, Lives;
      ghost var at := s.at;
      LivesYet(s.fate, at);
      var fate := s.Tick();
      if fate != Fine { return Some(Interrupted(fate)); }
      if !SlotFree(t.rows, h) {
        var parked := Park(h, now);
        LivesOn(s.fate, at, at + 1, s.at, parked == Died);
        return Some(parked);
      }
      e := None;
    }

    /** A dry run of mintFor. It may lag behind the chain; a lagging one passes. */
    method Simulate(h: Hash, a: Attempt, now: int) returns (e: Option<Ended>)
      requires Valid() && Holding(h)
      modifies t`rows, n, s
      ensures Valid() && (old(Within()) ==> Within())
      ensures old(s.AllFine()) ==> s.AllFine() && e != Some(Died)
      ensures e.Some? ==> After(old(t.rows), t.rows, h, e.value)
      ensures e.None? ==> t.rows == old(t.rows)
      ensures e == Some(Done(Parked)) ==> a.sim == SimWalletLimit
      ensures old(s.AllFine()) && a.sim == SimWalletLimit ==> e == Some(Done(Parked))
      ensures old(s.AllFine()) && a.sim == SimOther ==> e == Some(Done(MintFailed))
      ensures Lives(s.fate, old(s.at), s.at, e == Some(Died))
      ensures e != Some(Done(FreshlyMinted))
      ensures (a.sim == SimTruthful && !RefUsed(f.minted, h)) || a.sim == SimStale ==> e.None?
      ensures old(s.AllFine()) && a.sim == SimTruthful && RefUsed(f.minted, h) && a.log == Truthful ==>
                e == Some(Done(AlreadyMinted))
    {
      hide Inv, WithinAllowance, Lives;
      LivesYet(s.fate, s.at);
      var used := f.PaymentRefUsed(h);
      var r;
      match a.sim {
        case SimTruthful =>
          if !used { return None; }
          r := ResolveAlreadyMinted(h, a, now);
        case SimStale =>
          return None;
        case SimWalletLimit =>
          r := Park(h, now);
        case SimOther =>
          r := Fail(h, now);
      }
      e := Some(r);
    }

    /** mintFor leaves for the chain; `landed` is the id if it was mined and accepted before the receipt came. */
    method Broadcast(h: Hash, land: bool) returns (id: Option<nat>)
      requires Valid() && Holding(h) && Genuine(h) && t.rows[h].tier == TierForAmount(h.value, shop.tiers)
      requires SlotFree(t.rows, h)
      modifies f`minted, f`pending
      ensures Valid() && (old(Within()) ==> Within())
      ensures id.Some? ==> IsNode(Snap(), id.value) && f.minted[id.value - 1].ref == h
      ensures id.Some? ==> !RefUsed(old(f.minted), h)
      ensures land && !RefUsed(old(f.minted), h) ==> id.Some?
      ensures old(f.minted) <= f.minted
      ensures land && RefUsed(old(f.minted), h) ==> f.minted == old(f.minted)
      ensures RefLive(Snap(), h)
      ensures OthersNotLive(old(Snap()), Snap(), h)
    {
      ghost var before := Snap();
      var m := Mint(h.from, h);
      assert RowOk(before, shop, h);
      SendKeepsInv(before, shop, h);
      if Within() { CheckedSendStaysWithin(before, shop, h); }
      f.pending := f.pending + {m};
      ghost var sent := Snap();
      assert sent == Sent(before, m);
      SendOwn(before, m);
      id := None;
      if land {
        LandKeepsInv(sent, shop, m);
        SameRowsAddNothing(sent, Landed(sent, m));
        id := f.Land(m);
        assert Snap() == Landed(sent, m);
        if old(Within()) { NothingAddedKeeps(sent, Snap(), shop); }
      }
    }

    /** No other payment's mint came to life. */
    static ghost predicate OthersNotLive(before: Sys, after: Sys, h: Hash) {
      forall k :: k != h && RefLive(after, k) ==> RefLive(before, k)
    }

    static lemma SendOwn(before: Sys, m: Mint)
      ensures OthersNotLive(before, Sent(before, m), m.ref)
    {
    }

    /** Send, and act on the receipt if one comes. */
    method SendMint(h: Hash, a: Attempt, now: int) returns (e: Ended)
      requires Valid() && Holding(h) && Genuine(h) && t.rows[h].tier == TierForAmount(h.value, shop.tiers)
      requires SlotFree(t.rows, h)
      modifies t`rows, n, f`minted, f`pending, s
      ensures Valid() && (old(Within()) ==> Within())
      ensures old(s.AllFine()) ==> s.AllFine() && e != Died
      ensures old(f.minted) <= f.minted
      ensures OthersNotLive(old(Snap()), Snap(), h)
      ensures After(old(t.rows), t.rows, h, e)
      ensures e != Done(Parked) && (e == Done(FreshlyMinted) ==> !RefUsed(old(f.minted), h))
      ensures old(s.AllFine()) && a.send == Accepted(true) && !RefUsed(old(f.minted), h) ==> e == Done(FreshlyMinted)
      ensures old(s.AllFine()) && Answers(a) && RefUsed(f.minted, h) ==>
                e == Done(FreshlyMinted) || e == Done(AlreadyMinted)
      ensures a.send == NoReceipt || a.send == Unsent(true) ==> RefLive(Snap(), h) && e == Threw
      ensures a.send == Unsent(false) ==> f.minted == old(f.minted) && f.pending == old(f.pending) && e == Threw
      ensures old(s.AllFine()) && a.send == Accepted(false) && !RefUsed(old(f.minted), h) ==> e == Done(MintFailed)
      ensures Lives(s.fate, old(s.at), s.at, e == Died)
    {
      hide Inv, WithinAllowance, SlotFree, TierUsage, Lives, After, OnlyTouched, ApplyAt, Apply;
      LivesYet(s.fate, s.at);
      EndsOfAnAttempt(t.rows, h, now);
      EndsMinted(t.rows, h, now);
      if a.send == Unsent(false) { return Threw; }
      if a.send.Unsent? || a.send.NoReceipt? {
        var unknown := Broadcast(h, false);
        return Threw;
      }
      var id: Option<nat> := None;
      if a.send.Accepted? { id := Broadcast(h, true); }
      if id.None? {
        e := Recheck(h, a, now);
        return;
      }
      if !a.send.logged {
        e := Fail(h, now);
        return;
      }
      var ok;
      ok, e := Settle(h, id.value, a, now);
      if ok { e := Done(FreshlyMinted); }
    }

    /** Simulated fine and reverted anyway: ask the contract before calling it a failure. */
    method Recheck(h: Hash, a: Attempt, now: int) returns (e: Ended)
      requires Valid() && Holding(h)
      modifies t`rows, n, s
      ensures Valid() && (old(Within()) ==> Within())
      ensures old(s.AllFine()) ==> s.AllFine() && e != Died
      ensures After(old(t.rows), t.rows, h, e)
      ensures e != Done(Parked) && e != Done(FreshlyMinted)
      ensures old(s.AllFine()) && RefUsed(f.minted, h) && a.usedAgain == Truthful && a.log == Truthful ==>
                e == Done(AlreadyMinted)
      ensures old(s.AllFine()) && a.usedAgain != Broken && !RefUsed(f.minted, h) ==> e == Done(MintFailed)
      ensures a.usedAgain == Broken ==> e == Threw
      ensures Lives(s.fate, old(s.at), s.at, e == Died)
    {
      hide Inv, WithinAllowance, Lives;
      LivesYet(s.fate, s.at);
      if a.usedAgain == Broken { return Threw; }
      var used := f.PaymentRefUsed(h);
      if used && a.usedAgain == Truthful {
        e := ResolveAlreadyMinted(h, a, now);
      } else {
        e := Fail(h, now);
      }
    }

    /**
     * One attempt at one payment, from the re-read to the last write, with older
     * mints landing around it and a crash possible at every statement.
     */
    method MintOne(h: Hash, a: Attempt, now: int) returns (e: Ended)
      requires Valid() && Holding(h)
      modifies t`rows, n, f`minted, f`pending, s
      ensures Valid() && (old(Within()) ==> Within())
      ensures old(s.AllFine()) ==> s.AllFine() && e != Died
      ensures old(f.minted) <= f.minted
      ensures OthersNotLive(old(Snap()), Snap(), h)
      ensures After(old(t.rows), t.rows, h, e)
      ensures e == Done(Parked) && Genuine(h) && old(t.rows)[h].tier == TierForAmount(h.value, shop.tiers) ==>
                !SlotFree(old(t.rows), h) || a.sim == SimWalletLimit
      ensures old(s.AllFine()) && a.tx == Truthful && !Genuine(h) ==> e == Done(Parked)
      ensures old(s.AllFine()) && a.tx == Silent ==> e == Done(MintFailed)
      ensures e == Done(FreshlyMinted) ==> !RefUsed(old(f.minted), h)
      ensures old(s.AllFine()) && ReadsWell(a) && RefUsed(old(f.minted), h) ==> e == Done(AlreadyMinted)
      ensures old(s.AllFine()) && Undisturbed(a) && Genuine(h) && !RefUsed(old(f.minted), h) &&
              old(t.rows)[h].tier == TierForAmount(h.value, shop.tiers) ==>
                e == Done(if SlotFree(old(t.rows), h) then FreshlyMinted else Parked)
      ensures old(s.AllFine()) && ReadsWell(a) && NoAlarm(a) && Genuine(h) && SlotFree(old(t.rows), h) &&
              RefUsed(f.minted, h) && old(t.rows)[h].tier == TierForAmount(h.value, shop.tiers) ==>
                e == Done(FreshlyMinted) || e == Done(AlreadyMinted)
      ensures a.tx == Broken ==> e == Threw
      ensures old(s.AllFine()) && a.tx == Truthful && Genuine(h) && a.used == Broken ==> e == Threw
      ensures e == Done(Parked) ==> a.tx == Truthful
      ensures Lives(s.fate, old(s.at), s.at, e == Died)
    {
      hide Inv, WithinAllowance, SlotFree, TierForAmount, Lives, Drifted;
      ghost var at := s.at;
      if RefUsed(f.minted, h) { LiveIsBacked(Snap(), shop, h); }
      Drift(a.before);
      if RefUsed(old(f.minted), h) { RefUsedStays(old(f.minted), f.minted, h); }
      var v := VerifyPayment(h, a, now);
      if v.Some? { return v.value; }
      ghost var verified, later := t.rows, s.at;
      if a.used == Broken { return Threw; }
      var used := f.PaymentRefUsed(h);
      if used && a.used == Truthful {
        e := ResolveAlreadyMinted(h, a, now);
      } else {
        e := MintVerified(h, a, now);
      }
      HeldThenAfter(old(t.rows), verified, t.rows, h, e);
      LivesOn(s.fate, at, later, s.at, e == Died);
    }

    /** The payment is genuine and, as far as could be read, has no node yet. */
    method MintVerified(h: Hash, a: Attempt, now: int) returns (e: Ended)
      requires Valid() && Holding(h) && Genuine(h) && t.rows[h].tier == TierForAmount(h.value, shop.tiers)
      modifies t`rows, n, f`minted, f`pending, s
      ensures Valid() && (old(Within()) ==> Within())
      ensures old(s.AllFine()) ==> s.AllFine() && e != Died
      ensures old(f.minted) <= f.minted
      ensures OthersNotLive(old(Snap()), Snap(), h)
      ensures After(old(t.rows), t.rows, h, e)
      ensures e == Done(Parked) ==> !SlotFree(old(t.rows), h) || a.sim == SimWalletLimit
      ensures old(s.AllFine()) && !SlotFree(old(t.rows), h) ==> e == Done(Parked)
      ensures e == Done(FreshlyMinted) ==> !RefUsed(old(f.minted), h)
      ensures old(s.AllFine()) && Undisturbed(a) && !RefUsed(old(f.minted), h) ==>
                e == Done(if SlotFree(old(t.rows), h) then FreshlyMinted else Parked)
      ensures old(s.AllFine()) && NoAlarm(a) && SlotFree(old(t.rows), h) && RefUsed(f.minted, h) ==>
                e == Done(FreshlyMinted) || e == Done(AlreadyMinted)
      ensures old(s.AllFine()) && SlotFree(old(t.rows), h) && a.sim == SimWalletLimit ==> e == Done(Parked)
      ensures old(s.AllFine()) && SlotFree(old(t.rows), h) && a.sim == SimOther ==>
                e == Done(MintFailed) && f.minted == old(f.minted) && f.pending == old(f.pending)
      ensures Lives(s.fate, old(s.at), s.at, e == Died)
    {
      hide Inv, WithinAllowance, After, SlotFree, Genuine, TierForAmount, RefUsed, Lives;
      ghost var at := s.at;
      var gate := CheckAllowance(h, now);
      if gate.Some? { return gate.value; }
      ghost var mid := s.at;
      gate := Simulate(h, a, now);
      LivesOn(s.fate, at, mid, s.at, gate == Some(Died));
      if gate.Some? { return gate.value; }
      ghost var later := s.at;
      Drift(a.during);
      if RefUsed(old(f.minted), h) { RefUsedStays(old(f.minted), f.minted, h); }
      e := SendMint(h, a, now);
      LivesOn(s.fate, at, later, s.at, e == Died);
    }

    /* ------------------------------------------------------------- the pass */

    /** One claimed payment: whatever is thrown becomes one counted failure. */
    method AttemptOne(h: Hash, a: Attempt, now: int) returns (e: Ended)
      requires Valid() && Holding(h)
      modifies t`rows, n, f`minted, f`pending, s
      ensures Valid() && (old(Within()) ==> Within())
      ensures old(s.AllFine()) ==> s.AllFine() && e.Done?
      ensures After(old(t.rows), t.rows, h, e)
      ensures old(f.minted) <= f.minted
      ensures OthersNotLive(old(Snap()), Snap(), h)
      ensures old(s.AllFine()) && ReadsWell(a) && RefUsed(old(f.minted), h) ==> e == Done(AlreadyMinted)
      ensures old(s.AllFine()) && Smooth(old(Snap()), h, a) ==>
                e == Done(if SlotFree(old(t.rows), h) then FreshlyMinted else Parked)
      ensures e == Done(Parked) ==>
                a.tx == Truthful &&
                (Genuine(h) && old(t.rows)[h].tier == TierForAmount(h.value, shop.tiers) ==>
                   !SlotFree(old(t.rows), h) || a.sim == SimWalletLimit)
      ensures old(s.AllFine()) && a.tx != Truthful ==> e == Done(MintFailed)
      ensures old(s.AllFine()) && a.tx == Truthful && Genuine(h) && a.used == Broken ==> e == Done(MintFailed)
      ensures Lives(s.fate, old(s.at), s.at, e == Died)
    {
      hide Inv, WithinAllowance, Lives, SlotFree, OthersNotLive;
      ghost var at := s.at;
      e := MintOne(h, a, now);
      if e == Threw {
        ghost var mid, later := Snap(), s.at;
        e := Fail(h, now);
        LivesOn(s.fate, at, later, s.at, e == Died);
        HeldThenAfter(old(t.rows), mid.rows, t.rows, h, e);
        SameLive(old(Snap()), mid, Snap(), h);
      }
    }

    static lemma SameLive(before: Sys, mid: Sys, after: Sys, h: Hash)
      requires OthersNotLive(before, mid, h) && after.minted == mid.minted && after.pending == mid.pending
      ensures OthersNotLive(before, after, h)
    {
      forall k | k != h && RefLive(after, k) ensures RefLive(before, k) { SameRefs(mid, after, k); }
    }

    /** A first attempt with nothing in its way. */
    ghost predicate Smooth(at: Sys, h: Hash, a: Attempt) {
      && Undisturbed(a) && Genuine(h) && !RefLive(at, h)
      && h in at.rows && at.rows[h].tier == TierForAmount(h.value, shop.tiers)
    }

    ghost predicate AllSmooth(at: Sys, claimed: seq<Hash>, i: nat, attempts: Hash -> Attempt, late: nat -> bool) {
      forall j: nat :: i <= j < |claimed| ==> !late(j) && Smooth(at, claimed[j], attempts(claimed[j]))
    }

    /**
     * What the pass reports of a payment is what its row shows: it is the same payment, and only
     * a failure has cost it an attempt.
     */
    static predicate Shows(before: Row, row: Row, e: Ended) {
      && SamePayment(before, row.(tier := before.tier))
      && row.attempts == (if e == Done(MintFailed) then before.attempts + 1 else before.attempts)
      && match e
         case Done(FreshlyMinted) => row.status == Minted
         case Done(AlreadyMinted) => row.status == Minted
         case Done(MintFailed) => row.status == if row.attempts >= MAX_MINT_ATTEMPTS then ManualReview else Failed
         case Done(Parked) => row.status == ManualReview
         case _ => row.status == Minting
    }

    /** Payments not claimed are as they were; claimed ones show what was reported, or are still held. */
    static ghost predicate Worked(before: Rows, after: Rows, claimed: seq<Hash>, ended: seq<Ended>) {
      && after.Keys == before.Keys && |ended| <= |claimed|
      && (forall h :: h in before && h !in claimed ==> after[h] == before[h])
      && forall i :: 0 <= i < |claimed| ==>
           claimed[i] in before && Shows(before[claimed[i]], after[claimed[i]], if i < |ended| then ended[i] else Threw)
    }

    /** A payment whose ref the contract had already used is reported minted, on the node that was minted then. */
    static ghost predicate RetriesSettle(minted: seq<Mint>, claimed: seq<Hash>, attempts: Hash -> Attempt,
                                         ended: seq<Ended>) {
      && |ended| <= |claimed|
      && forall i :: 0 <= i < |ended| && RefUsed(minted, claimed[i]) && ReadsWell(attempts(claimed[i])) ==>
           ended[i] == Done(AlreadyMinted)
    }

    static ghost predicate Distinct(claimed: seq<Hash>) {
      forall i, j :: 0 <= i < j < |claimed| ==> claimed[i] != claimed[j]
    }

    lemma NothingWorkedYet(rows: Rows, claimed: seq<Hash>)
      requires forall h :: h in claimed ==> h in rows && rows[h].status == Minting
      ensures Worked(rows, rows, claimed, [])
    {
      forall i | 0 <= i < |claimed| ensures claimed[i] in rows && Shows(rows[claimed[i]], rows[claimed[i]], Threw) {
        assert claimed[i] in claimed;
      }
    }

    lemma StillToDo(before: Rows, after: Rows, claimed: seq<Hash>, ended: seq<Ended>)
      requires Worked(before, after, claimed, ended) && |ended| < |claimed|
      ensures claimed[|ended|] in after && after[claimed[|ended|]].status == Minting
    {
    }

    lemma WorkedStep(before: Rows, mid: Rows, after: Rows, claimed: seq<Hash>, ended: seq<Ended>, e: Ended)
      requires Worked(before, mid, claimed, ended) && Distinct(claimed) && |ended| < |claimed|
      requires After(mid, after, claimed[|ended|], e)
      ensures Worked(before, after, claimed, if e.Done? then ended + [e] else ended)
    {
      forall i | 0 <= i < |claimed| && i != |ended| ensures after[claimed[i]] == mid[claimed[i]] {
        assert claimed[i] != claimed[|ended|];
      }
    }

    static lemma SettleNothing(minted: seq<Mint>, claimed: seq<Hash>, attempts: Hash -> Attempt)
      ensures RetriesSettle(minted, claimed, attempts, [])
    {
    }

    static lemma SettleStep(minted: seq<Mint>, later: seq<Mint>, claimed: seq<Hash>, attempts: Hash -> Attempt,
                            ended: seq<Ended>, e: Ended)
      requires RetriesSettle(minted, claimed, attempts, ended) && |ended| < |claimed| && minted <= later
      requires ReadsWell(attempts(claimed[|ended|])) && RefUsed(later, claimed[|ended|]) ==> e == Done(AlreadyMinted)
      ensures RetriesSettle(minted, claimed, attempts, ended + [e])
    {
      if RefUsed(minted, claimed[|ended|]) { RefUsedStays(minted, later, claimed[|ended|]); }
    }

    lemma NextSmooth(at: Sys, claimed: seq<Hash>, i: nat, attempts: Hash -> Attempt, late: nat -> bool)
      requires i < |claimed| && AllSmooth(at, claimed, i, attempts, late)
      ensures !late(i) && Smooth(at, claimed[i], attempts(claimed[i]))
    {
    }

    lemma SmoothStep(before: Rows, mid: Sys, after: Sys, claimed: seq<Hash>, i: nat, attempts: Hash -> Attempt,
                     late: nat -> bool, e: Ended)
      requires Distinct(claimed) && i < |claimed| && forall h :: h in claimed ==> h in before
      requires AllSmooth(mid, claimed, i, attempts, late) && Agree(mid.rows, CleanPass(before, claimed[..i], shop))
      requires After(mid.rows, after.rows, claimed[i], e) && OthersNotLive(mid, after, claimed[i])
      requires e == Done(if SlotFree(mid.rows, claimed[i]) then FreshlyMinted else Parked)
      ensures AllSmooth(after, claimed, i + 1, attempts, late)
      ensures Agree(after.rows, CleanPass(before, claimed[..i + 1], shop))
    {
      hide Agree, SlotFree, CleanAttempt;
      var h := claimed[i];
      assert Smooth(mid, h, attempts(h));
      assert claimed[..i + 1][..i] == claimed[..i];
      AgreeStep(mid.rows, CleanPass(before, claimed[..i], shop), after.rows, h);
      hide CleanPass;
      StaySmooth(mid, after, claimed, i, attempts, late);
    }

    lemma StaySmooth(mid: Sys, after: Sys, claimed: seq<Hash>, i: nat, attempts: Hash -> Attempt, late: nat -> bool)
      requires Distinct(claimed) && i < |claimed| && AllSmooth(mid, claimed, i, attempts, late)
      requires OnlyTouched(mid.rows, after.rows, claimed[i]) && OthersNotLive(mid, after, claimed[i])
      ensures AllSmooth(after, claimed, i + 1, attempts, late)
    {
      hide RefLive, Undisturbed;
      forall j: nat | i + 1 <= j < |claimed| ensures !late(j) && Smooth(after, claimed[j], attempts(claimed[j])) {
        assert claimed[j] != claimed[i] && Smooth(mid, claimed[j], attempts(claimed[j]));
      }
    }

    lemma AgreeStep(mid: Rows, clean: Rows, after: Rows, h: Hash)
      requires Agree(mid, clean) && OnlyTouched(mid, after, h) && mid[h].tier == TierForAmount(h.value, shop.tiers)
      requires after[h].status == if SlotFree(mid, h) then Minted else ManualReview
      ensures Agree(after, CleanAttempt(clean, h, shop))
    {
      hide SlotFree, CleanAttempt, TierForAmount, TierById, TierUsage;
      AgreeOnUsage(mid, clean, mid[h].from, TierById(mid[h].tier));
      CleanAttemptIs(mid, clean, h);
    }

    lemma CleanAttemptIs(mid: Rows, clean: Rows, h: Hash)
      requires h in mid && h in clean && mid[h].from == clean[h].from && mid[h].tier == clean[h].tier
      requires TierUsage(mid, mid[h].from, TierById(mid[h].tier))
           == TierUsage(clean, mid[h].from, TierById(mid[h].tier))
      ensures CleanAttempt(clean, h, shop)
           == clean[h := clean[h].(status := if SlotFree(mid, h) then Minted else ManualReview)]
    {
    }

    /** The claimed payments, one at a time, until time runs out or the process dies. */
    method Attempts(claimed: seq<Hash>, attempts: Hash -> Attempt, late: nat -> bool, now: int)
      returns (ended: seq<Ended>)
      requires Valid() && Distinct(claimed) && forall h :: h in claimed ==> Holding(h)
      modifies t`rows, n, f`minted, f`pending, s
      ensures Valid() && (old(Within()) ==> Within())
      ensures Worked(old(t.rows), t.rows, claimed, ended)
      ensures old(s.AllFine()) ==> |ended| == |claimed| || late(|ended|)
      ensures OnTime(late, |ended|)
      ensures Mortal(s.fate, old(s.at), s.at)
      ensures old(s.AllFine()) ==> RetriesSettle(old(f.minted), claimed, attempts, ended)
      ensures old(s.AllFine()) && AllSmooth(old(Snap()), claimed, 0, attempts, late) ==>
                Agree(t.rows, CleanPass(old(t.rows), claimed, shop))
    {
      hide Inv, WithinAllowance, Agree, OthersNotLive, Smooth, AllSmooth, Worked, After, SlotFree, RetriesSettle,
           RefUsed, ReadsWell, CleanPass, Lives, Genuine, OnTime, Undisturbed, Answers, NoAlarm;
      ended := [];
      OnTimeYet(late, 0);
      NothingCleanYet(t.rows, claimed);
      NothingWorkedYet(t.rows, claimed);
      ghost var before := Snap();
      ghost var fine := s.AllFine();
      ghost var clean := fine && AllSmooth(before, claimed, 0, attempts, late);
      SettleNothing(f.minted, claimed, attempts);
      LivesYet(s.fate, s.at);
      for i := 0 to |claimed|
        invariant Valid() && (old(Within()) ==> Within())
        invariant |ended| == i && Worked(old(t.rows), t.rows, claimed, ended)
        invariant OnTime(late, i)
        invariant Lives(s.fate, old(s.at), s.at, false)
        invariant fine ==> s.AllFine() && RetriesSettle(old(f.minted), claimed, attempts, ended)
        invariant old(f.minted) <= f.minted
        invariant clean ==> AllSmooth(Snap(), claimed, i, attempts, late)
        invariant clean ==> Agree(t.rows, CleanPass(old(t.rows), claimed[..i], shop))
      {
        ghost var mid, minted, at := Snap(), f.minted, s.at;
        if clean { NextSmooth(mid, claimed, i, attempts, late); }
        if late(i) { return; }
        OnTimeYet(late, i);
        StillToDo(old(t.rows), t.rows, claimed, ended);
        var e := AttemptOne(claimed[i], attempts(claimed[i]), now);
        WorkedStep(old(t.rows), mid.rows, t.rows, claimed, ended, e);
        LivesOn(s.fate, old(s.at), at, s.at, e == Died);
        if fine { SettleStep(old(f.minted), minted, claimed, attempts, ended, e); }
        if clean { SmoothStep(old(t.rows), mid, Snap(), claimed, i, attempts, late, e); }
        if !e.Done? { return; }
        ended := ended + [e];
      }
      assert claimed[..|claimed|] == claimed;
    }

    lemma NothingCleanYet(rows: Rows, claimed: seq<Hash>)
      requires forall h :: h in claimed ==> h in rows
      ensures Agree(rows, CleanPass(rows, claimed[..0], shop))
    {
    }

    /** claimForMinting: due payments leave the queue in the statement that reads them. */
    method Claim(limit: nat, now: int) returns (fate: Fate, claimed: seq<Hash>)
      requires Valid()
      modifies t`rows, s
      ensures Valid() && (old(Within()) ==> Within())
      ensures fate == old(s.fate(s.at)) && s.at == old(s.at) + 1 && (old(s.AllFine()) ==> s.AllFine())
      ensures fate != Fine ==> claimed == [] && t.rows == old(t.rows)
      ensures fate == Fine ==> IsFirst(Queue(old(t.rows)), QueueOrder(old(t.rows)), limit, claimed)
      ensures fate == Fine ==> t.rows == Taken(old(t.rows), claimed, now)
      ensures Distinct(claimed) && forall h :: h in claimed ==> Holding(h)
    {
      hide Inv, WithinAllowance, QueueOrder, AddsNothing;
      claimed := [];
      fate := s.Tick();
      if fate != Fine { return; }
      ghost var before := Snap();
      claimed := t.ClaimForMinting(limit, now);
      UpdateAllKeepsInv(before, shop, (set h | h in claimed), ClaimRow, now);
      UpdateAllAddsNothing(before, (set h | h in claimed), ClaimRow, now);
      if old(Within()) { NothingAddedKeeps(before, Snap(), shop); }
    }

    /** The key is not the factory's relayer: every claimed payment goes back, with one failure counted. */
    method PutBack(claimed: seq<Hash>, now: int) returns (ended: seq<Ended>)
      requires Valid() && Distinct(claimed) && forall h :: h in claimed ==> Holding(h)
      modifies t`rows, s
      ensures Valid() && (old(Within()) ==> Within())
      ensures Worked(old(t.rows), t.rows, claimed, ended)
      ensures forall e :: e in ended ==> e == Done(MintFailed)
      ensures old(s.AllFine()) ==> |ended| == |claimed|
      ensures Mortal(s.fate, old(s.at), s.at)
    {
      hide Inv, WithinAllowance, Worked, Lives;
      LivesYet(s.fate, s.at);
      ended := [];
      ghost var fine := s.AllFine();
      NothingWorkedYet(t.rows, claimed);
      for i := 0 to |claimed|
        invariant Valid() && (old(Within()) ==> Within())
        invariant |ended| == i && Worked(old(t.rows), t.rows, claimed, ended)
        invariant forall e :: e in ended ==> e == Done(MintFailed)
        invariant fine ==> s.AllFine()
        invariant Lives(s.fate, old(s.at), s.at, false)
      {
        ghost var mid, at := t.rows, s.at;
        StillToDo(old(t.rows), t.rows, claimed, ended);
        var e := Fail(claimed[i], now);
        LivesOn(s.fate, old(s.at), at, s.at, e == Died);
        WorkedStep(old(t.rows), mid, t.rows, claimed, ended, e);
        if !e.Done? { return; }
        ended := ended + [e];
      }
    }

    /**
     * One relay pass. Exactly the first due payments are touched, each shows what
     * was reported of it or is still held, and with nothing in the way the queue
     * ends as the failure-free sequence says. `authorised` is None when the relayer
     * role could not be read.
     */
    method RunMintRelay(limit: nat, authorised: Option<bool>, attempts: Hash -> Attempt, late: nat -> bool, now: int)
      returns (claimed: seq<Hash>, ended: seq<Ended>)
      requires Valid()
      modifies t`rows, n, f`minted, f`pending, s
      ensures Valid() && (old(Within()) ==> Within())
      ensures if s.fate(old(s.at)) == Fine then IsFirst(Queue(old(t.rows)), QueueOrder(old(t.rows)), limit, claimed)
              else claimed == [] && t.rows == old(t.rows)
      ensures claimed == [] && old(s.AllFine()) ==> limit == 0 || Queue(old(t.rows)) == {}
      ensures Worked(Taken(old(t.rows), claimed, now), t.rows, claimed, ended)
      ensures authorised != Some(true) ==>
                f.minted == old(f.minted) && f.pending == old(f.pending) && n.nodes == old(n.nodes) &&
                n.timers == old(n.timers) && forall e :: e in ended ==> e == Done(MintFailed)
      ensures authorised == Some(false) && old(s.AllFine()) ==> |ended| == |claimed|
      ensures Mortal(s.fate, old(s.at), s.at)
      ensures authorised == Some(true) && old(s.AllFine()) ==> |ended| == |claimed| || late(|ended|)
      ensures authorised == Some(true) ==> OnTime(late, |ended|)
      ensures authorised == Some(true) && old(s.AllFine()) ==> RetriesSettle(old(f.minted), claimed, attempts, ended)
      ensures authorised == Some(true) && old(s.AllFine()) && AllSmooth(old(Snap()), claimed, 0, attempts, late) ==>
                Agree(t.rows, CleanPass(Taken(old(t.rows), claimed, now), claimed, shop))
    {
      hide Inv, WithinAllowance, Agree, Smooth, AllSmooth, Claimable, Orders, QueueOrder, Lives, Worked, RetriesSettle,
           CleanPass, OnlyStatusMoved;
      var fate;
      ended := [];
      ghost var at := s.at;
      LivesYet(s.fate, at);
      fate, claimed := Claim(limit, now);
      if claimed == [] {
        NothingTaken(old(t.rows), t.rows, now);
        SettleNothing(f.minted, claimed, attempts);
        return;
      }
      NothingWorkedYet(t.rows, claimed);
      if authorised.None? { return; }
      if !authorised.value {
        ended := PutBack(claimed, now);
        LivesThen(s.fate, at, at + 1, s.at);
        return;
      }
      ClaimedStaySmooth(old(Snap()), Snap(), claimed, attempts, late, now);
      ended := Attempts(claimed, attempts, late, now);
      LivesThen(s.fate, at, at + 1, s.at);
    }

    /* ------------------------------------------------------------ reconciling */

    static function NewestFirst(): (nat, nat) -> bool {
      (x: nat, y: nat) => x >= y
    }

    /** What was taken is newer than what was left, and nothing is left but for the limit. */
    static ghost predicate NewestOf(eligible: set<nat>, limit: nat, missing: seq<nat>) {
      && (forall x :: x in missing ==> x in eligible)
      && (forall x, y :: x in missing && y in eligible && y !in missing ==> y < x)
      && ((exists y :: y in eligible && y !in missing) ==> |missing| == limit)
    }

    /** The newest nodes without a ledger row. */
    method NewestMissing(total: nat, nodes: map<nat, NodeRow>, limit: nat) returns (missing: seq<nat>)
      ensures IsFirst(Unrecorded(total, nodes), NewestFirst(), limit, missing)
      ensures NewestOf(Unrecorded(total, nodes), limit, missing)
    {
      missing := TakeFirst(Unrecorded(total, nodes), NewestFirst(), limit);
      NewestAreTaken(Unrecorded(total, nodes), limit, missing);
    }

    static lemma UnrecordedAreNodes(sys: Sys, limit: nat, missing: seq<nat>)
      requires NewestOf(Unrecorded(|sys.minted|, sys.nodes), limit, missing)
      ensures forall x :: x in missing ==> IsNode(sys, x)
    {
    }

    static lemma NewestAreTaken(eligible: set<nat>, limit: nat, missing: seq<nat>)
      requires IsFirst(eligible, NewestFirst(), limit, missing)
      ensures NewestOf(eligible, limit, missing)
    {
      var taken := set x | x in missing;
      DistinctSize(missing);
      if taken != eligible && |missing| == |eligible| {
        SubsetSize(taken, eligible);
        SameSize(taken, eligible);
      }
    }

    static lemma SameSize(a: set<nat>, b: set<nat>)
      requires a <= b && |a| == |b|
      ensures a == b
    {
      assert |b - a| == |b| - |a|;
    }

    /** Nodes the factory has and the ledger does not. */
    static function Unrecorded(total: nat, nodes: map<nat, NodeRow>): set<nat> {
      set id: nat | 1 <= id <= total && id !in nodes
    }

    /**
     * Bring the ledger level with the chain, newest missing nodes first. A node
     * whose log is not visible, or whose owner reads differently today, is left alone.
     */
    method ReconcileNodes(maxNodes: int, visible: nat -> bool, ownerToday: nat -> Option<Address>, next: nat -> int)
      returns (fate: Fate, missing: seq<nat>)
      requires Valid()
      modifies n, s
      ensures Valid() && (old(Within()) ==> Within())
      ensures old(s.AllFine()) ==> s.AllFine() && fate == Fine
      ensures fate != Fine ==> n.nodes == old(n.nodes) && n.timers == old(n.timers)
      ensures fate == Fine <==> s.fate(old(s.at)) == Fine && s.fate(old(s.at) + 1) == Fine
      ensures s.fate(old(s.at)) != Fine ==> fate == s.fate(old(s.at))
      ensures fate == Fine ==>
                Reconciled(f.minted, old(n.nodes), n.nodes, missing, Max(1, Min(maxNodes, 500)), visible, ownerToday)
      ensures fate == Fine ==>
                IsFirst(Unrecorded(|f.minted|, old(n.nodes)), NewestFirst(), Max(1, Min(maxNodes, 500)), missing)
      ensures fate == Fine ==>
                NewestOf(Unrecorded(|f.minted|, old(n.nodes)), Max(1, Min(maxNodes, 500)), missing)
      ensures forall id :: id in n.timers && id !in old(n.timers) ==> n.timers[id] == next(id)
      ensures Keeps(old(n.nodes), n.nodes) && Keeps(old(n.timers), n.timers)
    {
      hide Inv, WithinAllowance, IsFirst, IsNode, IsNodeOf, NewestOf, Reconciled, RecordedAll, Unrecorded;
      missing := [];
      fate := s.Tick();
      if fate != Fine { return; }
      var minted := f.minted;
      missing := NewestMissing(|minted|, n.nodes, Max(1, Min(maxNodes, 500)));
      var confirmed := Seqs.Filter(missing, (id: nat) => visible(id) && IsNodeOf(minted, id, ownerToday(id)));
      UnrecordedAreNodes(Snap(), Max(1, Min(maxNodes, 500)), missing);
      fate := RecordMintedNodes(confirmed, next);
      if fate == Fine {
        ThenReconciled(minted, old(n.nodes), n.nodes, missing, confirmed, Max(1, Min(maxNodes, 500)), visible,
            ownerToday);
      }
    }

    /**
     * The missing nodes the chain still answers for have their rows now, and no others do. One that is
     * still without was older than all that were looked at, and there were as many of those as allowed.
     */
    static ghost predicate Reconciled(minted: seq<Mint>, before: map<nat, NodeRow>, after: map<nat, NodeRow>,
                                      missing: seq<nat>, limit: nat, visible: nat -> bool,
                                      ownerToday: nat -> Option<Address>) {
      && (forall id :: Repairable(id, minted, visible, ownerToday) && id !in after ==>
            |missing| == limit && forall x :: x in missing ==> id < x)
      && Unrecorded(|minted|, after) == Unrecorded(|minted|, before)
           - set id | id in missing && visible(id) && IsNodeOf(minted, id, ownerToday(id))
    }

    static lemma ThenReconciled(minted: seq<Mint>, before: map<nat, NodeRow>, after: map<nat, NodeRow>,
                                missing: seq<nat>, confirmed: seq<nat>, limit: nat, visible: nat -> bool,
                                ownerToday: nat -> Option<Address>)
      requires NewestOf(Unrecorded(|minted|, before), limit, missing) && Keeps(before, after)
      requires forall id :: id in confirmed <==>
                 id in missing && visible(id) && IsNodeOf(minted, id, ownerToday(id))
      requires forall id :: id in confirmed ==> id in after
      requires forall id :: id in after ==> id in before || id in confirmed
      ensures Reconciled(minted, before, after, missing, limit, visible, ownerToday)
    {
      forall id | Repairable(id, minted, visible, ownerToday) && id !in after
        ensures |missing| == limit && forall x :: x in missing ==> id < x
      {
        assert id in Unrecorded(|minted|, before) && id !in missing;
      }
    }

    /** A node of the factory whose log can be seen and whose owner reads as minted. */
    static predicate Repairable(id: nat, minted: seq<Mint>, visible: nat -> bool, ownerToday: nat -> Option<Address>) {
      1 <= id <= |minted| && visible(id) && ownerToday(id) == Some(minted[id - 1].owner)
    }

    static predicate IsNodeOf(minted: seq<Mint>, id: nat, owner: Option<Address>) {
      1 <= id <= |minted| && owner == Some(minted[id - 1].owner)
    }

    lemma NothingTaken(before: Rows, after: Rows, now: int)
      requires after == before || after == ApplyAll(before, {}, ClaimRow, now)
      ensures ApplyAll(before, (set h | h in []), ClaimRow, now) == after
      ensures Worked(after, after, [], []) && Agree(after, CleanPass(after, [], shop))
    {
      assert (set h: Hash | h in []) == {};
      assert ApplyAll(before, {}, ClaimRow, now) == before;
    }

    lemma ClaimedStaySmooth(before: Sys, after: Sys, claimed: seq<Hash>, attempts: Hash -> Attempt, late: nat -> bool,
                            now: int)
      requires after == before.(rows := Taken(before.rows, claimed, now))
      ensures AllSmooth(before, claimed, 0, attempts, late) ==> AllSmooth(after, claimed, 0, attempts, late)
    {
      if AllSmooth(before, claimed, 0, attempts, late) {
        forall j: nat | j < |claimed| ensures !late(j) && Smooth(after, claimed[j], attempts(claimed[j])) {
          assert Smooth(before, claimed[j], attempts(claimed[j]));
          SameRefs(before, after, claimed[j]);
        }
      }
    }

    static lemma RefUsedStays(before: seq<Mint>, after: seq<Mint>, h: Hash)
      requires before <= after && RefUsed(before, h)
      ensures RefUsed(after, h)
    {
      var i :| 0 <= i < |before| && before[i].ref == h;
      assert after[i] == before[i];
    }
  }

  /** The reads a retry needs came back, and came back true. */
  predicate ReadsWell(a: Attempt) {
    a.tx == Truthful && a.used == Truthful && a.log == Truthful
  }

  /** The send came to something, and the questions asked of the contract about it were answered truly. */
  predicate Answers(a: Attempt) {
    (a.send == Accepted(true) || a.send == Reverted) && a.usedAgain == Truthful && a.log == Truthful
  }

  /** Nothing is wrong but, at most, that the mint is already there: the dry run may have missed it by a block. */
  predicate NoAlarm(a: Attempt) {
    (a.sim == SimTruthful || a.sim == SimStale) && Answers(a)
  }

  /** Nothing failed, nothing lagged, and no older mint landed in between. */
  predicate Undisturbed(a: Attempt) {
    ReadsWell(a) && a.sim == SimTruthful && a.send == Accepted(true) && a.before == [] && a.during == []
  }
}
