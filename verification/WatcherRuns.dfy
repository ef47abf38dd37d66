/**
 * Whole runs of payment discovery: any interleaving of passes, fast-forwards,
 * adoptions, audits, crashes and queue work, over a chain that keeps growing.
 *
 * A claim may be committed long after it was planned, and other claims may land
 * in between; only the first pass, the one that finds no cursor, needs the lock.
 */
module WatcherRuns {
  import opened Wrappers
  import opened Chain
  import opened Explorer
  import opened Tiers
  import opened Payments
  import opened Watcher

  /** `origin` is where the pass that first set the cursor began; `flying` are claims planned but not committed. */
  datatype State = State(c: Blocks, rows: Rows, cursor: Option<int>, origin: Option<nat>, flying: set<Claim>)

  datatype Action =
    | Grow
    | Begin(cl: Claim)
    | Land(cl: Claim, id: nat, now: int)
    | Crash(cl: Claim)
    | QueueWork

  ghost predicate Init(s: State) {
    WellFormed(s.c) && s.rows == map[] && s.cursor.None? && s.origin.None? && s.flying == {}
  }

  /** The claim starts right after the cursor it read, or it is the first pass and runs alone. */
  ghost predicate MayBegin(s: State, cl: Claim) {
    cl.upTo.Some? ==>
      if cl.first then s.cursor.None? && forall f :: f in s.flying ==> !f.first
      else s.cursor.Some? && cl.from == s.cursor.value + 1
  }

  /** Relay, refunds and requeues: rows change status, a refund may add its own row, identities never change. */
  ghost predicate KeepsIdentities(before: Rows, after: Rows) {
    && (forall h :: h in before ==>
            h in after && after[h].from == before[h].from && after[h].amount == before[h].amount)
    && (forall h :: h in after && h !in before ==> after[h].from == h.from && after[h].amount == h.value)
  }

  ghost predicate Next(cfg: Config, tiers: Table, s: State, a: Action, s': State) {
    match a
    case Grow => Extends(s.c, s'.c, cfg.confirmations) && s' == s.(c := s'.c)
    case Begin(cl) => Holds(cl, s.c, cfg, tiers) && MayBegin(s, cl) && s' == s.(flying := s.flying + {cl})
    case Land(cl, id, now) =>
      cl in s.flying &&
      s' == State(s.c, InsertAll(s.rows, cl.sightings, id, now), Advanced(s.cursor, cl.upTo),
                  if cl.upTo.Some? && s.cursor.None? then Some(cl.from) else s.origin, s.flying - {cl})
    case Crash(cl) => s' == s.(flying := s.flying - {cl})
    case QueueWork => KeepsIdentities(s.rows, s'.rows) && s' == s.(rows := s'.rows)
  }

  /* ------------------------------------------------------------- invariant */

  ghost predicate TrueRows(rows: Rows) {
    forall h :: h in rows ==> rows[h].from == h.from && rows[h].amount == h.value
  }

  /** No successful transfer between the origin and the cursor is without its row. */
  ghost predicate NothingSteppedOver(s: State, wallet: Address) {
    s.cursor.Some? ==>
      && s.origin.Some?
      && forall h, b :: s.origin.value <= b <= s.cursor.value && PaidAt(s.c, wallet, h, b) ==> h in s.rows
  }

  ghost predicate FlyingWell(s: State, cfg: Config, tiers: Table) {
    && (forall cl :: cl in s.flying ==> Holds(cl, s.c, cfg, tiers))
    && (forall cl :: cl in s.flying && cl.upTo.Some? ==>
          if cl.first then s.cursor.None? else s.cursor.Some? && cl.from <= s.cursor.value + 1)
    && (forall x, y :: x in s.flying && y in s.flying && x.first && y.first && x.upTo.Some? && y.upTo.Some? ==> x == y)
  }

  ghost predicate Inv(s: State, cfg: Config, tiers: Table) {
    && WellFormed(s.c)
    && TrueRows(s.rows)
    && FlyingWell(s, cfg, tiers)
    && (s.cursor.Some? ==> s.origin.Some? && 0 <= s.cursor.value <= Settled(s.c, cfg.confirmations))
    && NothingSteppedOver(s, cfg.wallet)
  }

  /** What was true of final blocks stays true as the chain grows. */
  lemma HoldsForever(cl: Claim, c: Blocks, c': Blocks, cfg: Config, tiers: Table)
    requires WellFormed(c) && Extends(c, c', cfg.confirmations) && Holds(cl, c, cfg, tiers)
    ensures Holds(cl, c', cfg, tiers)
  {
    var settled := Settled(c, cfg.confirmations);
    assert settled < |c|;
    forall s | s in cl.sightings ensures Proven(s, c', cfg.wallet, Settled(c', cfg.confirmations), tiers) {
      FinalStays(c, c', cfg, s.hash, s.block);
    }
    if cl.upTo.Some? {
      forall h, b | cl.from <= b <= cl.upTo.value && PaidAt(c', cfg.wallet, h, b) ensures Recorded(cl.sightings, h) {
        FinalStays(c, c', cfg, h, b);
      }
    }
  }

  lemma FinalStays(c: Blocks, c': Blocks, cfg: Config, h: Hash, b: int)
    requires WellFormed(c) && Extends(c, c', cfg.confirmations) && b <= Settled(c, cfg.confirmations)
    ensures PaidAt(c, cfg.wallet, h, b) <==> PaidAt(c', cfg.wallet, h, b)
  {
    assert Settled(c, cfg.confirmations) < |c|;
    if 0 <= b { assert c'[b] == c[b]; }
  }

  lemma LandKeepsInv(s: State, cl: Claim, id: nat, now: int, s': State, cfg: Config, tiers: Table)
    requires Inv(s, cfg, tiers) && Next(cfg, tiers, s, Land(cl, id, now), s')
    ensures Inv(s', cfg, tiers)
  {
    InsertAllFacts(s.rows, cl.sightings, id, now);
    assert Holds(cl, s.c, cfg, tiers);
    forall h | h in s'.rows ensures s'.rows[h].from == h.from && s'.rows[h].amount == h.value {
      if h !in s.rows {
        var i :| 0 <= i < |cl.sightings| && cl.sightings[i].hash == h &&
                 s'.rows[h] == FreshRow(cl.sightings[i], id + i, now);
        assert Proven(cl.sightings[i], s.c, cfg.wallet, Settled(s.c, cfg.confirmations), tiers);
      }
    }
    if s'.cursor.Some? {
      forall h, b | s'.origin.value <= b <= s'.cursor.value && PaidAt(s.c, cfg.wallet, h, b) ensures h in s'.rows {
        if s.cursor.None? || b > s.cursor.value {
          assert Recorded(cl.sightings, h);
        }
      }
    }
  }

  lemma StepKeepsInv(s: State, a: Action, s': State, cfg: Config, tiers: Table)
    requires Inv(s, cfg, tiers) && Next(cfg, tiers, s, a, s')
    ensures Inv(s', cfg, tiers)
  {
    match a
    case Grow =>
      forall cl | cl in s.flying ensures Holds(cl, s'.c, cfg, tiers) {
        HoldsForever(cl, s.c, s'.c, cfg, tiers);
      }
      if s.cursor.Some? {
        forall h, b | s.origin.value <= b <= s.cursor.value && PaidAt(s'.c, cfg.wallet, h, b) ensures h in s.rows {
          FinalStays(s.c, s'.c, cfg, h, b);
        }
      }
    case Begin(cl) =>
    case Land(cl, id, now) => LandKeepsInv(s, cl, id, now, s', cfg, tiers);
    case Crash(cl) =>
    case QueueWork =>
  }

  /* ------------------------- the watcher's own calls are steps of such a run */

  /** What a scan plans on honest answers may be begun, if no first pass is under way when it is one. */
  lemma ScanBegins(s: State, cfg: Config, tiers: Table, p: Plan, w: World)
    requires Inv(s, cfg, tiers) && w.head < |s.c| && PlanIsSound(p, s.cursor, cfg, tiers, s.c, w) && p.Planned?
    requires HonestScan(w, s.c, cfg, s.cursor) && (s.cursor.None? ==> forall f :: f in s.flying ==> !f.first)
    ensures Next(cfg, tiers, s, Begin(p.claim), s.(flying := s.flying + {p.claim}))
  {
    SafeHeadGrows(s.c, cfg, w.head);
  }

  /** The pass's sources are honest about the ground it starts on. */
  ghost predicate HonestScan(w: World, c: Blocks, cfg: Config, cursor: Option<int>) {
    && WellFormed(c) && w.head < |c| && w.index.pages != []
    && var safeHead := SafeHead(w.head, cfg.confirmations);
    && var from := PassStart(cursor, cfg, safeHead);
    (0 <= from <= safeHead < |c| ==> HonestWorld(w, c, cfg, from, safeHead))
  }

  /** A commit lands its claim, exactly; one that failed is a crash of it. */
  lemma CommitLands(s: State, cfg: Config, tiers: Table, cl: Claim, id: nat, now: int, rows: Rows, cursor: Option<int>)
    requires cl in s.flying && rows == InsertAll(s.rows, cl.sightings, id, now) && cursor == Advanced(s.cursor, cl.upTo)
    ensures Next(cfg, tiers, s, Land(cl, id, now),
                 State(s.c, rows, cursor,
                       if cl.upTo.Some? && s.cursor.None? then Some(cl.from) else s.origin, s.flying - {cl}))
  {
  }

  /** A fast-forward is a claim without payments; claims in flight may land after it all the same. */
  lemma FastForwardKeepsInv(s: State, cfg: Config, tiers: Table, toBlock: nat)
    requires Inv(s, cfg, tiers) && s.cursor.Some? && s.cursor.value < toBlock
    requires Holds(Claim(false, s.cursor.value + 1, Some(toBlock), []), s.c, cfg, tiers)
    ensures Inv(s.(cursor := Some(toBlock)), cfg, tiers)
  {
    hide Holds;
    forall h, b | s.origin.value <= b <= toBlock && PaidAt(s.c, cfg.wallet, h, b) ensures h in s.rows {
      if b > s.cursor.value { EmptyClaimIsEmpty(s.c, cfg, tiers, s.cursor.value + 1, toBlock, h, b); }
    }
    EmptyClaimIsFinal(s.c, cfg, tiers, s.cursor.value + 1, toBlock);
  }

  lemma EmptyClaimIsEmpty(c: Blocks, cfg: Config, tiers: Table, from: nat, to: int, h: Hash, b: int)
    requires Holds(Claim(false, from, Some(to), []), c, cfg, tiers) && from <= b <= to
    ensures !PaidAt(c, cfg.wallet, h, b)
  {
    assert PaidAt(c, cfg.wallet, h, b) ==> Recorded([], h);
  }

  lemma EmptyClaimIsFinal(c: Blocks, cfg: Config, tiers: Table, from: nat, to: int)
    requires Holds(Claim(false, from, Some(to), []), c, cfg, tiers)
    ensures to <= Settled(c, cfg.confirmations)
  {
  }

  /** Adoptions and audits add rows proved against the chain, which is queue work to the run. */
  lemma ProvenRowsAreQueueWork(before: Rows, after: Rows, c: Blocks, cfg: Config, tiers: Table)
    requires GrowsProven(before, after, c, cfg, tiers)
    ensures KeepsIdentities(before, after)
  {
    forall h | h in after && h !in before ensures after[h].from == h.from && after[h].amount == h.value {
      var s: Sighting, id, at :| s.hash == h && after[h] == FreshRow(s, id, at) &&
                                 Proven(s, c, cfg.wallet, Settled(c, cfg.confirmations), tiers);
    }
  }

  ghost predicate IsRun(cfg: Config, tiers: Table, states: seq<State>, actions: seq<Action>) {
    && |states| == |actions| + 1
    && Init(states[0])
    && forall i :: 0 <= i < |actions| ==> Next(cfg, tiers, states[i], actions[i], states[i + 1])
  }

  /**
   * No payment is stepped over. In every run, at every point, each successful
   * transfer to the wallet between the origin and the cursor has a row, and every
   * row carries the chain's own sender and amount.
   */
  lemma {:induction false} NoPaymentIsSteppedOver(cfg: Config, tiers: Table, states: seq<State>, actions: seq<Action>)
    requires IsRun(cfg, tiers, states, actions)
    ensures forall i :: 0 <= i < |states| ==>
              Inv(states[i], cfg, tiers) && NothingSteppedOver(states[i], cfg.wallet) && TrueRows(states[i].rows)
  {
    for n := 0 to |actions|
      invariant forall i :: 0 <= i <= n ==> Inv(states[i], cfg, tiers)
    {
      assert Next(cfg, tiers, states[n], actions[n], states[n + 1]);
      StepKeepsInv(states[n], actions[n], states[n + 1], cfg, tiers);
    }
  }

  /** Nothing to do, or caught up. */
  predicate SaysCaughtUp(p: Plan) {
    p.Idle? || (p.Planned? && p.report.caughtUp)
  }

  /** The newest block in which the pass could have found anything. */
  function Discoverable(p: Plan, w: World, cfg: Config): int {
    if p.Idle? then SafeHead(w.head, cfg.confirmations) else Target(w.index, SafeHead(w.head, cfg.confirmations))
  }

  /**
   * Honest reporting. When a pass over any reachable state says it is caught up and a
   * cursor exists after it, then everything from the origin to the newest
   * discoverable block is recorded, in the chain's own words.
   */
  lemma CaughtUpMeansRecorded(s: State, cfg: Config, tiers: Table, read: Option<int>, p: Plan, w: World)
    requires Inv(s, cfg, tiers) && w.head < |s.c| && PlanIsSound(p, read, cfg, tiers, s.c, w) && SaysCaughtUp(p)
    requires s.cursor.Some? && s.cursor == if p.Planned? then Advanced(read, p.claim.upTo) else read
    ensures p.Planned? ==> w.index.height.Some?
    ensures forall h, b :: s.origin.value <= b <= Discoverable(p, w, cfg) && PaidAt(s.c, cfg.wallet, h, b) ==>
              h in s.rows && s.rows[h].from == h.from && s.rows[h].amount == h.value
  {
    assert s.cursor.value >= Discoverable(p, w, cfg);
    forall h, b | s.origin.value <= b <= Discoverable(p, w, cfg) && PaidAt(s.c, cfg.wallet, h, b)
      ensures h in s.rows && s.rows[h].from == h.from && s.rows[h].amount == h.value
    {
      assert s.origin.value <= b <= s.cursor.value;
    }
  }

  /**
   * Why the first pass needs the lock: two of them, begun as the head moved, both
   * with claims that hold, leave the payment between them behind the cursor.
   */
  lemma TwoFirstPassesCanSkip() returns (cfg: Config, tiers: Table, s: State, a: Claim, b: Claim, h: Hash)
    ensures Inv(s, cfg, tiers) && a.first && b.first && Holds(a, s.c, cfg, tiers) && Holds(b, s.c, cfg, tiers)
    ensures var mid := s.(rows := InsertAll(s.rows, a.sightings, 0, 0), cursor := Advanced(s.cursor, a.upTo),
                          origin := Some(a.from));
            var end := mid.(rows := InsertAll(mid.rows, b.sightings, 0, 0), cursor := Advanced(mid.cursor, b.upTo));
            PaidAt(s.c, cfg.wallet, h, 1) && h !in end.rows && end.origin == Some(0) && end.cursor == Some(2)
              && !NothingSteppedOver(end, cfg.wallet)
  {
    var open := Tier(1, 1, 0, 10_000, true);
    tiers := Table(open, open.(priceWei := 2), open.(priceWei := 3));
    cfg := Config(7, 0, None, 0, 1, 0, 1, 1, 1);
    h := Hash(5, Some(7), 1, 0);
    s := State([[], [Inclusion(h, true)], []], map[], None, None, {});
    a := Claim(true, 0, Some(0), []);
    b := Claim(true, 2, Some(2), []);
    assert Inclusion(h, true) in s.c[1];
    assert PaidAt(s.c, cfg.wallet, h, 1);
    assert !(h in InsertAll(InsertAll(s.rows, [], 0, 0), [], 0, 0));
  }

  /* --------------------------------------------------------------- progress */

  /** The cursor after one healthy pass. */
  function HealthyPass(cursor: int, ceiling: nat, target: int): int {
    if cursor >= target then cursor else Min(cursor + ceiling, target)
  }

  function HealthyPasses(cursor: int, ceiling: nat, target: nat -> int, n: nat): int {
    if n == 0 then cursor else HealthyPass(HealthyPasses(cursor, ceiling, target, n - 1), ceiling, target(n - 1))
  }

  /** The newest block each pass could have found anything in. */
  function Targets(cfg: Config, ws: seq<World>): nat -> int {
    (i: nat) => if i < |ws| then Target(ws[i].index, SafeHead(ws[i].head, cfg.confirmations)) else 0
  }

  /** Index and RPC answer for the ground from that block on, if there is any, and the commit succeeds. */
  ghost predicate Working(cfg: Config, tiers: Table, c: Blocks, w: World, from: int) {
    var safeHead := SafeHead(w.head, cfg.confirmations);
    && WellFormed(c) && w.head < |c| && w.index.pages != [] && w.index.height.Some? && !w.commitFails
    && (from <= Target(w.index, safeHead) ==>
            Answering(cfg, w, from) && Confirming(w, tiers, cfg.wallet, from, safeHead))
  }

  /** The target creeps on ahead of the cursor, and n − 1 passes at a gain of ceiling − g make up for the gap. */
  ghost predicate WithinReach(cursor: int, ceiling: nat, target: nat -> int, g: nat, n: nat) {
    && cursor <= target(0) && Creeps(target, g, n)
    && (n - 1) * (ceiling - g) >= target(0) - cursor - ceiling
  }

  /** The target stays put, or moves up by at most g between passes. */
  ghost predicate Creeps(target: nat -> int, g: nat, n: nat) {
    forall i: nat :: i + 1 < n ==> target(i) <= target(i + 1) <= target(i) + g
  }

  /**
   * Catching up, for the table's own cursor. One healthy scan after another moves it as
   * HealthyPasses says. So a frozen gap closes in exactly ceil(gap / ceiling) scans; and
   * a head that grows by g < ceiling between scans is level from the scan on where the
   * ceiling has made up for the gap.
   */
  method HealthyScans(t: PaymentTable, cfg: Config, tiers: Table, chain: seq<Blocks>, ws: seq<World>, now: int,
                      ghost goal: int, ghost g: nat)
    requires Watcher.Sane(cfg) && t.cursor.Some? && t.cursor.value >= -1 && |chain| == |ws|
    requires forall i :: 0 <= i < |ws| ==>
               Working(cfg, tiers, chain[i], ws[i], HealthyPasses(t.cursor.value, cfg.ceiling, Targets(cfg, ws), i) + 1)
    modifies t
    ensures t.cursor == Some(HealthyPasses(old(t.cursor).value, cfg.ceiling, Targets(cfg, ws), |ws|))
    ensures old(t.cursor).value <= goal && (forall i: nat :: i < |ws| ==> Targets(cfg, ws)(i) == goal) ==>
              (t.cursor == Some(goal) <==> |ws| >= (goal - old(t.cursor).value + cfg.ceiling - 1) / cfg.ceiling)
    ensures ws != [] && cfg.ceiling > g && WithinReach(old(t.cursor).value, cfg.ceiling, Targets(cfg, ws), g, |ws|) ==>
              t.cursor == Some(Targets(cfg, ws)(|ws| - 1))
  {
    hide Answering, Confirming, PlanIsSound, HealthyPasses, Healthy, IndexBehind, WithinReach, InsertAll;
    ghost var start, target := t.cursor.value, Targets(cfg, ws);
    NoPassYet(start, cfg.ceiling, target);
    for i := 0 to |ws|
      invariant t.cursor == Some(HealthyPasses(start, cfg.ceiling, target, i)) && t.cursor.value >= -1
    {
      ghost var before := t.cursor;
      var p, committed := ScanPayments(t, cfg, tiers, chain[i], ws[i], now);
      OneHealthyPass(before, t.cursor, cfg, tiers, chain[i], ws[i]);
      NextPass(start, cfg.ceiling, target, i);
    }
    if start <= goal && forall i: nat :: i < |ws| ==> target(i) == goal {
      FrozenGapCloses(start, cfg.ceiling, target, goal, |ws|);
    }
    if ws != [] && cfg.ceiling > g && WithinReach(start, cfg.ceiling, target, g, |ws|) {
      MovingHeadIsCaught(start, cfg.ceiling, target, g, |ws|);
    }
  }

  lemma NoPassYet(cursor: int, ceiling: nat, target: nat -> int)
    ensures HealthyPasses(cursor, ceiling, target, 0) == cursor
  {
  }

  lemma NextPass(cursor: int, ceiling: nat, target: nat -> int, n: nat)
    ensures HealthyPasses(cursor, ceiling, target, n + 1)
         == HealthyPass(HealthyPasses(cursor, ceiling, target, n), ceiling, target(n))
  {
  }

  /** What ScanPayments promises of the cursor is one HealthyPass. */
  lemma OneHealthyPass(before: Option<int>, after: Option<int>, cfg: Config, tiers: Table, c: Blocks, w: World)
    requires Watcher.Sane(cfg) && before.Some? && Working(cfg, tiers, c, w, before.value + 1)
    requires IndexBehind(before, cfg, w) ==> after == before
    requires Healthy(before, cfg, tiers, w) ==>
               after == Some(Min(PassStart(before, cfg, SafeHead(w.head, cfg.confirmations)) + cfg.ceiling - 1,
                                 Target(w.index, SafeHead(w.head, cfg.confirmations))))
    ensures after == Some(HealthyPass(before.value, cfg.ceiling, Target(w.index, SafeHead(w.head, cfg.confirmations))))
  {
    hide Answering, Confirming;
  }

  /** A frozen gap closes in exactly ceil(gap / ceiling) healthy passes, and not one earlier. */
  lemma {:induction false} FrozenGapCloses(cursor: int, ceiling: nat, target: nat -> int, goal: int, n: nat)
    requires ceiling >= 1 && cursor <= goal && forall i: nat :: i < n ==> target(i) == goal
    ensures HealthyPasses(cursor, ceiling, target, n) == Min(cursor + n * ceiling, goal)
    ensures HealthyPasses(cursor, ceiling, target, n) == goal <==> n >= (goal - cursor + ceiling - 1) / ceiling
  {
    FrozenGap(cursor, ceiling, target, goal, n);
    CeilDivision(goal - cursor, ceiling, n);
  }

  lemma {:induction false} FrozenGap(cursor: int, ceiling: nat, target: nat -> int, goal: int, n: nat)
    requires ceiling >= 1 && cursor <= goal && forall i: nat :: i < n ==> target(i) == goal
    ensures HealthyPasses(cursor, ceiling, target, n) == Min(cursor + n * ceiling, goal)
  {
    if n > 0 {
      FrozenGap(cursor, ceiling, target, goal, n - 1);
      assert n * ceiling == (n - 1) * ceiling + ceiling;
    }
  }

  lemma CeilDivision(gap: nat, ceiling: nat, n: nat)
    requires ceiling >= 1
    ensures n * ceiling >= gap <==> n >= (gap + ceiling - 1) / ceiling
  {
    var q := (gap + ceiling - 1) / ceiling;
    Quotient(gap + ceiling - 1, ceiling);
    if n >= q { TimesMonotone(q, n, ceiling); } else { TimesMonotone(n + 1, q, ceiling); }
  }

  lemma Quotient(x: nat, d: nat)
    requires d >= 1
    ensures x - d < x / d * d <= x
  {
  }

  lemma TimesMonotone(a: int, b: int, c: nat)
    requires a <= b
    ensures a * c <= b * c && (a - 1) * c == a * c - c
  {
  }

  /**
   * A moving head is caught too: if it grows by at most g < ceiling between passes,
   * then from the pass where (n − 1)·(ceiling − g) reaches gap − ceiling on, every
   * healthy pass ends level with what it could discover.
   */
  lemma {:induction false} MovingHeadIsCaught(cursor: int, ceiling: nat, target: nat -> int, g: nat, n: nat)
    requires n >= 1 && ceiling > g && WithinReach(cursor, ceiling, target, g, n)
    ensures HealthyPasses(cursor, ceiling, target, n) == target(n - 1)
  {
    GapShrinks(cursor, ceiling, target, g, n - 1, n);
  }

  lemma {:induction false} GapShrinks(cursor: int, ceiling: nat, target: nat -> int, g: nat, k: nat, n: nat)
    requires k < n && ceiling > g && cursor <= target(0) && Creeps(target, g, n)
    ensures 0 <= target(k) - HealthyPasses(cursor, ceiling, target, k)
              <= Max(ceiling, target(0) - cursor - k * (ceiling - g))
  {
    if k > 0 {
      GapShrinks(cursor, ceiling, target, g, k - 1, n);
      assert k * (ceiling - g) == (k - 1) * (ceiling - g) + (ceiling - g);
      assert target(k - 1) <= target(k - 1 + 1) <= target(k - 1) + g;
    }
  }
}
