/**
 * The address index and the two walks over it (lib/explorer.ts), with the
 * block-by-block reader of lib/watcher.ts that stands in when both fail.
 *
 * One page request is "answered or failed"; which requests fail, and when the
 * deadline passes, are arbitrary functions of the request number.
 */
module Explorer {
  import opened Wrappers
  import opened Seqs
  import opened Chain

  /** One transaction as the index describes it: sender, value and outcome are claims. */
  datatype Entry = Entry(hash: Hash, from: Address, to: Option<Address>, value: nat, block: nat, succeeded: bool)

  /** A row of an answer; None is a row the parser had to skip. */
  type Item = Option<Entry>

  datatype Walk = Walk(transfers: seq<Entry>, requests: nat, coveredTo: int, complete: bool)

  /**
   * The index during one pass: `ranged` is the whole ascending answer to the v1
   * query, `pages` the v2 history newest first, cut wherever the server cut it
   * (a wallet without history still has one, empty, page).
   */
  datatype Index = Index(
    height: Option<nat>,
    ranged: seq<Item>,
    pages: seq<seq<Item>>,
    v1Fails: nat -> bool,
    v1SaysNone: nat -> bool,
    v2Fails: nat -> bool,
    late: nat -> bool)

  /** What the row claims of sender and value is what its hash commits to. */
  predicate Agrees(e: Entry) {
    e.from == e.hash.from && e.value == e.hash.value
  }

  function ToWallet(wallet: Address): Item -> bool {
    (it: Item) => it.Some? && it.value.to == Some(wallet)
  }

  function InRange(wallet: Address, lo: int, hi: int): Item -> bool {
    (it: Item) => it.Some? && it.value.to == Some(wallet) && lo <= it.value.block <= hi
  }

  function AsEntry(): Item -> Entry {
    (it: Item) => if it.Some? then it.value else Entry(Hash(0, None, 0, 0), 0, None, 0, 0, false)
  }

  function SightedOf(): Entry -> Sighted {
    (e: Entry) => Sighted(e.hash, e.block)
  }

  function EntryUpTo(k: int): Entry -> bool {
    (e: Entry) => e.block <= k
  }

  /** The transfers at or below block k, reduced to what identifies them. */
  function Claimed(ts: seq<Entry>, k: int): seq<Sighted> {
    Map(Filter(ts, EntryUpTo(k)), SightedOf())
  }

  /**
   * A discovery path refines the naive scan: what it found at or below its
   * coverage is, with multiplicity, what reading every block would have found.
   */
  ghost predicate Refines(w: Walk, c: Blocks, wallet: Address, from: nat, to: int)
    requires to < |c|
  {
    && from - 1 <= w.coveredTo <= to
    && multiset(Claimed(w.transfers, w.coveredTo)) == multiset(NaiveScan(c, wallet, from, w.coveredTo))
  }

  function Wanted(items: seq<Item>, wallet: Address, lo: int, hi: int): seq<Entry> {
    Map(Filter(items, InRange(wallet, lo, hi)), AsEntry())
  }

  /** The honest-index assumption: for these blocks the rows list exactly the chain's transfers. */
  ghost predicate Truthful(items: seq<Item>, c: Blocks, wallet: Address, lo: nat, hi: int)
    requires hi < |c|
  {
    multiset(Map(Wanted(items, wallet, lo, hi), SightedOf())) == multiset(NaiveScan(c, wallet, lo, hi))
  }

  ghost predicate Ascending(items: seq<Item>) {
    forall i, j :: 0 <= i < j < |items| && items[i].Some? && items[j].Some? ==>
        items[i].value.block <= items[j].value.block
  }

  ghost predicate Descending(items: seq<Item>) {
    forall i, j :: 0 <= i < j < |items| && items[i].Some? && items[j].Some? ==>
        items[i].value.block >= items[j].value.block
  }

  ghost predicate Within(items: seq<Item>, lo: int, hi: int) {
    forall i :: 0 <= i < |items| && items[i].Some? ==> lo <= items[i].value.block <= hi
  }

  /** The v1 answer is honest: in the asked range, ascending, and the chain's own transfers. */
  ghost predicate HonestRanged(x: Index, c: Blocks, wallet: Address, from: nat, to: int)
    requires to < |c|
  {
    Ascending(x.ranged) && Within(x.ranged, from, to) && Truthful(x.ranged, c, wallet, from, to)
  }

  /** The v2 history is honest up to block `to`: newest first, and the chain's own transfers. */
  ghost predicate HonestPaged(x: Index, c: Blocks, wallet: Address, from: nat, to: int)
    requires to < |c|
  {
    Descending(Flatten(x.pages)) && Truthful(Flatten(x.pages), c, wallet, from, to)
  }

  /* ------------------------------------------------------------ list lemmas */

  lemma {:induction false} ClaimedIsCut(ts: seq<Entry>, k: int)
    ensures Claimed(ts, k) == Filter(Map(ts, SightedOf()), BlockUpTo(k))
  {
    if ts != [] {
      var front := ts[..|ts| - 1];
      ClaimedIsCut(front, k);
      assert Map(ts, SightedOf())[..|ts| - 1] == Map(front, SightedOf());
    }
  }

  /** Transfers that are exactly the scan of a range are, cut at k, exactly the scan up to k. */
  lemma CutRefines(ts: seq<Entry>, c: Blocks, wallet: Address, from: nat, to: int, k: int)
    requires to < |c| && from - 1 <= k <= to
    requires multiset(Map(ts, SightedOf())) == multiset(NaiveScan(c, wallet, from, to))
    ensures multiset(Claimed(ts, k)) == multiset(NaiveScan(c, wallet, from, k))
  {
    ClaimedIsCut(ts, k);
    NaiveScanCut(c, wallet, from, to, k);
    forall x ensures multiset(Claimed(ts, k))[x] == multiset(NaiveScan(c, wallet, from, k))[x] {
      FilterCount(Map(ts, SightedOf()), BlockUpTo(k), x);
      FilterCount(NaiveScan(c, wallet, from, to), BlockUpTo(k), x);
    }
  }

  lemma WantedAppend(a: seq<Item>, b: seq<Item>, wallet: Address, lo: int, hi: int)
    ensures Wanted(a + b, wallet, lo, hi) == Wanted(a, wallet, lo, hi) + Wanted(b, wallet, lo, hi)
  {
    FilterAppend(a, b, InRange(wallet, lo, hi));
  }

  lemma WantedNone(items: seq<Item>, wallet: Address, lo: int, hi: int)
    requires forall i :: 0 <= i < |items| && items[i].Some? ==> items[i].value.block < lo || hi < items[i].value.block
    ensures Wanted(items, wallet, lo, hi) == []
  {
    FilterNone(items, InRange(wallet, lo, hi));
  }

  lemma {:induction false} WantedWithin(items: seq<Item>, wallet: Address, lo: int, hi: int)
    requires Within(items, lo, hi)
    ensures Filter(items, ToWallet(wallet)) == Filter(items, InRange(wallet, lo, hi))
  {
    if items != [] {
      WantedWithin(items[..|items| - 1], wallet, lo, hi);
    }
  }

  /* -------------------------------------------------------------- v1 txlist */

  /** Highest block among the parsed rows; a row in block 0 never raises it. */
  function HighestSeen(items: seq<Item>): (h: Option<nat>)
    ensures h.Some? ==> exists i :: 0 <= i < |items| && items[i].Some? && items[i].value.block == h.value
    ensures h.Some? ==> h.value > 0
  {
    if items == [] then None else
    var rest := HighestSeen(items[..|items| - 1]);
    var last := items[|items| - 1];
    if last.Some? && last.value.block > (if rest.Some? then rest.value else 0) then Some(last.value.block) else rest
  }

  /** Page p of the v1 answer, counting pages from 1. */
  function RangedPage(rows: seq<Item>, read: nat, pageSize: nat): seq<Item>
    requires read <= |rows|
  {
    rows[read..Min(read + pageSize, |rows|)]
  }

  /** Reading stopped after a prefix: everything strictly below the highest block read is known. */
  lemma PrefixRefines(x: Index, read: nat, c: Blocks, wallet: Address, from: nat, to: int)
    requires to < |c| && from - 1 <= to && HonestRanged(x, c, wallet, from, to) && read <= |x.ranged|
    ensures var top := HighestSeen(x.ranged[..read]);
            var covered := if top.None? then from - 1 else top.value - 1;
            from - 1 <= covered <= to
            && multiset(Claimed(KeptOf(x.ranged[..read], wallet), covered))
               == multiset(NaiveScan(c, wallet, from, covered))
  {
    hide NaiveScan, Claimed, Map, Filter, HighestSeen;
    var a := x.ranged[..read];
    WantedWithin(a, wallet, from, to);
    if HighestSeen(a).None? {
      forall e | e in Wanted(a, wallet, from, to) ensures e.block >= from {
        WantedComesFrom(a, wallet, from, to, e);
      }
      NothingClaimed(Wanted(a, wallet, from, to), c, wallet, from);
    } else {
      LaterRowsAreHigher(x.ranged, read, HighestSeen(a).value, wallet, from, to);
      CutRefines(Wanted(x.ranged, wallet, from, to), c, wallet, from, to, HighestSeen(a).value - 1);
    }
  }

  /** In an ascending answer the rows after a prefix are no lower than the prefix reached. */
  lemma LaterRowsAreHigher(rows: seq<Item>, read: nat, top: nat, wallet: Address, from: nat, to: int)
    requires Ascending(rows) && read <= |rows|
    requires exists i :: 0 <= i < read && rows[i].Some? && rows[i].value.block == top
    ensures Claimed(Wanted(rows, wallet, from, to), top - 1) == Claimed(Wanted(rows[..read], wallet, from, to), top - 1)
  {
    var a, b := rows[..read], rows[read..];
    assert rows == a + b;
    WantedAppend(a, b, wallet, from, to);
    var wa, wb := Wanted(a, wallet, from, to), Wanted(b, wallet, from, to);
    forall e | e in wb ensures !EntryUpTo(top - 1)(e) {
      WantedComesFrom(b, wallet, from, to, e);
      var j :| 0 <= j < |b| && b[j] == Some(e);
      assert rows[read + j] == Some(e);
    }
    FilterNone(wb, EntryUpTo(top - 1));
    FilterAppend(wa, wb, EntryUpTo(top - 1));
  }

  lemma WantedComesFrom(items: seq<Item>, wallet: Address, lo: int, hi: int, e: Entry)
    requires e in Wanted(items, wallet, lo, hi)
    ensures Some(e) in items && e.to == Some(wallet) && lo <= e.block <= hi
  {
    var kept := Filter(items, InRange(wallet, lo, hi));
    var k :| 0 <= k < |kept| && AsEntry()(kept[k]) == e;
    assert kept[k] in kept && kept[k] == Some(e);
  }

  lemma WholeRefines(x: Index, c: Blocks, wallet: Address, from: nat, to: int)
    requires to < |c| && from - 1 <= to && HonestRanged(x, c, wallet, from, to)
    ensures multiset(Claimed(KeptOf(x.ranged, wallet), to)) == multiset(NaiveScan(c, wallet, from, to))
  {
    WantedWithin(x.ranged, wallet, from, to);
    CutRefines(Wanted(x.ranged, wallet, from, to), c, wallet, from, to, to);
  }

  /** The first p requests of the ranged query are in time and answered. */
  ghost predicate V1Clear(x: Index, p: int) {
    forall k: nat :: 1 <= k <= p ==> !x.late(k) && !x.v1Fails(k)
  }

  /** The ranged walk reaches the page that is not full, which is the last one, within its limit. */
  ghost predicate V1Ends(x: Index, pageSize: nat, maxPages: nat) {
    exists p: nat :: p <= maxPages && V1EndsAt(x, pageSize, p)
  }

  /** It meets a failed request before that, and before the deadline. */
  ghost predicate V1Throws(x: Index, pageSize: nat, maxPages: nat) {
    exists p: nat :: p <= maxPages && V1ThrowsAt(x, pageSize, p)
  }

  ghost predicate V1EndsAt(x: Index, pageSize: nat, p: nat) {
    1 <= p && (p - 1) * pageSize <= |x.ranged| < p * pageSize && V1Clear(x, p)
  }

  ghost predicate V1ThrowsAt(x: Index, pageSize: nat, p: nat) {
    1 <= p && (p - 1) * pageSize <= |x.ranged| && V1Clear(x, p - 1) && !x.late(p) && x.v1Fails(p)
  }

  lemma V1Done(x: Index, pageSize: nat, maxPages: nat, q: nat)
    requires q <= maxPages && V1EndsAt(x, pageSize, q)
    ensures V1Ends(x, pageSize, maxPages) && !V1Throws(x, pageSize, maxPages)
  {
    if V1Throws(x, pageSize, maxPages) {
      var p: nat :| p <= maxPages && V1ThrowsAt(x, pageSize, p);
      if q < p { TimesUp(q, p - 1, pageSize); }
      assert false;
    }
  }

  lemma V1Thrown(x: Index, pageSize: nat, maxPages: nat, q: nat)
    requires q <= maxPages && V1ThrowsAt(x, pageSize, q)
    ensures V1Throws(x, pageSize, maxPages) && !V1Ends(x, pageSize, maxPages)
  {
    if V1Ends(x, pageSize, maxPages) {
      var p: nat :| p <= maxPages && V1EndsAt(x, pageSize, p);
      if p < q { TimesUp(p, q - 1, pageSize); }
      assert false;
    }
  }

  lemma V1Cut(x: Index, pageSize: nat, maxPages: nat, n: nat)
    requires n <= maxPages && n * pageSize <= |x.ranged| && V1Clear(x, n) && (n == maxPages || x.late(n + 1))
    ensures !V1Ends(x, pageSize, maxPages) && !V1Throws(x, pageSize, maxPages)
  {
    if V1Ends(x, pageSize, maxPages) {
      var p: nat :| p <= maxPages && V1EndsAt(x, pageSize, p);
      if p <= n { TimesUp(p, n, pageSize); }
      assert false;
    }
  }

  lemma NothingAsked(x: Index)
    ensures V1Clear(x, 0)
  {
  }

  /** One more request: it fails, or it gets the last page, or a full one. */
  lemma V1Next(x: Index, pageSize: nat, n: nat)
    requires n * pageSize <= |x.ranged| && V1Clear(x, n) && !x.late(n + 1)
    ensures x.v1Fails(n + 1) ==> V1ThrowsAt(x, pageSize, n + 1)
    ensures !x.v1Fails(n + 1) ==>
              V1Clear(x, n + 1) && (|x.ranged| < n * pageSize + pageSize ==> V1EndsAt(x, pageSize, n + 1))
    ensures (n + 1) * pageSize == n * pageSize + pageSize
  {
    TimesUp(n, n + 1, pageSize);
    forall k: nat | 1 <= k <= n + 1 && !x.v1Fails(n + 1) ensures !x.late(k) && !x.v1Fails(k) {
      assert k <= n || k == n + 1;
    }
  }

  lemma TimesUp(a: nat, b: nat, k: nat)
    requires a <= b
    ensures a * k <= b * k && (a + 1) * k == a * k + k
  {
  }

  /**
   * What the walk's answer rests on: the full pages it got. It kept every row of theirs, and gave
   * away one block at most.
   */
  ghost predicate RestsOn(w: Walk, rows: seq<Item>, n: nat, wallet: Address) {
    && n <= |rows|
    && (forall i :: 0 <= i < n && rows[i].Some? && rows[i].value.to == Some(wallet) ==> rows[i].value in w.transfers)
    && (!w.complete ==> forall i :: 0 <= i < n && rows[i].Some? ==>
            rows[i].value.block <= w.coveredTo + 1 || rows[i].value.block == 0)
  }

  /** Nothing is returned that the index did not list. */
  ghost predicate FromRanged(transfers: seq<Entry>, x: Index) {
    forall e :: e in transfers ==> Some(e) in x.ranged
  }

  lemma KeptRests(x: Index, read: nat, requests: nat, wallet: Address, coveredTo: int, complete: bool)
    requires read <= |x.ranged|
    requires !complete ==> coveredTo == CutAt(HighestSeen(x.ranged[..read]), coveredTo)
    ensures var w := Walk(KeptOf(x.ranged[..read], wallet), requests, coveredTo, complete);
            RestsOn(w, x.ranged, read, wallet) && FromRanged(w.transfers, x)
  {
    hide Filter, Map, HighestSeen;
    var a := x.ranged[..read];
    var kept := Filter(a, ToWallet(wallet));
    forall i | 0 <= i < read && x.ranged[i].Some? && x.ranged[i].value.to == Some(wallet)
      ensures x.ranged[i].value in KeptOf(a, wallet)
    {
      assert a[i] == x.ranged[i] && x.ranged[i] in kept;
      var j :| 0 <= j < |kept| && kept[j] == x.ranged[i];
      assert KeptOf(a, wallet)[j] == x.ranged[i].value;
    }
    forall e | e in KeptOf(a, wallet) ensures Some(e) in x.ranged {
      var j :| 0 <= j < |kept| && AsEntry()(kept[j]) == e;
      assert kept[j] in kept;
    }
    HighestIsHighest(a);
    forall i | 0 <= i < read && x.ranged[i].Some? && !complete
      ensures x.ranged[i].value.block <= coveredTo + 1 || x.ranged[i].value.block == 0
    {
      assert a[i] == x.ranged[i];
    }
  }

  /** Coverage of a walk cut short: below the highest block, or what it was before the first. */
  function CutAt(highest: Option<nat>, before: int): int {
    if highest.None? then before else highest.value - 1
  }

  lemma {:induction false} HighestIsHighest(items: seq<Item>)
    ensures forall i :: 0 <= i < |items| && items[i].Some? ==>
              items[i].value.block == 0 ||
              (HighestSeen(items).Some? && items[i].value.block <= HighestSeen(items).value)
  {
    if items != [] { HighestIsHighest(items[..|items| - 1]); }
  }

  /**
   * The ranged walk. None is a thrown explorer error. A short page ends the
   * range; a page limit or the deadline leaves the prefix below the last block.
   * It throws, ends or is cut exactly where the requests say so.
   */
  method WalkTxlist(x: Index, wallet: Address, from: nat, to: int, pageSize: nat, maxPages: nat, ghost c: Blocks)
    returns (r: Option<Walk>)
    requires pageSize > 0 && from - 1 <= to < |c|
    ensures r.Some? && HonestRanged(x, c, wallet, from, to) ==> Refines(r.value, c, wallet, from, to)
    ensures r.Some? && r.value.complete ==> r.value.coveredTo == to
    ensures r.Some? && Within(x.ranged, from, to) ==> from - 1 <= r.value.coveredTo <= to
    ensures r.None? <==> V1Throws(x, pageSize, maxPages)
    ensures r.Some? && r.value.complete <==> V1Ends(x, pageSize, maxPages)
    ensures r.Some? && !r.value.complete ==> r.value.requests == maxPages || x.late(r.value.requests + 1)
    ensures r.Some? ==>
              RestsOn(r.value, x.ranged, if r.value.complete then |x.ranged| else r.value.requests * pageSize, wallet)
    ensures r.Some? ==> FromRanged(r.value.transfers, x)
  {
    hide Refines, HonestRanged, KeptOf, HighestSeen, Within, V1Ends, V1Throws, V1EndsAt, V1ThrowsAt, V1Clear, RestsOn,
         FromRanged, CutAt;
    NothingRead(wallet);
    NothingAsked(x);
    var transfers: seq<Entry> := [];
    var requests: nat := 0;
    var highest: Option<nat> := None;
    var read: nat := 0;
    for page := 1 to maxPages + 1
      invariant requests == page - 1 && read == requests * pageSize <= |x.ranged| && V1Clear(x, requests)
      invariant transfers == KeptOf(x.ranged[..read], wallet) && highest == HighestSeen(x.ranged[..read])
    {
      if x.late(page) {
        RangedCut(x, read, requests, c, wallet, from, to);
        V1Cut(x, pageSize, maxPages, requests);
        return Some(Walk(transfers, requests, CutAt(highest, from - 1), false));
      }
      V1Next(x, pageSize, requests);
      if x.v1Fails(page) {
        V1Thrown(x, pageSize, maxPages, page);
        return None;
      }
      requests := requests + 1;
      var items := RangedPage(x.ranged, read, pageSize);
      if items == [] && x.v1SaysNone(page) {
        assert x.ranged[..read] == x.ranged;
        RangedWhole(x, requests, c, wallet, from, to);
        V1Done(x, pageSize, maxPages, page);
        return Some(Walk(transfers, requests, to, true));
      }
      transfers, highest := ReadRanged(x.ranged, read, items, wallet, transfers, highest);
      read := read + |items|;
      if |items| < pageSize {
        assert x.ranged[..read] == x.ranged;
        RangedWhole(x, requests, c, wallet, from, to);
        V1Done(x, pageSize, maxPages, page);
        return Some(Walk(transfers, requests, to, true));
      }
    }
    RangedCut(x, read, requests, c, wallet, from, to);
    V1Cut(x, pageSize, maxPages, requests);
    return Some(Walk(transfers, requests, CutAt(highest, from - 1), false));
  }

  lemma NothingRead(wallet: Address)
    ensures KeptOf([], wallet) == [] && HighestSeen([]) == None
  {
  }

  function KeptOf(items: seq<Item>, wallet: Address): seq<Entry> {
    Map(Filter(items, ToWallet(wallet)), AsEntry())
  }

  lemma RangedCut(x: Index, read: nat, requests: nat, c: Blocks, wallet: Address, from: nat, to: int)
    requires from - 1 <= to < |c| && read <= |x.ranged|
    ensures var covered := CutAt(HighestSeen(x.ranged[..read]), from - 1);
            var w := Walk(KeptOf(x.ranged[..read], wallet), requests, covered, false);
            && (Within(x.ranged, from, to) ==> from - 1 <= w.coveredTo <= to)
            && (HonestRanged(x, c, wallet, from, to) ==> Refines(w, c, wallet, from, to))
            && RestsOn(w, x.ranged, read, wallet) && FromRanged(w.transfers, x)
  {
    KeptRests(x, read, requests, wallet, CutAt(HighestSeen(x.ranged[..read]), from - 1), false);
    if HonestRanged(x, c, wallet, from, to) { PrefixRefines(x, read, c, wallet, from, to); }
  }

  lemma RangedWhole(x: Index, requests: nat, c: Blocks, wallet: Address, from: nat, to: int)
    requires from - 1 <= to < |c|
    ensures var w := Walk(KeptOf(x.ranged, wallet), requests, to, true);
            && (HonestRanged(x, c, wallet, from, to) ==> Refines(w, c, wallet, from, to))
            && RestsOn(w, x.ranged, |x.ranged|, wallet) && FromRanged(w.transfers, x)
  {
    assert x.ranged[..|x.ranged|] == x.ranged;
    KeptRests(x, |x.ranged|, requests, wallet, to, true);
    if HonestRanged(x, c, wallet, from, to) { WholeRefines(x, c, wallet, from, to); }
  }

  /** The rows of one v1 page, folded into the transfers and the highest block so far. */
  method ReadRanged(rows: seq<Item>, read: nat, items: seq<Item>, wallet: Address, before: seq<Entry>, top: Option<nat>)
    returns (transfers: seq<Entry>, highest: Option<nat>)
    requires read + |items| <= |rows| && items == rows[read..read + |items|]
    requires before == KeptOf(rows[..read], wallet) && top == HighestSeen(rows[..read])
    ensures transfers == KeptOf(rows[..read + |items|], wallet)
    ensures highest == HighestSeen(rows[..read + |items|])
  {
    transfers, highest := before, top;
    for i := 0 to |items|
      invariant transfers == KeptOf(rows[..read + i], wallet)
      invariant highest == HighestSeen(rows[..read + i])
    {
      assert rows[..read + i + 1][..read + i] == rows[..read + i];
      var parsed := items[i];
      if parsed.Some? {
        if parsed.value.block > (if highest.Some? then highest.value else 0) { highest := Some(parsed.value.block); }
        if parsed.value.to == Some(wallet) { transfers := transfers + [parsed.value]; }
      }
    }
  }

  /* ------------------------------------------------- v2 addresses/{a}/txs */

  function BlockOf(): Entry -> int {
    (e: Entry) => e.block
  }

  function SortByBlock(ts: seq<Entry>): (r: seq<Entry>)
    ensures multiset(r) == multiset(ts)
  {
    SortBy(ts, BlockOf())
  }

  /** Multiplicity survives mapping, so an exact walk stays exact when it is sorted. */
  lemma {:induction false} MapCount(ts: seq<Entry>, us: seq<Entry>)
    requires multiset(ts) == multiset(us)
    ensures multiset(Map(ts, SightedOf())) == multiset(Map(us, SightedOf()))
    decreases |ts|
  {
    hide Map, SightedOf;
    if ts == [] {
      assert |multiset(us)| == 0;
      assert us == ts;
    } else {
      var e, ts' := ts[|ts| - 1], ts[..|ts| - 1];
      assert e in multiset(us);
      var i :| 0 <= i < |us| && us[i] == e;
      var us' := us[..i] + us[i + 1..];
      MapDrop(us, i);
      MapDrop(ts, |ts| - 1);
      assert ts[..|ts| - 1] + ts[|ts|..] == ts';
      CancelOne(multiset(ts'), multiset(us'), e);
      MapCount(ts', us');
    }
  }

  lemma CancelOne<T>(a: multiset<T>, b: multiset<T>, e: T)
    requires a + multiset{e} == b + multiset{e}
    ensures a == b
  {
    assert a == (a + multiset{e}) - multiset{e};
    assert b == (b + multiset{e}) - multiset{e};
  }

  lemma MapDrop(us: seq<Entry>, i: nat)
    requires i < |us|
    ensures multiset(us) == multiset(us[..i] + us[i + 1..]) + multiset{us[i]}
    ensures multiset(Map(us, SightedOf()))
         == multiset(Map(us[..i] + us[i + 1..], SightedOf())) + multiset{SightedOf()(us[i])}
  {
    var f := SightedOf();
    DropOne(us, i);
    DropOne(Map(us, f), i);
    assert Map(us[..i] + us[i + 1..], f) == Map(us, f)[..i] + Map(us, f)[i + 1..];
  }

  lemma SortedRefines(ts: seq<Entry>, c: Blocks, wallet: Address, from: nat, to: int)
    requires to < |c| && from - 1 <= to
    requires multiset(Map(ts, SightedOf())) == multiset(NaiveScan(c, wallet, from, to))
    ensures multiset(Claimed(SortByBlock(ts), to)) == multiset(NaiveScan(c, wallet, from, to))
  {
    MapCount(ts, SortByBlock(ts));
    CutRefines(SortByBlock(ts), c, wallet, from, to, to);
  }

  /** A walk that claims nothing and found nothing below the range is trivially exact. */
  lemma NothingClaimed(ts: seq<Entry>, c: Blocks, wallet: Address, from: nat)
    requires forall e :: e in ts ==> e.block >= from
    requires from - 1 < |c|
    ensures Claimed(ts, from - 1) == NaiveScan(c, wallet, from, from - 1)
  {
    FilterNone(ts, EntryUpTo(from - 1));
  }

  /** The first n pages are in time, answered, and all of the range or newer. */
  ghost predicate V2Clear(x: Index, from: int, n: nat) {
    forall k: nat :: k < n && k < |x.pages| ==> !x.late(k) && !x.v2Fails(k) && !HasOlder(x.pages[k], from)
  }

  /** Page p is read, and it is the last there is or holds a row older than the range. */
  ghost predicate V2EndsAt(x: Index, from: int, p: nat) {
    && p < |x.pages| && V2Clear(x, from, p) && !x.late(p) && !x.v2Fails(p)
    && (HasOlder(x.pages[p], from) || p + 1 == |x.pages|)
  }

  ghost predicate V2ThrowsAt(x: Index, from: int, p: nat) {
    p < |x.pages| && V2Clear(x, from, p) && !x.late(p) && x.v2Fails(p)
  }

  /** Within the page limit the history ends, or reaches a row older than the range. */
  ghost predicate V2Ends(x: Index, from: int, maxPages: nat) {
    exists p: nat :: p < maxPages && V2EndsAt(x, from, p)
  }

  /** A request fails before that, and before the deadline. */
  ghost predicate V2Throws(x: Index, from: int, maxPages: nat) {
    exists p: nat :: p < maxPages && V2ThrowsAt(x, from, p)
  }

  lemma NoPageAsked(x: Index, from: int)
    ensures V2Clear(x, from, 0)
  {
  }

  /** One more page: the request fails, or it ends the walk, or all of it is of the range or newer. */
  lemma V2Next(x: Index, from: int, n: nat)
    requires n < |x.pages| && V2Clear(x, from, n) && !x.late(n)
    ensures x.v2Fails(n) ==> V2ThrowsAt(x, from, n)
    ensures !x.v2Fails(n) && (HasOlder(x.pages[n], from) || n + 1 == |x.pages|) ==> V2EndsAt(x, from, n)
    ensures !x.v2Fails(n) && !HasOlder(x.pages[n], from) ==> V2Clear(x, from, n + 1)
  {
    hide HasOlder;
  }

  lemma V2Done(x: Index, from: int, maxPages: nat, q: nat)
    requires q < maxPages && V2EndsAt(x, from, q)
    ensures V2Ends(x, from, maxPages) && !V2Throws(x, from, maxPages)
  {
  }

  lemma V2Thrown(x: Index, from: int, maxPages: nat, q: nat)
    requires q < maxPages && V2ThrowsAt(x, from, q)
    ensures V2Throws(x, from, maxPages) && !V2Ends(x, from, maxPages)
  {
  }

  lemma V2Cut(x: Index, from: int, maxPages: nat, n: nat)
    requires n <= maxPages && n < |x.pages| && V2Clear(x, from, n) && (n == maxPages || x.late(n))
    ensures !V2Ends(x, from, maxPages) && !V2Throws(x, from, maxPages)
  {
  }

  /** In a newest-first history what is kept is all of the range in the pages that were read. */
  ghost predicate KeepsPages(w: Walk, x: Index, wallet: Address, from: nat, to: int) {
    Descending(Flatten(x.pages)) && w.requests <= |x.pages| ==>
      multiset(w.transfers) == multiset(Wanted(Flatten(x.pages[..w.requests]), wallet, from, to))
  }

  /** And a walk that completed holds every transfer to the wallet in the range that the history lists. */
  ghost predicate KeepsRange(w: Walk, x: Index, wallet: Address, from: nat, to: int) {
    Descending(Flatten(x.pages)) ==>
      forall e :: Some(e) in Flatten(x.pages) && e.to == Some(wallet) && from <= e.block <= to ==> e in w.transfers
  }

  ghost predicate Ascends(transfers: seq<Entry>) {
    forall i, j :: 0 <= i < j < |transfers| ==> transfers[i].block <= transfers[j].block
  }

  /**
   * The paged walk, newest first. It claims the whole range when it saw a row
   * below it or ran out of history, and nothing at all otherwise. It throws, ends
   * or is cut exactly where the requests say so.
   */
  method WalkAddressV2(x: Index, wallet: Address, from: nat, to: int, maxPages: nat, ghost c: Blocks)
    returns (r: Option<Walk>)
    requires x.pages != [] && from - 1 <= to < |c|
    ensures r.Some? && HonestPaged(x, c, wallet, from, to) ==> Refines(r.value, c, wallet, from, to)
    ensures r.Some? ==> r.value.coveredTo == if r.value.complete then to else from - 1
    ensures r.Some? ==> FromHistory(r.value.transfers, x, from, to)
    ensures r.None? <==> V2Throws(x, from, maxPages)
    ensures r.Some? && r.value.complete <==> V2Ends(x, from, maxPages)
    ensures r.Some? ==>
              r.value.requests <= |x.pages| && KeepsPages(r.value, x, wallet, from, to) && Ascends(r.value.transfers)
    ensures r.Some? && r.value.complete ==> KeepsRange(r.value, x, wallet, from, to)
    ensures r.Some? && !r.value.complete ==> r.value.requests == maxPages || x.late(r.value.requests)
  {
    NoPages(x, wallet, from, to);
    NoPageAsked(x, from);
    hide Refines, HonestPaged, PagedSoFar, FromHistory, Wanted, Bottom, V2Ends, V2Throws, HasOlder, KeepsPages,
         KeepsRange, Ascends, V2Clear, V2EndsAt, V2ThrowsAt, SortByBlock, Flatten, Descending;
    var transfers: seq<Entry> := [];
    var requests := 0;
    var page := 0;
    while page < maxPages && !x.late(page)
      invariant page <= maxPages && page < |x.pages| && requests == page
      invariant PagedSoFar(x, page, transfers, wallet, from, to)
      invariant V2Clear(x, from, page)
    {
      V2Next(x, from, page);
      if x.v2Fails(page) {
        V2Thrown(x, from, maxPages, page);
        return None;
      }
      requests := requests + 1;
      ghost var at: nat := page;
      var found, bottom := ReadPage(x.pages[page], wallet, from, to);
      NextPage(x, at, transfers, found, wallet, from, to);
      transfers := transfers + found;
      page := page + 1;
      if bottom || page == |x.pages| {
        PagedDone(x, page, transfers, bottom, requests, c, wallet, from, to);
        V2Done(x, from, maxPages, at);
        SortedPages(x, page, transfers, to, true, wallet, from, to);
        return Some(Walk(SortByBlock(transfers), requests, to, true));
      }
    }
    PagedCut(x, page, transfers, requests, c, wallet, from, to);
    V2Cut(x, from, maxPages, page);
    SortedPages(x, page, transfers, from - 1, false, wallet, from, to);
    return Some(Walk(SortByBlock(transfers), requests, from - 1, false));
  }

  lemma SortedPages(x: Index, n: nat, transfers: seq<Entry>, coveredTo: int, complete: bool, wallet: Address,
                    from: nat, to: int)
    requires n <= |x.pages| && PagedSoFar(x, n, transfers, wallet, from, to)
    ensures KeepsPages(Walk(SortByBlock(transfers), n, coveredTo, complete), x, wallet, from, to)
    ensures Ascends(SortByBlock(transfers))
  {
    SortBySorts(transfers, BlockOf());
    assert forall e :: BlockOf()(e) == e.block;
  }

  /** After n pages: what was kept is in range, from the index, and in a newest-first history is all of it. */
  ghost predicate PagedSoFar(x: Index, n: nat, transfers: seq<Entry>, wallet: Address, from: nat, to: int)
    requires n <= |x.pages|
  {
    && (Descending(Flatten(x.pages)) ==> transfers == Wanted(Flatten(x.pages[..n]), wallet, from, to))
    && FromHistory(transfers, x, from, to)
  }

  /** Nothing is returned that the index did not list in the range. */
  ghost predicate FromHistory(transfers: seq<Entry>, x: Index, from: int, to: int) {
    forall e :: e in transfers ==> from <= e.block <= to && Some(e) in Flatten(x.pages)
  }

  lemma NoPages(x: Index, wallet: Address, from: nat, to: int)
    ensures PagedSoFar(x, 0, [], wallet, from, to)
  {
  }

  lemma NextPage(x: Index, n: nat, transfers: seq<Entry>, found: seq<Entry>, wallet: Address, from: nat, to: int)
    requires n < |x.pages| && PagedSoFar(x, n, transfers, wallet, from, to)
    requires found == Wanted(x.pages[n][..Bottom(x.pages[n], from)], wallet, from, to)
    requires forall e :: e in found ==> from <= e.block <= to
    ensures PagedSoFar(x, n + 1, transfers + found, wallet, from, to)
  {
    FlattenAppend(x.pages, n);
    FlattenPrefix(x.pages, n + 1);
    var all, a := Flatten(x.pages), Flatten(x.pages[..n + 1]);
    PageJoins(Flatten(x.pages[..n]), x.pages[n], found, wallet, from, to);
    forall e | e in found ensures Some(e) in all {
      assert Some(e) in a;
      var i :| 0 <= i < |a| && a[i] == Some(e);
      assert all[i] == a[i];
    }
    if Descending(all) {
      forall i, j | 0 <= i < j < |a| && a[i].Some? && a[j].Some? ensures a[i].value.block >= a[j].value.block {
        assert all[i] == a[i] && all[j] == a[j];
      }
    }
  }

  ghost predicate HasOlder(items: seq<Item>, from: int) {
    exists i :: 0 <= i < |items| && items[i].Some? && items[i].value.block < from
  }

  /** First row of a page that is older than the range, or its length. */
  function Bottom(items: seq<Item>, from: nat): (n: nat)
    ensures n <= |items|
    ensures n < |items| ==> items[n].Some? && items[n].value.block < from
    ensures forall i :: 0 <= i < n ==> items[i].None? || items[i].value.block >= from
  {
    if items == [] then 0
    else if items[0].Some? && items[0].value.block < from then 0
    else 1 + Bottom(items[1..], from)
  }

  lemma NothingWanted(wallet: Address, lo: int, hi: int)
    ensures Wanted([], wallet, lo, hi) == []
  {
  }

  /** One more row adds itself, if it is wanted, and nothing else. */
  lemma WantedSnoc(items: seq<Item>, wallet: Address, lo: int, hi: int, i: nat)
    requires i < |items|
    ensures Wanted(items[..i + 1], wallet, lo, hi)
         == Wanted(items[..i], wallet, lo, hi) + if InRange(wallet, lo, hi)(items[i]) then [items[i].value] else []
  {
    assert items[..i + 1][..i] == items[..i];
  }

  /** Rows of one v2 page until the first one below the range. */
  method ReadPage(items: seq<Item>, wallet: Address, from: nat, to: int) returns (found: seq<Entry>, bottom: bool)
    ensures found == Wanted(items[..Bottom(items, from)], wallet, from, to)
    ensures bottom <==> HasOlder(items, from)
    ensures forall e :: e in found ==> from <= e.block <= to && Some(e) in items
  {
    NothingWanted(wallet, from, to);
    hide Wanted, Bottom;
    found, bottom := [], false;
    var i := 0;
    while i < |items|
      invariant i <= |items|
      invariant found == Wanted(items[..i], wallet, from, to)
      invariant forall k :: 0 <= k < i ==> items[k].None? || items[k].value.block >= from
      invariant forall e :: e in found ==> from <= e.block <= to && Some(e) in items
    {
      var parsed := items[i];
      if parsed.Some? && parsed.value.block < from {
        BottomIs(items, from, i);
        return found, true;
      }
      WantedSnoc(items, wallet, from, to, i);
      if parsed.Some? && parsed.value.block <= to && parsed.value.to == Some(wallet) {
        found := found + [parsed.value];
      }
      i := i + 1;
    }
    BottomIs(items, from, i);
  }

  lemma {:induction false} BottomIs(items: seq<Item>, from: nat, n: nat)
    requires n <= |items|
    requires forall k :: 0 <= k < n ==> items[k].None? || items[k].value.block >= from
    requires n < |items| ==> items[n].Some? && items[n].value.block < from
    ensures Bottom(items, from) == n
  {
    if n > 0 {
      assert items[0].None? || items[0].value.block >= from;
      BottomIs(items[1..], from, n - 1);
    }
  }

  /** In a newest-first history nothing after the first older row belongs to the range. */
  lemma PageJoins(before: seq<Item>, items: seq<Item>, found: seq<Entry>, wallet: Address, from: nat, to: int)
    requires found == Wanted(items[..Bottom(items, from)], wallet, from, to)
    ensures Descending(before + items) ==>
              Wanted(before, wallet, from, to) + found == Wanted(before + items, wallet, from, to)
    ensures forall e :: e in found ==> Some(e) in before + items
  {
    var n := Bottom(items, from);
    var head, tail := items[..n], items[n..];
    assert items == head + tail;
    forall e | e in found ensures Some(e) in before + items {
      WantedComesFrom(head, wallet, from, to, e);
    }
    if Descending(before + items) {
      forall i | 0 <= i < |tail| && tail[i].Some? ensures tail[i].value.block < from {
        assert (before + items)[|before| + n] == tail[0];
        assert (before + items)[|before| + n + i] == tail[i];
      }
      WantedNone(tail, wallet, from, to);
      WantedAppend(head, tail, wallet, from, to);
      WantedAppend(before, items, wallet, from, to);
      assert Wanted(items, wallet, from, to) == found;
    }
  }

  /** Once a row below the range was seen, or the history ended, the rest holds nothing for it. */
  lemma RestIsOlder(x: Index, n: nat, bottom: bool, wallet: Address, from: nat, to: int)
    requires Descending(Flatten(x.pages)) && n <= |x.pages|
    requires bottom ==> n > 0 && HasOlder(x.pages[n - 1], from)
    requires !bottom ==> n == |x.pages|
    ensures Wanted(Flatten(x.pages), wallet, from, to) == Wanted(Flatten(x.pages[..n]), wallet, from, to)
  {
    if !bottom {
      assert x.pages[..n] == x.pages;
    } else {
      FlattenPrefix(x.pages, n);
      FlattenAppend(x.pages, n - 1);
      var all, a := Flatten(x.pages), Flatten(x.pages[..n]);
      var before := Flatten(x.pages[..n - 1]);
      var i :| 0 <= i < |x.pages[n - 1]| && x.pages[n - 1][i].Some? && x.pages[n - 1][i].value.block < from;
      var rest := all[|a|..];
      assert all == a + rest;
      assert all[|before| + i] == x.pages[n - 1][i];
      forall k | 0 <= k < |rest| && rest[k].Some? ensures rest[k].value.block < from {
        assert all[|a| + k] == rest[k];
      }
      WantedNone(rest, wallet, from, to);
      WantedAppend(a, rest, wallet, from, to);
    }
  }

  lemma PagedDone(x: Index, n: nat, transfers: seq<Entry>, bottom: bool, requests: nat, c: Blocks, wallet: Address,
                  from: nat, to: int)
    requires n <= |x.pages| && PagedSoFar(x, n, transfers, wallet, from, to)
    requires bottom ==> n > 0 && HasOlder(x.pages[n - 1], from)
    requires !bottom ==> n == |x.pages|
    requires from - 1 <= to < |c|
    ensures HonestPaged(x, c, wallet, from, to) ==>
              Refines(Walk(SortByBlock(transfers), requests, to, true), c, wallet, from, to)
    ensures FromHistory(SortByBlock(transfers), x, from, to)
    ensures KeepsRange(Walk(SortByBlock(transfers), requests, to, true), x, wallet, from, to)
  {
    SortByMembers(transfers, BlockOf());
    if Descending(Flatten(x.pages)) {
      RestIsOlder(x, n, bottom, wallet, from, to);
      forall e | Some(e) in Flatten(x.pages) && e.to == Some(wallet) && from <= e.block <= to ensures e in transfers {
        WantedHas(Flatten(x.pages), wallet, from, to, e);
      }
    }
    if HonestPaged(x, c, wallet, from, to) { SortedRefines(transfers, c, wallet, from, to); }
  }

  lemma WantedHas(items: seq<Item>, wallet: Address, lo: int, hi: int, e: Entry)
    requires Some(e) in items && e.to == Some(wallet) && lo <= e.block <= hi
    ensures e in Wanted(items, wallet, lo, hi)
  {
    var kept := Filter(items, InRange(wallet, lo, hi));
    assert InRange(wallet, lo, hi)(Some(e)) && Some(e) in kept;
    var k :| 0 <= k < |kept| && kept[k] == Some(e);
    assert Wanted(items, wallet, lo, hi)[k] == e;
  }

  lemma PagedCut(x: Index, n: nat, transfers: seq<Entry>, requests: nat, c: Blocks, wallet: Address, from: nat, to: int)
    requires n <= |x.pages| && PagedSoFar(x, n, transfers, wallet, from, to)
    requires from - 1 <= to < |c|
    ensures Refines(Walk(SortByBlock(transfers), requests, from - 1, false), c, wallet, from, to)
    ensures FromHistory(SortByBlock(transfers), x, from, to)
  {
    SortByMembers(transfers, BlockOf());
    NothingClaimed(SortByBlock(transfers), c, wallet, from);
  }

  /* --------------------------------------------------------- block fallback */

  function FromBlock(b: nat): Inclusion -> Entry {
    (t: Inclusion) => Entry(t.hash, t.hash.from, t.hash.to, t.hash.value, b, true)
  }

  /** What reading block b turns up. */
  function BlockEntries(c: Blocks, wallet: Address, b: nat): seq<Entry>
    requires b < |c|
  {
    Map(Filter(c[b], Addressed(wallet)), FromBlock(b))
  }

  function BlocksEntries(c: Blocks, wallet: Address, lo: nat, hi: int): (r: seq<Entry>)
    requires hi < |c|
    ensures forall e :: e in r ==> lo <= e.block <= hi && Agrees(e) && e.succeeded
    decreases hi - lo + 1
  {
    if hi < lo then [] else BlocksEntries(c, wallet, lo, hi - 1) + BlockEntries(c, wallet, hi)
  }

  lemma {:induction false} BlocksEntriesSight(c: Blocks, wallet: Address, lo: nat, hi: int)
    requires hi < |c|
    ensures Map(BlocksEntries(c, wallet, lo, hi), SightedOf()) == NaiveScan(c, wallet, lo, hi)
    decreases hi - lo + 1
  {
    if lo <= hi {
      BlocksEntriesSight(c, wallet, lo, hi - 1);
      BlockEntriesSight(c, wallet, hi);
      hide BlockEntries, ScanBlock, Map;
      MapAppend(BlocksEntries(c, wallet, lo, hi - 1), BlockEntries(c, wallet, hi), SightedOf());
    } else {
      assert BlocksEntries(c, wallet, lo, hi) == [];
    }
  }

  lemma BlockEntriesSight(c: Blocks, wallet: Address, b: int)
    requires 0 <= b < |c|
    ensures Map(BlockEntries(c, wallet, b), SightedOf()) == ScanBlock(c, wallet, b)
  {
  }

  lemma BlocksRefine(c: Blocks, wallet: Address, from: nat, to: int, covered: int, requests: nat)
    requires from - 1 <= covered <= to < |c|
    ensures var w := Walk(BlocksEntries(c, wallet, from, covered), requests, covered, true);
            Refines(w, c, wallet, from, to) && Map(w.transfers, SightedOf()) == NaiveScan(c, wallet, from, covered)
  {
    BlocksEntriesSight(c, wallet, from, covered);
    CutRefines(BlocksEntries(c, wallet, from, covered), c, wallet, from, covered, covered);
  }

  /** One batch of blocks, read in order. */
  method ReadBatch(c: Blocks, wallet: Address, from: nat, next: int, last: int, before: seq<Entry>)
    returns (candidates: seq<Entry>)
    requires from <= next <= last < |c| && before == BlocksEntries(c, wallet, from, next - 1)
    ensures candidates == BlocksEntries(c, wallet, from, last)
  {
    candidates := before;
    for b := next to last + 1
      invariant candidates == BlocksEntries(c, wallet, from, b - 1)
    {
      candidates := candidates + BlockEntries(c, wallet, b);
    }
  }

  /**
   * The batches read, by the block each began with: one after the other from the start, every one in
   * time and answered.
   */
  ghost predicate Asked(begins: seq<nat>, from: nat, batchSize: nat, late: nat -> bool, fails: nat -> bool) {
    && (begins != [] ==> begins[0] == from)
    && (forall i :: 0 < i < |begins| ==> begins[i] == begins[i - 1] + batchSize)
    && (forall b :: b in begins ==> !late(b) && !fails(b))
  }

  lemma NothingYet(c: Blocks, wallet: Address, from: nat, batchSize: nat, late: nat -> bool, fails: nat -> bool)
    requires from - 1 < |c|
    ensures Asked([], from, batchSize, late, fails) && BlocksEntries(c, wallet, from, from - 1) == []
  {
  }

  lemma AskedMore(begins: seq<nat>, from: nat, batchSize: nat, late: nat -> bool, fails: nat -> bool, next: nat)
    requires Asked(begins, from, batchSize, late, fails) && !late(next) && !fails(next)
    requires next == if begins == [] then from else begins[|begins| - 1] + batchSize
    ensures Asked(begins + [next], from, batchSize, late, fails)
  {
  }

  /**
   * Read blocks directly, a batch at a time, stopping at the deadline or at the
   * first failed batch. What it found is the naive scan of what it covered, in order.
   */
  method FallbackBlockScan(c: Blocks, wallet: Address, from: nat, to: int, batchSize: nat, late: nat -> bool,
                           fails: nat -> bool)
    returns (w: Walk, error: bool, ghost begins: seq<nat>)
    requires from - 1 <= to < |c| && batchSize > 0
    ensures Refines(w, c, wallet, from, to) && w.complete
    ensures Map(w.transfers, SightedOf()) == NaiveScan(c, wallet, from, w.coveredTo)
    ensures from - 1 <= w.coveredTo <= to
    ensures w.coveredTo < to ==> late(w.coveredTo + 1) || fails(w.coveredTo + 1)
    ensures Asked(begins, from, batchSize, late, fails)
    ensures w.coveredTo == if begins == [] then from - 1 else Min(to, begins[|begins| - 1] + batchSize - 1)
    ensures error <==> w.coveredTo < to && !late(w.coveredTo + 1)
    ensures error ==> fails(w.coveredTo + 1)
    ensures forall e :: e in w.transfers ==> Agrees(e) && e.succeeded
    ensures w.requests == w.coveredTo - from + 1
  {
    hide Refines, NaiveScan, Asked, BlocksEntries, Map;
    NothingYet(c, wallet, from, batchSize, late, fails);
    var candidates: seq<Entry> := [];
    var requests := 0;
    var covered: int := from - 1;
    var next: nat := from;
    error, begins := false, [];
    while next <= to
      invariant next >= from
      invariant covered == next - 1 && covered <= to
      invariant candidates == BlocksEntries(c, wallet, from, next - 1)
      invariant requests == covered - from + 1
      invariant Asked(begins, from, batchSize, late, fails)
      invariant next <= to ==> next == if begins == [] then from else begins[|begins| - 1] + batchSize
      invariant covered == if begins == [] then from - 1 else Min(to, begins[|begins| - 1] + batchSize - 1)
    {
      if late(next) { break; }
      var last := Min(to, next + batchSize - 1);
      if fails(next) {
        error := true;
        break;
      }
      requests := requests + (last - next + 1);
      candidates := ReadBatch(c, wallet, from, next, last, candidates);
      AskedMore(begins, from, batchSize, late, fails, next);
      begins := begins + [next];
      covered := last;
      next := covered + 1;
    }
    BlocksRefine(c, wallet, from, to, covered, requests);
    w := Walk(candidates, requests, covered, true);
  }
}
