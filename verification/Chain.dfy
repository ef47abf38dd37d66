/**
 * The chain as the pipeline may rely on it: blocks of transactions, of which
 * everything at or below the safe head is final.
 */
module Chain {
  import opened Wrappers
  import opened Seqs

  type Address = nat

  /**
   * A transaction hash. Hashing is modelled as collision free, so a hash stands
   * for the signed content it commits to.
   */
  datatype Hash = Hash(from: Address, to: Option<Address>, value: nat, nonce: nat)

  /** A transaction in a block, with the outcome its receipt reports. */
  datatype Inclusion = Inclusion(hash: Hash, ok: bool)

  /** Block number is position; block 0 is the genesis block. */
  type Blocks = seq<seq<Inclusion>>

  /** Where a transaction addressed to the wallet was found. */
  datatype Sighted = Sighted(hash: Hash, block: int)

  /** Head minus the confirmation depth; nothing above it is acted on. */
  function SafeHead(head: int, confirmations: nat): (safe: int)
    ensures safe >= 0 && head - confirmations <= safe && (safe > 0 ==> safe == head - confirmations)
  {
    if head > confirmations then head - confirmations else 0
  }

  /** The highest final block. */
  function Settled(c: Blocks, confirmations: nat): int {
    SafeHead(|c| - 1, confirmations)
  }

  ghost predicate WellFormed(c: Blocks) {
    && |c| > 0
    && forall b, b', i, j ::
         0 <= b < |c| && 0 <= b' < |c| && 0 <= i < |c[b]| && 0 <= j < |c[b']| && c[b][i].hash == c[b'][j].hash
         ==> b == b' && i == j
  }

  ghost predicate At(c: Blocks, h: Hash, b: int, ok: bool) {
    0 <= b < |c| && Inclusion(h, ok) in c[b]
  }

  /** A successful transfer to the wallet in block b: somebody's money. */
  ghost predicate PaidAt(c: Blocks, wallet: Address, h: Hash, b: int) {
    h.to == Some(wallet) && At(c, h, b, true)
  }

  /** Time passing: whatever was final stays, anything above it may be rewritten. */
  ghost predicate Extends(c: Blocks, c': Blocks, confirmations: nat) {
    && WellFormed(c')
    && Settled(c, confirmations) <= Settled(c', confirmations)
    && forall b :: 0 <= b <= Settled(c, confirmations) && b < |c| ==> b < |c'| && c'[b] == c[b]
  }

  function Addressed(wallet: Address): Inclusion -> bool {
    (t: Inclusion) => t.hash.to == Some(wallet)
  }

  function SightedIn(b: int): Inclusion -> Sighted {
    (t: Inclusion) => Sighted(t.hash, b)
  }

  /** One block's transactions addressed to the wallet. */
  function ScanBlock(c: Blocks, wallet: Address, b: int): seq<Sighted>
    requires 0 <= b < |c|
  {
    Map(Filter(c[b], Addressed(wallet)), SightedIn(b))
  }

  /** The reference every discovery path is held to: read each block, keep what is addressed to us. */
  function NaiveScan(c: Blocks, wallet: Address, lo: nat, hi: int): seq<Sighted>
    requires hi < |c|
    decreases hi - lo + 1
  {
    if hi < lo then [] else NaiveScan(c, wallet, lo, hi - 1) + ScanBlock(c, wallet, hi)
  }

  lemma ScanBlockMembers(c: Blocks, wallet: Address, b: int, s: Sighted)
    requires 0 <= b < |c|
    ensures s in ScanBlock(c, wallet, b)
       <==> s.block == b && s.hash.to == Some(wallet) && exists ok :: At(c, s.hash, b, ok)
  {
    var kept := Filter(c[b], Addressed(wallet));
    if s in ScanBlock(c, wallet, b) {
      var i :| 0 <= i < |kept| && s == Sighted(kept[i].hash, b);
      assert kept[i] in kept;
      assert kept[i] == Inclusion(s.hash, kept[i].ok);
      assert At(c, s.hash, b, kept[i].ok);
    }
    if s.block == b && s.hash.to == Some(wallet) && exists ok :: At(c, s.hash, b, ok) {
      var ok :| At(c, s.hash, b, ok);
      assert Inclusion(s.hash, ok) in kept;
      var i :| 0 <= i < |kept| && kept[i] == Inclusion(s.hash, ok);
      assert ScanBlock(c, wallet, b)[i] == s;
    }
  }

  /** The naive scan holds exactly the transactions addressed to the wallet in its range. */
  lemma {:induction false} NaiveScanMembers(c: Blocks, wallet: Address, lo: nat, hi: int, s: Sighted)
    requires hi < |c|
    ensures s in NaiveScan(c, wallet, lo, hi)
       <==> lo <= s.block <= hi && s.hash.to == Some(wallet) && exists ok :: At(c, s.hash, s.block, ok)
    decreases hi - lo + 1
  {
    if lo <= hi {
      NaiveScanMembers(c, wallet, lo, hi - 1, s);
      ScanBlockMembers(c, wallet, hi, s);
    }
  }

  function BlockUpTo(k: int): Sighted -> bool {
    (s: Sighted) => s.block <= k
  }

  /** Cutting a longer scan at a block gives the shorter scan. */
  lemma {:induction false} NaiveScanCut(c: Blocks, wallet: Address, lo: nat, hi: int, k: int)
    requires hi < |c| && lo - 1 <= k <= hi
    ensures Filter(NaiveScan(c, wallet, lo, hi), BlockUpTo(k)) == NaiveScan(c, wallet, lo, k)
    decreases hi - k
  {
    if k == hi {
      NaiveScanBelow(c, wallet, lo, hi);
    } else {
      var front, last := NaiveScan(c, wallet, lo, hi - 1), ScanBlock(c, wallet, hi);
      FilterAppend(front, last, BlockUpTo(k));
      FilterNone(last, BlockUpTo(k));
      NaiveScanCut(c, wallet, lo, hi - 1, k);
    }
  }

  lemma {:induction false} NaiveScanBelow(c: Blocks, wallet: Address, lo: nat, hi: int)
    requires hi < |c|
    ensures Filter(NaiveScan(c, wallet, lo, hi), BlockUpTo(hi)) == NaiveScan(c, wallet, lo, hi)
  {
    forall s | s in NaiveScan(c, wallet, lo, hi) ensures BlockUpTo(hi)(s) {
      NaiveScanMembers(c, wallet, lo, hi, s);
    }
    FilterAll(NaiveScan(c, wallet, lo, hi), BlockUpTo(hi));
  }
}
