/** What a credit pass is allowed to do (worker/policy.ts). */
module Policy {
  import opened Wrappers

  datatype RailReason = Insolvent | DailyCap | DistributorFloat

  datatype RailInput = RailInput(
    totalWei: nat,
    credited24hWei: nat,
    dailyCapWei: nat,
    contractBalanceWei: nat,
    outstandingWei: nat,
    distributorBalanceWei: nat,
    gasMarginWei: nat)

  /** A pass goes ahead only if all three rails hold; insolvency is named before anything else. */
  function CheckRails(i: RailInput): (r: Option<RailReason>)
    ensures r.None? <==>
              && i.outstandingWei <= i.contractBalanceWei
              && i.credited24hWei + i.totalWei <= i.dailyCapWei
              && i.totalWei + i.gasMarginWei <= i.distributorBalanceWei
    ensures r == Some(Insolvent) <==> i.contractBalanceWei < i.outstandingWei
    ensures r == Some(DailyCap) <==>
              i.outstandingWei <= i.contractBalanceWei && i.credited24hWei + i.totalWei > i.dailyCapWei
  {
    if i.contractBalanceWei < i.outstandingWei then Some(Insolvent)
    else if i.credited24hWei + i.totalWei > i.dailyCapWei then Some(DailyCap)
    else if i.distributorBalanceWei < i.totalWei + i.gasMarginWei then Some(DistributorFloat)
    else None
  }

  const GAS_PER_NODE: nat := 15_000
  const GAS_OVERHEAD: nat := 60_000
  const GAS_SAFETY_FACTOR: nat := 2

  function GasMarginWei(nodeCount: nat, gasPriceWei: nat): nat {
    (GAS_OVERHEAD + GAS_PER_NODE * nodeCount) * gasPriceWei * GAS_SAFETY_FACTOR
  }

  /**
   * The margin covers 60k gas for the call and 15k for each node at any price up to twice
   * the one read, and is no larger than that takes.
   */
  lemma {:induction false} MarginCoversTheBatch(gasPerNode: seq<nat>, gasPriceWei: nat, priceAtSend: nat)
    requires forall i :: 0 <= i < |gasPerNode| ==> gasPerNode[i] <= 15_000
    ensures priceAtSend <= 2 * gasPriceWei ==>
              (60_000 + TotalGas(gasPerNode)) * priceAtSend <= GasMarginWei(|gasPerNode|, gasPriceWei)
    ensures (forall i :: 0 <= i < |gasPerNode| ==> gasPerNode[i] == 15_000) ==>
              (60_000 + TotalGas(gasPerNode)) * (2 * gasPriceWei) == GasMarginWei(|gasPerNode|, gasPriceWei)
  {
    GasBounds(gasPerNode);
    var gas, most := 60_000 + TotalGas(gasPerNode), 60_000 + 15_000 * |gasPerNode|;
    Scaled(most, gasPriceWei);
    if priceAtSend <= 2 * gasPriceWei { Products(gas, most, priceAtSend, 2 * gasPriceWei); }
  }

  function TotalGas(gasPerNode: seq<nat>): nat {
    if gasPerNode == [] then 0 else TotalGas(gasPerNode[..|gasPerNode| - 1]) + gasPerNode[|gasPerNode| - 1]
  }

  lemma {:induction false} GasBounds(gasPerNode: seq<nat>)
    requires forall i :: 0 <= i < |gasPerNode| ==> gasPerNode[i] <= 15_000
    ensures TotalGas(gasPerNode) <= 15_000 * |gasPerNode|
    ensures (forall i :: 0 <= i < |gasPerNode| ==> gasPerNode[i] == 15_000) ==>
              TotalGas(gasPerNode) == 15_000 * |gasPerNode|
  {
    if gasPerNode != [] { GasBounds(gasPerNode[..|gasPerNode| - 1]); }
  }

  lemma Products(a: nat, b: nat, p: nat, q: nat)
    requires a <= b && p <= q
    ensures a * p <= b * q
  {
    assert a * p <= b * p <= b * q;
  }

  lemma Scaled(gas: nat, price: nat)
    ensures gas * price * 2 == gas * (2 * price)
  {
  }
}
