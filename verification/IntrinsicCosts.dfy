/**
 Derivation of the intrinsic transaction costs (core/bin/system-constants-generator/src/intrinsic_costs.rs:151-211).

 The measurements of blocks with any number of transactions are a parameter. A subtraction that would go below zero
 and a failed assertion stop the derivation, which is modelled as None.
 */
module IntrinsicCosts {
  import opened Wrappers


  datatype Resource = Gas | Pubdata

  datatype Spent = Spent(gasConsumed: nat, pubdataPublished: nat, totalGasPaid: nat, totalPubdataPaid: nat) {
    function Consumed(r: Resource): nat {
      if r == Gas then gasConsumed else pubdataPublished
    }

    function Paid(r: Resource): nat {
      if r == Gas then totalGasPaid else totalPubdataPaid
    }
  }

  datatype Prices = Prices(gas: nat, pubdata: nat)

  datatype IntrinsicPrices = IntrinsicPrices(txGas: nat, txPubdata: nat, bootloaderGas: nat, bootloaderPubdata: nat) {
    function Tx(r: Resource): nat {
      if r == Gas then txGas else txPubdata
    }

    function Bootloader(r: Resource): nat {
      if r == Gas then bootloaderGas else bootloaderPubdata
    }
  }

  // What the virtual machine reports for a block of `n` transactions of one type.
  type Measurements = nat -> Spent

  function Max(a: nat, b: nat): nat {
    if a >= b then a else b
  }

  function SaturatingSub(a: nat, b: nat): nat {
    if a >= b then a - b else 0
  }

  function GetIntrinsicPrice(prev: Spent, next: Spent): Option<Prices> {
    if || next.gasConsumed < prev.gasConsumed || next.totalGasPaid < prev.totalGasPaid
       || next.pubdataPublished < prev.pubdataPublished || next.totalPubdataPaid < prev.totalPubdataPaid
    then None
    else
      Some(Prices(
             SaturatingSub(next.gasConsumed - prev.gasConsumed, next.totalGasPaid - prev.totalGasPaid),
             SaturatingSub(next.pubdataPublished - prev.pubdataPublished,
                           next.totalPubdataPaid - prev.totalPubdataPaid)))
  }

  function GetIntrinsicOverheads(measure: Measurements): Option<IntrinsicPrices> {
    var tx1 := GetIntrinsicPrice(measure(0), measure(1));
    var tx2 := GetIntrinsicPrice(measure(1), measure(2));
    var tx3 := GetIntrinsicPrice(measure(2), measure(3));
    if tx1.None? || tx2.None? || tx3.None? || tx2 != tx3 then None
    else
      Some(IntrinsicPrices(
             Max(tx1.value.gas, tx2.value.gas), Max(tx1.value.pubdata, tx2.value.pubdata),
             measure(0).gasConsumed, measure(0).pubdataPublished))
  }

  // ---------- What the constants are for ----------

  // What transaction `i` of a block consumes beyond what its user pays; negative if the user pays more.
  function Unpaid(measure: Measurements, r: Resource, i: nat): int {
    (measure(i + 1).Consumed(r) - measure(i).Consumed(r)) - (measure(i + 1).Paid(r) - measure(i).Paid(r))
  }

  // A block of `n` transactions is covered by the cost of the empty block, by what the users pay for their
  // transactions and by a constant charge per transaction.
  ghost predicate BlockIsCovered(measure: Measurements, r: Resource, bootloader: nat, charge: nat, n: nat) {
    measure(n).Consumed(r) <= bootloader + (measure(n).Paid(r) - measure(0).Paid(r)) + n * charge
  }

  ghost predicate EveryBlockIsCovered(measure: Measurements, r: Resource, bootloader: nat, charge: nat) {
    forall n: nat :: BlockIsCovered(measure, r, bootloader, charge, n)
  }

  // Transactions after the second cost no more than the second.
  ghost predicate LaterCostNoMore(measure: Measurements, r: Resource, n: nat) {
    forall i: nat :: 1 <= i < n ==> Unpaid(measure, r, i) <= Unpaid(measure, r, 1) || Unpaid(measure, r, i) <= 0
  }

  ghost predicate LaterCostTheSame(measure: Measurements, r: Resource) {
    forall i: nat :: 1 <= i ==> Unpaid(measure, r, i) == Unpaid(measure, r, 1)
  }

  lemma ChargeIsLargestUnpaid(measure: Measurements, r: Resource)
    requires GetIntrinsicOverheads(measure).Some?
    ensures var charge := GetIntrinsicOverheads(measure).value.Tx(r);
            && charge >= Unpaid(measure, r, 0) && charge >= Unpaid(measure, r, 1)
            && (charge == 0 || charge == Unpaid(measure, r, 0) || charge == Unpaid(measure, r, 1))
  {
  }

  lemma {:induction false} LargeChargeCovers(measure: Measurements, r: Resource, charge: nat, n: nat)
    requires forall i: nat :: i < n ==> Unpaid(measure, r, i) <= charge
    ensures BlockIsCovered(measure, r, measure(0).Consumed(r), charge, n)
  {
    if n > 0 {
      LargeChargeCovers(measure, r, charge, n - 1);
      assert Unpaid(measure, r, n - 1) <= charge;
      assert n * charge == (n - 1) * charge + charge;
    }
  }

  /** The derived charge covers blocks of every size in which later transactions cost no more than the second one,
      in gas and in pubdata. */
  lemma DerivedChargeCovers(measure: Measurements, r: Resource, n: nat)
    requires GetIntrinsicOverheads(measure).Some?
    requires LaterCostNoMore(measure, r, n)
    ensures var prices := GetIntrinsicOverheads(measure).value;
            BlockIsCovered(measure, r, prices.Bootloader(r), prices.Tx(r), n)
  {
    ChargeIsLargestUnpaid(measure, r);
    LargeChargeCovers(measure, r, GetIntrinsicOverheads(measure).value.Tx(r), n);
  }

  // Consumption of a block whose later transactions cost the same.
  lemma {:induction false} BlockCost(measure: Measurements, r: Resource, n: nat)
    requires LaterCostTheSame(measure, r) && 1 <= n
    ensures measure(n).Consumed(r) - measure(0).Consumed(r) - (measure(n).Paid(r) - measure(0).Paid(r))
            == Unpaid(measure, r, 0) + (n - 1) * Unpaid(measure, r, 1)
  {
    if n > 1 {
      BlockCost(measure, r, n - 1);
      assert Unpaid(measure, r, n - 1) == Unpaid(measure, r, 1);
      assert (n - 1) * Unpaid(measure, r, 1) == (n - 2) * Unpaid(measure, r, 1) + Unpaid(measure, r, 1);
    }
  }

  // A charge below the first or below the later costs leaves some block uncovered.
  lemma SmallChargeFails(measure: Measurements, r: Resource, charge: nat) returns (n: nat)
    requires LaterCostTheSame(measure, r)
    requires charge < Unpaid(measure, r, 0) || charge < Unpaid(measure, r, 1)
    ensures !BlockIsCovered(measure, r, measure(0).Consumed(r), charge, n)
  {
    var first, later := Unpaid(measure, r, 0), Unpaid(measure, r, 1);
    if charge < first {
      n := 1;
      BlockCost(measure, r, 1);
    } else {
      n := charge - first + 2;
      BlockCost(measure, r, n);
      Outgrows(n - 1, charge, later);
      assert n * charge == (n - 1) * charge + charge;
    }
  }

  lemma Outgrows(k: nat, charge: int, later: int)
    requires charge < later
    ensures k * charge + k <= k * later
  {
    assert k * (charge + 1) <= k * later;
  }

  /** If all later transactions cost what the second one does, a charge covers blocks of every size if and only if it
      is at least the derived one: the derived charge is the least that is safe. */
  lemma DerivedChargeIsLeast(measure: Measurements, r: Resource, charge: nat)
    requires GetIntrinsicOverheads(measure).Some?
    requires LaterCostTheSame(measure, r)
    ensures var prices := GetIntrinsicOverheads(measure).value;
            EveryBlockIsCovered(measure, r, prices.Bootloader(r), charge) <==> charge >= prices.Tx(r)
  {
    var prices := GetIntrinsicOverheads(measure).value;
    ChargeIsLargestUnpaid(measure, r);
    if charge >= prices.Tx(r) {
      forall n: nat ensures BlockIsCovered(measure, r, prices.Bootloader(r), charge, n) {
        LargeChargeCovers(measure, r, charge, n);
      }
    } else {
      var n := SmallChargeFails(measure, r, charge);
    }
  }

  // Measurements that only grow with the number of transactions.
  predicate Grows(prev: Spent, next: Spent) {
    && prev.gasConsumed <= next.gasConsumed && prev.pubdataPublished <= next.pubdataPublished
    && prev.totalGasPaid <= next.totalGasPaid && prev.totalPubdataPaid <= next.totalPubdataPaid
  }

  // The second and the third transaction leave the same unpaid, or neither leaves anything.
  predicate Settled(measure: Measurements, r: Resource) {
    || Unpaid(measure, r, 1) == Unpaid(measure, r, 2)
    || (Unpaid(measure, r, 1) <= 0 && Unpaid(measure, r, 2) <= 0)
  }

  /** The derivation goes through if and only if the four measurements grow and the costs have settled in both
      resources. */
  lemma DerivationSucceedsIff(measure: Measurements)
    ensures GetIntrinsicOverheads(measure).Some? <==>
            && Grows(measure(0), measure(1)) && Grows(measure(1), measure(2)) && Grows(measure(2), measure(3))
            && Settled(measure, Gas) && Settled(measure, Pubdata)
  {
  }
}
