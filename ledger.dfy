/** The figures derived from the records: a product's remaining balance, the
    requirement totals and the overall remaining quantity and value. None of
    them is stored; each is recomputed from the sequences. */
module Ledger {
  import opened Seqs
  import opened Records

  /** Math.max on two numbers. */
  function Max(a: real, b: real): real {
    if a >= b then a else b
  }

  /** Quantity demanded of a product: the sum over its requirements. */
  function Required(requirements: seq<Requirement>, code: string): real {
    Sum(Filter(requirements, RequirementFor(code)), RequirementQuantity)
  }

  /** Quantity of a product already allocated: the sum over its PIMs. */
  function Used(pims: seq<Pim>, code: string): real {
    Sum(Filter(pims, PimFor(code)), PimQuantity)
  }

  /** getRemainingForProduct: what has been demanded of a product and not yet
      allocated, never below zero. */
  function RemainingForProduct(requirements: seq<Requirement>, pims: seq<Pim>, code: string): (r: real)
    ensures r >= 0.0
    ensures r == 0.0 <==> Required(requirements, code) <= Used(pims, code)
    ensures r > 0.0 ==> r == Required(requirements, code) - Used(pims, code)
  {
    Max(Required(requirements, code) - Used(pims, code), 0.0)
  }

  function TotalRequiredQuantity(requirements: seq<Requirement>): real {
    Sum(requirements, RequirementQuantity)
  }

  function TotalRequiredValue(requirements: seq<Requirement>): real {
    Sum(requirements, RequirementValue)
  }

  function TotalPimQuantity(pims: seq<Pim>): real {
    Sum(pims, PimQuantity)
  }

  function TotalPimValue(pims: seq<Pim>): real {
    Sum(pims, PimValue)
  }

  /** Overall remaining quantity: all requirements against all PIMs, clamped
      once at the end rather than product by product. */
  function RemainingQuantity(requirements: seq<Requirement>, pims: seq<Pim>): (r: real)
    ensures r >= 0.0
    ensures r == 0.0 <==> TotalRequiredQuantity(requirements) <= TotalPimQuantity(pims)
    ensures r > 0.0 ==> r == TotalRequiredQuantity(requirements) - TotalPimQuantity(pims)
  {
    Max(TotalRequiredQuantity(requirements) - TotalPimQuantity(pims), 0.0)
  }

  /** Overall remaining value, clamped on its own, independently of the quantity. */
  function RemainingValue(requirements: seq<Requirement>, pims: seq<Pim>): (r: real)
    ensures r >= 0.0
    ensures r == 0.0 <==> TotalRequiredValue(requirements) <= TotalPimValue(pims)
    ensures r > 0.0 ==> r == TotalRequiredValue(requirements) - TotalPimValue(pims)
  {
    Max(TotalRequiredValue(requirements) - TotalPimValue(pims), 0.0)
  }

  /** A product nobody has demanded has no balance, whatever has been
      allocated to it (allocations are never negative). */
  lemma NoRequirementsNoBalance(requirements: seq<Requirement>, pims: seq<Pim>, code: string)
    requires forall r :: r in requirements ==> r.productCode != code
    requires forall p :: p in pims ==> p.quantity >= 0.0
    ensures RemainingForProduct(requirements, pims, code) == 0.0
  {
    FilterDropsAll(requirements, RequirementFor(code));
    SumNonNegative(Filter(pims, PimFor(code)), PimQuantity);
  }

  lemma RequiredAfterAppend(requirements: seq<Requirement>, r: Requirement, code: string)
    ensures Required(requirements + [r], code) ==
            Required(requirements, code) + (if r.productCode == code then r.quantity else 0.0)
  {
    FilterAppend(requirements, [r], RequirementFor(code));
    SumAppend(Filter(requirements, RequirementFor(code)), Filter([r], RequirementFor(code)), RequirementQuantity);
  }

  lemma UsedAfterAppend(pims: seq<Pim>, p: Pim, code: string)
    ensures Used(pims + [p], code) == Used(pims, code) + (if p.productCode == code then p.quantity else 0.0)
  {
    FilterAppend(pims, [p], PimFor(code));
    SumAppend(Filter(pims, PimFor(code)), Filter([p], PimFor(code)), PimQuantity);
  }

  /** A PIM admitted by the capacity check lowers its product's balance by
      exactly its quantity and keeps the allocation within the demand. */
  lemma AllocationConsumesBalance(requirements: seq<Requirement>, pims: seq<Pim>, p: Pim)
    requires 0.0 < p.quantity <= RemainingForProduct(requirements, pims, p.productCode)
    ensures RemainingForProduct(requirements, pims + [p], p.productCode) ==
            RemainingForProduct(requirements, pims, p.productCode) - p.quantity
    ensures Used(pims + [p], p.productCode) <= Required(requirements, p.productCode)
  {
    UsedAfterAppend(pims, p, p.productCode);
  }

  /** A PIM for one product leaves every other product's balance as it was. */
  lemma AllocationLeavesOthers(requirements: seq<Requirement>, pims: seq<Pim>, p: Pim, other: string)
    requires other != p.productCode
    ensures RemainingForProduct(requirements, pims + [p], other) == RemainingForProduct(requirements, pims, other)
  {
    UsedAfterAppend(pims, p, other);
  }

  /** A new requirement never lowers a balance; when the product was not
      over-allocated it raises the balance by exactly its quantity. */
  lemma DemandRaisesBalance(requirements: seq<Requirement>, pims: seq<Pim>, r: Requirement, code: string)
    requires r.quantity > 0.0
    ensures RemainingForProduct(requirements + [r], pims, code) >= RemainingForProduct(requirements, pims, code)
    ensures r.productCode == code && Used(pims, code) <= Required(requirements, code) ==>
            RemainingForProduct(requirements + [r], pims, code) ==
            RemainingForProduct(requirements, pims, code) + r.quantity
    ensures r.productCode != code ==>
            RemainingForProduct(requirements + [r], pims, code) == RemainingForProduct(requirements, pims, code)
  {
    RequiredAfterAppend(requirements, r, code);
  }

  /** Changing a PIM's status moves no quantity: every balance stays. */
  lemma StatusChangeKeepsBalances(requirements: seq<Requirement>, pims: seq<Pim>, i: nat, status: string, code: string)
    requires i < |pims|
    ensures RemainingForProduct(requirements, pims[i := pims[i].(status := status)], code) ==
            RemainingForProduct(requirements, pims, code)
  {
    SumFilterUpdate(pims, i, pims[i].(status := status), PimFor(code), PimQuantity);
  }

  /** After a product's cascade delete, nothing is demanded of it or
      allocated to it. */
  lemma CascadeClearsProduct(requirements: seq<Requirement>, pims: seq<Pim>, code: string)
    ensures Required(Filter(requirements, RequirementNotFor(code)), code) == 0.0
    ensures Used(Filter(pims, PimNotFor(code)), code) == 0.0
  {
    FilterDropsAll(Filter(requirements, RequirementNotFor(code)), RequirementFor(code));
    FilterDropsAll(Filter(pims, PimNotFor(code)), PimFor(code));
  }

  /** A product's cascade delete leaves every other product's demand and
      allocation as they were. */
  lemma CascadeKeepsOthers(requirements: seq<Requirement>, pims: seq<Pim>, code: string, other: string)
    requires other != code
    ensures Required(Filter(requirements, RequirementNotFor(code)), other) == Required(requirements, other)
    ensures Used(Filter(pims, PimNotFor(code)), other) == Used(pims, other)
  {
    FilterNarrow(requirements, RequirementNotFor(code), RequirementFor(other));
    FilterNarrow(pims, PimNotFor(code), PimFor(other));
  }

  /** Deleting PIMs gives quantity back: no balance goes down. */
  lemma ReleaseNeverLowersBalance(requirements: seq<Requirement>, pims: seq<Pim>, id: string, code: string)
    requires forall p :: p in pims ==> p.quantity >= 0.0
    ensures RemainingForProduct(requirements, Filter(pims, PimIdIsNot(id)), code) >=
            RemainingForProduct(requirements, pims, code)
  {
    FilterCommute(pims, PimIdIsNot(id), PimFor(code));
    FilteredSumAtMost(Filter(pims, PimFor(code)), PimIdIsNot(id), PimQuantity);
  }

  /** Deleting requirements leaves the PIMs in place, so no balance goes up. */
  lemma WithdrawalNeverRaisesBalance(requirements: seq<Requirement>, pims: seq<Pim>, id: string, code: string)
    requires forall r :: r in requirements ==> r.quantity >= 0.0
    ensures RemainingForProduct(Filter(requirements, RequirementIdIsNot(id)), pims, code) <=
            RemainingForProduct(requirements, pims, code)
  {
    FilterCommute(requirements, RequirementIdIsNot(id), RequirementFor(code));
    FilteredSumAtMost(Filter(requirements, RequirementFor(code)), RequirementIdIsNot(id), RequirementQuantity);
  }

  /** The overall demand is one product's demand plus everyone else's. */
  lemma TotalSplitsByProduct(requirements: seq<Requirement>, code: string)
    ensures TotalRequiredQuantity(requirements) ==
            Required(requirements, code) + TotalRequiredQuantity(Filter(requirements, RequirementNotFor(code)))
  {
    SumPartition(requirements, RequirementQuantity, RequirementFor(code), RequirementNotFor(code));
  }

  /** When every requirement and every PIM is valued at one and the same
      non-negative price, the overall remaining value is that price times the
      overall remaining quantity. */
  lemma SinglePriceValueTracksQuantity(requirements: seq<Requirement>, pims: seq<Pim>, price: real)
    requires price >= 0.0
    requires forall r :: r in requirements ==> r.totalValue == price * r.quantity
    requires forall p :: p in pims ==> p.totalValue == price * p.quantity
    ensures RemainingValue(requirements, pims) == price * RemainingQuantity(requirements, pims)
  {
    SumScaled(requirements, RequirementQuantity, RequirementValue, price);
    SumScaled(pims, PimQuantity, PimValue, price);
    var d := TotalRequiredQuantity(requirements) - TotalPimQuantity(pims);
    assert TotalRequiredValue(requirements) - TotalPimValue(pims) == price * d;
    if d < 0.0 {
      assert price * d <= 0.0;
    } else {
      assert price * d >= 0.0;
    }
  }

  /** The two overall figures are clamped separately: once a product has been
      repriced upwards, a store can still show quantity to allocate while
      showing no value left. */
  lemma ClampedIndependently()
    ensures exists requirements: seq<Requirement>, pims: seq<Pim> ::
              RemainingQuantity(requirements, pims) > 0.0 && RemainingValue(requirements, pims) == 0.0
  {
    var r := Requirement("req-1", "MP-1", "Material", 10.0, 1.0, 10.0);
    var p := Pim("PIM-1", None, "Factory", "Supplier", "MP-1", 5.0, "Anticipo", InitialPimStatus, 20.0);
    SumSingleton(r, RequirementQuantity);
    SumSingleton(r, RequirementValue);
    SumSingleton(p, PimQuantity);
    SumSingleton(p, PimValue);
    assert RemainingQuantity([r], [p]) > 0.0 && RemainingValue([r], [p]) == 0.0;
  }
}
