/** The application's state object and the logic of its form and table
    handlers. Each handler reads its inputs, returns without touching the
    state when they are rejected, and otherwise reassigns or extends the
    four sequences. */
module RecordStore {
  import opened Seqs
  import opened Text
  import opened Records
  import opened Ledger
  import opened Schedule

  /** How a PIM submission ends: stored, silently ignored, or refused with
      the "exceeds the pending requirement" alert. */
  datatype PimOutcome = Added | Invalid | OverCapacity

  /** The parsed contents of the storage slot; a collection the saved object
      lacks is absent. */
  datatype SavedState = SavedState(
    products: Option<seq<Product>>,
    requirements: Option<seq<Requirement>>,
    pims: Option<seq<Pim>>,
    contracts: Option<seq<Contract>>)

  /** What the handlers keep true of a store they built: product codes are
      distinct and non-empty, every product has a name and an import date,
      every requirement and PIM names an existing product with a positive
      quantity, a requirement's value is its quantity at its unit price, and
      every PIM has an identifier. Contracts are not constrained: deleting a
      product leaves the contract entries of its PIMs behind. */
  ghost predicate Consistent(products: seq<Product>, requirements: seq<Requirement>, pims: seq<Pim>) {
    DistinctBy(products, ProductCode) &&
    (forall p :: p in products ==> p.code != "" && p.name != "" && p.lastImport != "") &&
    (forall r :: r in requirements ==>
       HasProduct(products, r.productCode) && r.quantity > 0.0 && r.totalValue == r.unitPrice * r.quantity) &&
    (forall m :: m in pims ==> HasProduct(products, m.productCode) && m.quantity > 0.0 && m.id != "")
  }

  class Store {
    var products: seq<Product>
    var requirements: seq<Requirement>
    var pims: seq<Pim>
    var contracts: seq<Contract>

    ghost predicate Valid()
      reads this
    {
      Consistent(products, requirements, pims)
    }

    /** The snapshot `saveState` writes. */
    function Saved(): (s: SavedState)
      reads this
      ensures s.products.GetOr([]) == products && s.requirements.GetOr([]) == requirements
      ensures s.pims.GetOr([]) == pims && s.contracts.GetOr([]) == contracts
    {
      SavedState(Some(products), Some(requirements), Some(pims), Some(contracts))
    }

    /** The initial, empty state. */
    constructor ()
      ensures products == [] && requirements == [] && pims == [] && contracts == []
      ensures Valid()
    {
      products, requirements, pims, contracts := [], [], [], [];
    }

    /** loadState: nothing stored leaves the state alone; otherwise each
        collection is taken from the snapshot, or emptied when it is missing. */
    method Load(stored: Option<SavedState>)
      modifies this
      ensures stored.None? ==> unchanged(this)
      ensures stored.Some? ==>
                products == stored.value.products.GetOr([]) &&
                requirements == stored.value.requirements.GetOr([]) &&
                pims == stored.value.pims.GetOr([]) &&
                contracts == stored.value.contracts.GetOr([])
    {
      if stored.Some? {
        products := stored.value.products.GetOr([]);
        requirements := stored.value.requirements.GetOr([]);
        pims := stored.value.pims.GetOr([]);
        contracts := stored.value.contracts.GetOr([]);
      }
    }

    /** Product form: after trimming, an empty code or name, or an empty date,
        is ignored; otherwise any product with the code is replaced by the new
        one, which goes last. */
    method UpsertProduct(rawCode: string, rawName: string, price: real, date: string) returns (ok: bool)
      modifies this
      ensures ok <==> Trim(rawCode) != "" && Trim(rawName) != "" && date != ""
      ensures !ok ==> unchanged(this)
      ensures ok ==> products == Filter(old(products), ProductCodeIsNot(Trim(rawCode))) +
                                 [Product(Trim(rawCode), Trim(rawName), price, date)]
      ensures ok ==> forall i :: 0 <= i < |products| ==> (products[i].code == Trim(rawCode) <==> i == |products| - 1)
      ensures ok ==> Subsequence(products[..|products| - 1], old(products))
      ensures ok ==> forall p :: p in old(products) && p.code != Trim(rawCode) ==> p in products
      ensures requirements == old(requirements) && pims == old(pims) && contracts == old(contracts)
      ensures old(Valid()) ==> Valid()
    {
      var code := Trim(rawCode);
      var name := Trim(rawName);
      if code == "" || name == "" || date == "" {
        return false;
      }
      var product := Product(code, name, price, date);
      if Valid() {
        UpsertKeepsConsistent(products, requirements, pims, product);
      }
      FilterIsSubsequence(products, ProductCodeIsNot(code));
      products := Filter(products, ProductCodeIsNot(code));
      ghost var kept := products;
      products := products + [product];
      assert products[..|products| - 1] == kept;
      forall i | 0 <= i < |products| ensures products[i].code == code <==> i == |products| - 1 {
        if i < |kept| {
          assert products[i] == kept[i] && kept[i] in kept;
        }
      }
      ok := true;
    }

    /** Requirement form: an unknown product or a quantity that is not
        positive is ignored; otherwise a requirement with the given identifier
        and the product's current name and price is appended. */
    method AddRequirement(productCode: string, quantity: real, id: string) returns (ok: bool)
      modifies this
      ensures ok <==> FindProduct(old(products), productCode).Some? && quantity > 0.0
      ensures !ok ==> unchanged(this)
      ensures ok ==> requirements == old(requirements) +
                       [NewRequirement(id, FindProduct(old(products), productCode).value, quantity)]
      ensures ok ==> Required(requirements, productCode) == old(Required(requirements, productCode)) + quantity
      ensures products == old(products) && pims == old(pims) && contracts == old(contracts)
      ensures old(Valid()) ==> Valid()
    {
      var found := FindProduct(products, productCode);
      if found.None? || quantity <= 0.0 {
        return false;
      }
      var requirement := NewRequirement(id, found.value, quantity);
      RequiredAfterAppend(requirements, requirement, productCode);
      if Valid() {
        RequirementKeepsConsistent(products, requirements, pims, id, found.value, quantity);
      }
      requirements := requirements + [requirement];
      ok := true;
    }

    /** PIM form: an empty identifier, factory or supplier (after trimming),
        an unknown product or a quantity that is not positive is ignored; a
        quantity above the product's remaining balance is refused; otherwise
        the PIM is appended with the initial status and valued at the
        product's current price. */
    method AddPim(rawId: string, rawSubId: string, rawFactory: string, rawSupplier: string,
                  productCode: string, quantity: real, payment: string) returns (outcome: PimOutcome)
      modifies this
      ensures outcome == Invalid <==>
                Trim(rawId) == "" || Trim(rawFactory) == "" || Trim(rawSupplier) == "" ||
                FindProduct(old(products), productCode).None? || quantity <= 0.0
      ensures outcome == OverCapacity <==>
                outcome != Invalid && quantity > old(RemainingForProduct(requirements, pims, productCode))
      ensures outcome != Added ==> unchanged(this)
      ensures outcome == Added ==>
                pims == old(pims) + [NewPim(Trim(rawId), Trim(rawSubId), Trim(rawFactory), Trim(rawSupplier),
                                            FindProduct(old(products), productCode).value, quantity, payment)]
      ensures outcome == Added ==>
                RemainingForProduct(requirements, pims, productCode) ==
                old(RemainingForProduct(requirements, pims, productCode)) - quantity
      ensures outcome == Added ==> Used(pims, productCode) <= Required(requirements, productCode)
      ensures forall c :: c != productCode ==>
                RemainingForProduct(requirements, pims, c) == old(RemainingForProduct(requirements, pims, c))
      ensures products == old(products) && requirements == old(requirements) && contracts == old(contracts)
      ensures old(Valid()) ==> Valid()
    {
      var id := Trim(rawId);
      var subId := Trim(rawSubId);
      var factory := Trim(rawFactory);
      var supplier := Trim(rawSupplier);
      var found := FindProduct(products, productCode);
      if id == "" || factory == "" || supplier == "" || found.None? || quantity <= 0.0 {
        return Invalid;
      }
      var remaining := RemainingForProduct(requirements, pims, productCode);
      if quantity > remaining {
        return OverCapacity;
      }
      var pim := NewPim(id, subId, factory, supplier, found.value, quantity, payment);
      AllocationConsumesBalance(requirements, pims, pim);
      forall c | c != productCode
        ensures RemainingForProduct(requirements, pims + [pim], c) == RemainingForProduct(requirements, pims, c)
      {
        AllocationLeavesOthers(requirements, pims, pim, c);
      }
      if Valid() {
        PimKeepsConsistent(products, requirements, pims, id, subId, factory, supplier, found.value, quantity, payment);
      }
      pims := pims + [pim];
      outcome := Added;
    }

    /** Contract form: a PIM identifier no PIM has is ignored; otherwise the
        first PIM with it takes the new status and a contract entry, due `sla`
        days after the start date and rated against the clock reading `now`,
        is put in front of the others. */
    method RecordContract(pimId: string, status: string, startDate: int, sla: int,
                          rawNotification: string, now: int) returns (ok: bool)
      modifies this
      ensures ok <==> FirstIndex(old(pims), PimIdIs(pimId)).Some?
      ensures !ok ==> unchanged(this)
      ensures ok ==> var i := FirstIndex(old(pims), PimIdIs(pimId)).value;
                     pims == old(pims)[i := old(pims)[i].(status := status)]
      ensures ok ==> FirstIndex(pims, PimIdIs(pimId)) == FirstIndex(old(pims), PimIdIs(pimId))
      ensures ok ==> var due := AddDays(startDate, sla);
                     contracts == [Contract(pimId, status, sla, Trim(rawNotification), due,
                                            SlaStatusAt(now, due), now)] + old(contracts)
      ensures products == old(products) && requirements == old(requirements)
      ensures forall c :: RemainingForProduct(requirements, pims, c) == old(RemainingForProduct(requirements, pims, c))
      ensures old(Valid()) ==> Valid()
    {
      var notification := Trim(rawNotification);
      var found := FirstIndex(pims, PimIdIs(pimId));
      if found.None? {
        return false;
      }
      var i := found.value;
      forall c ensures RemainingForProduct(requirements, pims[i := pims[i].(status := status)], c) ==
                       RemainingForProduct(requirements, pims, c)
      {
        StatusChangeKeepsBalances(requirements, pims, i, status, c);
      }
      if Valid() {
        StatusChangeKeepsConsistent(products, requirements, pims, i, status);
      }
      FirstIndexUpdate(pims, i, pims[i].(status := status), PimIdIs(pimId));
      pims := pims[i := pims[i].(status := status)];
      var due := AddDays(startDate, sla);
      var entry := Contract(pimId, status, sla, notification, due, SlaStatusAt(now, due), now);
      contracts := [entry] + contracts;
      ok := true;
    }

    /** Product table: deleting a product (an empty code is ignored) removes
        every product, requirement and PIM with its code; contracts stay. */
    method DeleteProduct(code: string)
      modifies this
      ensures code == "" ==> unchanged(this)
      ensures code != "" ==>
                products == Filter(old(products), ProductCodeIsNot(code)) &&
                requirements == Filter(old(requirements), RequirementNotFor(code)) &&
                pims == Filter(old(pims), PimNotFor(code))
      ensures code != "" ==>
                (forall p :: p in products ==> p.code != code) &&
                (forall r :: r in requirements ==> r.productCode != code) &&
                (forall m :: m in pims ==> m.productCode != code)
      ensures code != "" ==> Required(requirements, code) == 0.0 && Used(pims, code) == 0.0
      ensures forall c :: c != code ==> RemainingForProduct(requirements, pims, c) ==
                                        old(RemainingForProduct(requirements, pims, c))
      ensures contracts == old(contracts)
      ensures old(Valid()) ==> Valid()
    {
      if code == "" {
        return;
      }
      forall c | c != code
        ensures Required(Filter(requirements, RequirementNotFor(code)), c) == Required(requirements, c)
        ensures Used(Filter(pims, PimNotFor(code)), c) == Used(pims, c)
      {
        CascadeKeepsOthers(requirements, pims, code, c);
      }
      CascadeClearsProduct(requirements, pims, code);
      if Valid() {
        CascadeKeepsConsistent(products, requirements, pims, code);
      }
      products := Filter(products, ProductCodeIsNot(code));
      requirements := Filter(requirements, RequirementNotFor(code));
      pims := Filter(pims, PimNotFor(code));
    }

    /** Requirement table: deleting a requirement (an empty identifier is
        ignored) removes every requirement with that identifier and nothing
        else; no balance goes up. */
    method DeleteRequirement(id: string)
      modifies this
      ensures id == "" ==> unchanged(this)
      ensures id != "" ==> requirements == Filter(old(requirements), RequirementIdIsNot(id))
      ensures id != "" ==> forall r :: r in requirements ==> r.id != id
      ensures products == old(products) && pims == old(pims) && contracts == old(contracts)
      ensures old(Valid()) ==> forall c :: RemainingForProduct(requirements, pims, c) <=
                                           old(RemainingForProduct(requirements, pims, c))
      ensures old(Valid()) ==> Valid()
    {
      if id == "" {
        return;
      }
      if Valid() {
        forall c ensures RemainingForProduct(Filter(requirements, RequirementIdIsNot(id)), pims, c) <=
                         RemainingForProduct(requirements, pims, c)
        {
          WithdrawalNeverRaisesBalance(requirements, pims, id, c);
        }
        WithdrawalKeepsConsistent(products, requirements, pims, id);
      }
      requirements := Filter(requirements, RequirementIdIsNot(id));
    }

    /** PIM table: deleting a PIM (an empty identifier is ignored) removes
        every PIM with that identifier and every contract entry for it; no
        balance goes down. */
    method DeletePim(id: string)
      modifies this
      ensures id == "" ==> unchanged(this)
      ensures id != "" ==> pims == Filter(old(pims), PimIdIsNot(id)) &&
                           contracts == Filter(old(contracts), ContractPimIsNot(id))
      ensures id != "" ==> (forall m :: m in pims ==> m.id != id) &&
                           (forall c :: c in contracts ==> c.pimId != id)
      ensures products == old(products) && requirements == old(requirements)
      ensures old(Valid()) ==> forall c :: RemainingForProduct(requirements, pims, c) >=
                                           old(RemainingForProduct(requirements, pims, c))
      ensures old(Valid()) ==> Valid()
    {
      if id == "" {
        return;
      }
      if Valid() {
        forall c ensures RemainingForProduct(requirements, Filter(pims, PimIdIsNot(id)), c) >=
                         RemainingForProduct(requirements, pims, c)
        {
          ReleaseNeverLowersBalance(requirements, pims, id, c);
        }
        ReleaseKeepsConsistent(products, requirements, pims, id);
      }
      pims := Filter(pims, PimIdIsNot(id));
      contracts := Filter(contracts, ContractPimIsNot(id));
    }

    /** Reset button, confirmed: every collection is emptied, and with them
        every total and remaining figure. */
    method Reset()
      modifies this
      ensures products == [] && requirements == [] && pims == [] && contracts == []
      ensures TotalRequiredQuantity(requirements) == 0.0 && TotalRequiredValue(requirements) == 0.0
      ensures RemainingQuantity(requirements, pims) == 0.0 && RemainingValue(requirements, pims) == 0.0
      ensures forall c :: RemainingForProduct(requirements, pims, c) == 0.0
      ensures Valid()
    {
      products, requirements, pims, contracts := [], [], [], [];
    }
  }

  /** An upsert keeps the store consistent: the codes stay distinct, and every
      code a requirement or PIM names is still present. */
  lemma UpsertKeepsConsistent(products: seq<Product>, requirements: seq<Requirement>, pims: seq<Pim>,
                              product: Product)
    requires Consistent(products, requirements, pims)
    requires product.code != "" && product.name != "" && product.lastImport != ""
    ensures Consistent(Filter(products, ProductCodeIsNot(product.code)) + [product], requirements, pims)
  {
    var kept := Filter(products, ProductCodeIsNot(product.code));
    FilterKeepsDistinct(products, ProductCodeIsNot(product.code), ProductCode);
    AppendKeepsDistinct(kept, product, ProductCode);
    forall r | r in requirements ensures HasProduct(kept + [product], r.productCode) {
      ExistingCodeSurvivesUpsert(products, kept, product, r.productCode);
    }
    forall m | m in pims ensures HasProduct(kept + [product], m.productCode) {
      ExistingCodeSurvivesUpsert(products, kept, product, m.productCode);
    }
  }

  /** A code some product had is still present after an upsert. */
  lemma ExistingCodeSurvivesUpsert(before: seq<Product>, kept: seq<Product>, product: Product, code: string)
    requires kept == Filter(before, ProductCodeIsNot(product.code))
    requires HasProduct(before, code)
    ensures HasProduct(kept + [product], code)
  {
    var p :| p in before && p.code == code;
    if code == product.code {
      assert product in kept + [product];
    } else {
      assert p in kept;
      assert p in kept + [product];
    }
  }

  /** A requirement for a listed product with a positive quantity keeps the
      store consistent. */
  lemma RequirementKeepsConsistent(products: seq<Product>, requirements: seq<Requirement>, pims: seq<Pim>,
                                   id: string, product: Product, quantity: real)
    requires Consistent(products, requirements, pims)
    requires product in products && quantity > 0.0
    ensures Consistent(products, requirements + [NewRequirement(id, product, quantity)], pims)
  {
    assert HasProduct(products, product.code);
  }

  /** A PIM with an identifier, for a listed product and a positive quantity,
      keeps the store consistent. */
  lemma PimKeepsConsistent(products: seq<Product>, requirements: seq<Requirement>, pims: seq<Pim>,
                           id: string, subId: string, factory: string, supplier: string,
                           product: Product, quantity: real, payment: string)
    requires Consistent(products, requirements, pims)
    requires id != "" && product in products && quantity > 0.0
    ensures Consistent(products, requirements, pims + [NewPim(id, subId, factory, supplier, product, quantity, payment)])
  {
    assert HasProduct(products, product.code);
  }

  /** Changing a PIM's status keeps the store consistent. */
  lemma StatusChangeKeepsConsistent(products: seq<Product>, requirements: seq<Requirement>, pims: seq<Pim>,
                                    i: nat, status: string)
    requires Consistent(products, requirements, pims)
    requires i < |pims|
    ensures Consistent(products, requirements, pims[i := pims[i].(status := status)])
  {
    assert pims[i] in pims;
    UpdateMembers(pims, i, pims[i].(status := status));
  }

  /** A product's cascade delete keeps the store consistent: what is left of
      the requirements and PIMs names products that are left. */
  lemma CascadeKeepsConsistent(products: seq<Product>, requirements: seq<Requirement>, pims: seq<Pim>, code: string)
    requires Consistent(products, requirements, pims)
    ensures Consistent(Filter(products, ProductCodeIsNot(code)), Filter(requirements, RequirementNotFor(code)),
                       Filter(pims, PimNotFor(code)))
  {
    FilterKeepsDistinct(products, ProductCodeIsNot(code), ProductCode);
    forall r | r in Filter(requirements, RequirementNotFor(code))
      ensures HasProduct(Filter(products, ProductCodeIsNot(code)), r.productCode)
    {
      OtherCodeSurvivesDelete(products, code, r.productCode);
    }
    forall m | m in Filter(pims, PimNotFor(code))
      ensures HasProduct(Filter(products, ProductCodeIsNot(code)), m.productCode)
    {
      OtherCodeSurvivesDelete(products, code, m.productCode);
    }
  }

  /** A code other than the deleted one is still present after a delete. */
  lemma OtherCodeSurvivesDelete(before: seq<Product>, code: string, other: string)
    requires other != code
    requires HasProduct(before, other)
    ensures HasProduct(Filter(before, ProductCodeIsNot(code)), other)
  {
    var p :| p in before && p.code == other;
    assert p in Filter(before, ProductCodeIsNot(code));
  }

  lemma WithdrawalKeepsConsistent(products: seq<Product>, requirements: seq<Requirement>, pims: seq<Pim>, id: string)
    requires Consistent(products, requirements, pims)
    ensures Consistent(products, Filter(requirements, RequirementIdIsNot(id)), pims)
  {
  }

  lemma ReleaseKeepsConsistent(products: seq<Product>, requirements: seq<Requirement>, pims: seq<Pim>, id: string)
    requires Consistent(products, requirements, pims)
    ensures Consistent(products, requirements, Filter(pims, PimIdIsNot(id)))
  {
  }
}
