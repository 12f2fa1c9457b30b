/** Clients of the store whose assertions follow from the handlers'
    contracts together with the trim and sum lemmas: the totals of a priced
    requirement, the capacity check, the SLA rating, reset and the save/load
    round trip. */
module Scenarios {
  import opened Seqs
  import opened Text
  import opened Records
  import opened Ledger
  import opened Schedule
  import opened RecordStore

  /** A product priced at 100 with a requirement of 50 gives totals of 50 and
      5000. */
  method PricedRequirement() returns (store: Store)
    ensures fresh(store)
    ensures FindProduct(store.products, "MP-1").Some?
    ensures Required(store.requirements, "MP-1") == 50.0 && Used(store.pims, "MP-1") == 0.0
  {
    store := new Store();
    TrimKeepsTrimmed("MP-1");
    TrimKeepsTrimmed("Materia prima");
    var ok := store.UpsertProduct("MP-1", "Materia prima", 100.0, "2024-01-01");
    assert store.products == [Product("MP-1", "Materia prima", 100.0, "2024-01-01")];
    ok := store.AddRequirement("MP-1", 50.0, "req-1");
    assert ok;
    SumSingleton(store.requirements[0], RequirementQuantity);
    SumSingleton(store.requirements[0], RequirementValue);
    assert TotalRequiredQuantity(store.requirements) == 50.0;
    assert TotalRequiredValue(store.requirements) == 5000.0;
    assert Required(store.requirements, "MP-1") == 50.0;
  }

  /** With 50 required, a PIM of 30 is accepted and leaves 20. */
  method FirstAllocation() returns (store: Store)
    ensures fresh(store)
    ensures FindProduct(store.products, "MP-1").Some?
    ensures RemainingForProduct(store.requirements, store.pims, "MP-1") == 20.0
  {
    store := PricedRequirement();
    TrimKeepsTrimmed("PIM-1");
    TrimKeepsTrimmed("Planta");
    TrimKeepsTrimmed("Proveedor");
    var outcome := store.AddPim("PIM-1", "", "Planta", "Proveedor", "MP-1", 30.0, "Anticipo");
    assert outcome == Added;
  }

  /** With 20 left, a PIM of 25 is refused and leaves the store as it was,
      and a PIM of 20 is accepted and exhausts the balance. */
  method CapacityScenario() {
    var store := FirstAllocation();
    TrimKeepsTrimmed("PIM-2");
    TrimKeepsTrimmed("Planta");
    TrimKeepsTrimmed("Proveedor");
    var outcome := store.AddPim("PIM-2", "", "Planta", "Proveedor", "MP-1", 25.0, "Anticipo");
    assert outcome == OverCapacity;
    outcome := store.AddPim("PIM-2", "", "Planta", "Proveedor", "MP-1", 20.0, "Anticipo");
    assert outcome == Added;
    assert RemainingForProduct(store.requirements, store.pims, "MP-1") == 0.0;
  }

  /** A contract started on 2024-01-01 (day 19723) with a ten-day SLA is due
      on 2024-01-11: recorded before that day begins it is on time, recorded
      after it has begun it is late. */
  method SlaScenario(store: Store, pimId: string)
    requires FirstIndex(store.pims, PimIdIs(pimId)).Some?
    modifies store
  {
    var ok := store.RecordContract(pimId, "Contrato validado", 19723, 10, "correo", DayStart(19733) - 1);
    assert ok && store.contracts[0].dueDate == 19733 && store.contracts[0].slaStatus == OnTime;
    ok := store.RecordContract(pimId, "Contrato validado", 19723, 10, "correo", DayStart(19733) + 1);
    assert ok && store.contracts[0].slaStatus == Late;
    assert store.contracts[1].slaStatus == OnTime;
  }

  /** After a reset every figure is zero and nothing is left to find. */
  method ResetScenario(store: Store)
    modifies store
  {
    store.Reset();
    assert TotalRequiredQuantity(store.requirements) == 0.0;
    assert RemainingValue(store.requirements, store.pims) == 0.0;
    assert FindProduct(store.products, "MP-1").None?;
    var outcome := store.AddPim("PIM-1", "", "Planta", "Proveedor", "MP-1", 1.0, "Anticipo");
    assert outcome == Invalid;
  }

  /** Loading what was saved restores every collection. */
  method SaveLoadScenario(store: Store)
    modifies store
  {
    var before := store.Saved();
    store.Load(Some(before));
    assert store.Saved() == before;
  }
}
