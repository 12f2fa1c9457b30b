/** The four kinds of record the store keeps, and the tests and field
    projections the handlers filter, search and add up by. */
module Records {
  import opened Seqs

  /** A material: its code is the key the forms refer to it by. The import
      date is kept as the text of the date field. */
  datatype Product = Product(code: string, name: string, price: real, lastImport: string)

  /** A demanded quantity of a product, with the product's name and price
      copied at the time it was recorded. */
  datatype Requirement = Requirement(
    id: string,
    productCode: string,
    productName: string,
    quantity: real,
    unitPrice: real,
    totalValue: real)

  /** An import permit allocating a quantity of a product. `subId` is absent
      (`null`) when no sub-identifier was given. */
  datatype Pim = Pim(
    id: string,
    subId: Option<string>,
    factory: string,
    supplier: string,
    productCode: string,
    quantity: real,
    payment: string,
    status: string,
    totalValue: real)

  /** Whether a contract was past its due date when it was recorded. */
  datatype SlaStatus = OnTime | Late {
    /** The label the application stores and shows. */
    function Label(): string {
      match this
      case OnTime => "En tiempo"
      case Late => "Atrasado"
    }
  }

  /** A status event for a PIM. `dueDate` is a day number and `updatedAt` the
      instant, in milliseconds, at which the entry was recorded. */
  datatype Contract = Contract(
    pimId: string,
    status: string,
    sla: int,
    notification: string,
    dueDate: int,
    slaStatus: SlaStatus,
    updatedAt: int)

  /** The status every new PIM starts in. */
  const InitialPimStatus: string := "Contrato pendiente"

  /** The separator between a PIM's identifier and its sub-identifier. */
  const SubIdSeparator: string := " / "

  // Tests on records, as function values for Filter and FirstIndex.

  function ProductCodeIs(code: string): Product -> bool { (p: Product) => p.code == code }
  function ProductCodeIsNot(code: string): Product -> bool { (p: Product) => p.code != code }
  function RequirementFor(code: string): Requirement -> bool { (r: Requirement) => r.productCode == code }
  function RequirementNotFor(code: string): Requirement -> bool { (r: Requirement) => r.productCode != code }
  function RequirementIdIsNot(id: string): Requirement -> bool { (r: Requirement) => r.id != id }
  function PimFor(code: string): Pim -> bool { (p: Pim) => p.productCode == code }
  function PimNotFor(code: string): Pim -> bool { (p: Pim) => p.productCode != code }
  function PimIdIs(id: string): Pim -> bool { (p: Pim) => p.id == id }
  function PimIdIsNot(id: string): Pim -> bool { (p: Pim) => p.id != id }
  function ContractPimIsNot(id: string): Contract -> bool { (c: Contract) => c.pimId != id }

  // Field projections, as function values for Sum and DistinctBy.

  function ProductCode(p: Product): string { p.code }
  function RequirementQuantity(r: Requirement): real { r.quantity }
  function RequirementValue(r: Requirement): real { r.totalValue }
  function PimQuantity(p: Pim): real { p.quantity }
  function PimValue(p: Pim): real { p.totalValue }

  /** The first product with the given code (`products.find`). */
  function FindProduct(products: seq<Product>, code: string): (r: Option<Product>)
    ensures r.None? <==> forall p :: p in products ==> p.code != code
    ensures r.Some? ==> r.value in products && r.value.code == code
  {
    match FirstIndex(products, ProductCodeIs(code))
    case None => None
    case Some(i) => Some(products[i])
  }

  /** The product found is the first one with the code: it sits at an index
      before which no product has that code. */
  lemma FindProductIsFirst(products: seq<Product>, code: string)
    ensures FindProduct(products, code).Some? ==>
              exists i :: 0 <= i < |products| && products[i] == FindProduct(products, code).value &&
                          forall j :: 0 <= j < i ==> products[j].code != code
  {
    var found := FirstIndex(products, ProductCodeIs(code));
    if found.Some? {
      var i := found.value;
      assert forall j :: 0 <= j < i ==> !ProductCodeIs(code)(products[j]);
      assert products[i] == FindProduct(products, code).value;
    }
  }

  /** Some product has the given code. */
  ghost predicate HasProduct(products: seq<Product>, code: string) {
    exists p :: p in products && p.code == code
  }

  /** In a store whose codes are distinct, the product found for a code is
      the only product with that code. */
  lemma FoundProductIsUnique(products: seq<Product>, code: string, p: Product)
    requires DistinctBy(products, ProductCode)
    requires p in products && p.code == code
    ensures FindProduct(products, code) == Some(p)
  {
    var k :| 0 <= k < |products| && products[k] == p;
    var i := FirstIndex(products, ProductCodeIs(code)).value;
    assert ProductCode(products[i]) == ProductCode(products[k]);
  }

  /** The identifier of a new PIM: the identifier, followed by the separator
      and the sub-identifier when one is given. */
  function PimId(id: string, subId: string): (r: string)
    ensures subId == "" ==> r == id
    ensures subId != "" ==> |r| == |id| + |SubIdSeparator| + |subId| &&
                            r[..|id|] == id &&
                            r[|id|..|id| + |SubIdSeparator|] == SubIdSeparator &&
                            r[|r| - |subId|..] == subId
  {
    if subId != "" then id + SubIdSeparator + subId else id
  }

  /** The requirement recorded for `quantity` of `product`: its name and
      price are copied, and its value is fixed at that price. */
  function NewRequirement(id: string, product: Product, quantity: real): Requirement {
    Requirement(id, product.code, product.name, quantity, product.price, product.price * quantity)
  }

  /** The PIM recorded from the trimmed form fields: the derived identifier,
      no sub-identifier when it is empty, the initial status, and the value
      of the quantity at the product's current price. */
  function NewPim(id: string, subId: string, factory: string, supplier: string,
                  product: Product, quantity: real, payment: string): Pim {
    Pim(PimId(id, subId), if subId == "" then None else Some(subId), factory, supplier,
        product.code, quantity, payment, InitialPimStatus, product.price * quantity)
  }

  /** Derived identifiers are not unique: an identifier that already contains
      the separator, given without a sub-identifier, yields the same identifier
      as its two halves given separately. */
  lemma PimIdsCollide(id: string, subId: string)
    requires subId != ""
    ensures PimId(id + SubIdSeparator + subId, "") == PimId(id, subId)
  {
  }
}
