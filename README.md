# Comexx record store, modelled in Dafny

The application tracks foreign-trade paperwork. It has a catalogue of
products (materials with a code, a name, a last price and a last import
date). It records requirements, each a demanded quantity of a product. It
records PIMs, import permits that allocate part of that demand. It keeps a
timeline of contract status events for the PIMs. All four collections live
in one `state` object. The handlers of the submit, delete and reset buttons
update that object, and `getRemainingForProduct` plus the overall totals
are recomputed from it.

This project models that record store:

- `seqs.dfy` (module `Seqs`): the list operations the handlers are built from. `Filter` is `Array.prototype.filter`, `Sum` is a `reduce` that adds up one field, and `FirstIndex` is `find`. Their lemmas cover appends, updates, partitions and order.
- `text.dfy` (module `Text`): `String.prototype.trim` over the ECMAScript whitespace set.
- `records.dfy` (module `Records`): the four record types. It also has the product lookup, the derived PIM identifier, and the records a requirement or PIM submission creates.
- `ledger.dfy` (module `Ledger`): `getRemainingForProduct`, the requirement totals and the overall remaining quantity and value, with lemmas on how each operation moves them.
- `schedule.dfy` (module `Schedule`): `addDays` as day arithmetic, and the SLA rating of a contract entry.
- `store.dfy` (module `RecordStore`): class `Store`, with the four collections as `seq` fields. Each handler is a method with a `modifies` clause that states the whole new state. `Load` installs whatever snapshot it is given, so a loaded store need not be consistent. The other handlers therefore do not require the invariant `Consistent`, but each one keeps it: if the store was consistent before the call, it is consistent after. That invariant says:
  - product codes are distinct;
  - every requirement and PIM names an existing product and has a positive quantity;
  - a requirement's value is its quantity times its unit price;
  - every PIM has an identifier;
  - every product has a non-empty code, name and import date.
- `scenarios.dfy` (module `Scenarios`): small clients of `Store` whose assertions follow from the method contracts plus the `Trim` and `Sum` lemmas (`Text.TrimKeepsTrimmed`, `Seqs.SumSingleton`). They cover the capacity refusal, the SLA rating, reset, and a save/load round trip.

Modelling choices:

- **Numbers.** Quantities and prices are exact `real`s.
- **Dates.** The contract start date and the due date are integer day numbers. A product's last-import date is kept as the text of its field, because the source only checks that it is not empty and stores it (app.js:222-233). The clock reading `now` is an integer count of milliseconds since the same epoch, so day `d` starts at the instant `d * 86400000`.
- **Foreign values.** The random identifier of a requirement is the parameter `id`, and the clock reading is the parameter `now`.
- **Load.** The stored snapshot is the `Option<SavedState>` given to `Load`. It is already parsed, and each collection in it may be missing.
- **PIM identifiers.** PIM identifiers are not unique. The PIM form never checks whether a PIM with the same identifier already exists, so submitting "PIM-1" twice stores two PIMs called "PIM-1". On top of that, the derived identifier joins the identifier and the sub-identifier with `" / "`, so different inputs can give the same identifier (`Records.PimIdsCollide`). Deleting a PIM therefore removes every PIM with that identifier and every contract entry for it; recording a contract updates only the first of them.

## Model

| member | source | states |
|---|---|---|
| Seqs.Filter | app.js:228 | the result keeps exactly the elements that pass the test, and is no longer than the input |
| Seqs.FilterIsSubsequence | app.js:228 | filtering keeps the surviving elements in their original relative order |
| Seqs.FilterAppend | app.js:357-359 | filtering a concatenation is concatenating the filtered parts |
| Seqs.FilterDropsAll | app.js:357-359 | a filter no element passes returns the empty sequence |
| Seqs.FilterNarrow | app.js:357-359 | filtering by a test implied by a second test, then by the second, is filtering by the second alone |
| Seqs.FilterKeepsDistinct | app.js:228 | a filtered sequence with distinct keys still has distinct keys |
| Seqs.AppendKeepsDistinct | app.js:228-234 | appending an element whose key no element has keeps the keys distinct |
| Seqs.UpdateMembers | app.js:325 | after replacing one element, every member is the new element or a member of the old sequence |
| Seqs.SumFilterUpdate | app.js:325 | replacing an element by one that passes the filter alike and has the same summed field leaves the filtered sum unchanged |
| Seqs.SumAppend | app.js:54 | the reduce sum over a concatenation is the sum of the sums |
| Seqs.SumSingleton | app.js:54 | the sum over one element is that element's field |
| Seqs.SumNonNegative | app.js:57 | a sum of non-negative terms is non-negative |
| Seqs.SumPartition | app.js:157 | the sum over a sequence is the sum over the elements that pass a test plus the sum over those that pass its complement |
| Seqs.FilteredSumAtMost | app.js:54 | a sum of non-negative terms over a filtered sequence is at most the sum over the whole |
| Seqs.FilterCommute | app.js:376 | two filters can be applied in either order |
| Seqs.SumScaled | app.js:259 | a sum of terms each a fixed price times another field is that price times the other sum |
| Seqs.FirstIndex | app.js:320 | find: the index of an element that passes, with no earlier element passing; absent exactly when no element passes |
| Seqs.FirstIndexUpdate | app.js:320-325 | replacing an element by one the test treats alike leaves the first hit where it was |
| Text.LeadingSpaces | app.js:219 | the index of the first non-space character, every character before it being a space |
| Text.TrailingStart | app.js:219 | the index just past the last non-space character, every character after it being a space |
| Text.Trim | app.js:219-220 | trim: a slice of the input that starts after its leading spaces, neither starts nor ends with a space, and is followed only by spaces |
| Text.TrimEmptyIffAllSpaces | app.js:224 | a field is rejected as empty after trimming exactly when it is made of spaces alone |
| Text.TrimKeepsTrimmed | app.js:272-275 | text without surrounding spaces is stored as given |
| Text.TrimIdempotent | app.js:318 | trimming twice is trimming once |
| Records.FindProduct | app.js:247 | find by code: absent exactly when no product has the code, otherwise a product that has it |
| Records.FindProductIsFirst | app.js:247 | the product found is the first with the code: no product before it has that code |
| Records.FoundProductIsUnique | app.js:247 | with distinct codes, the product found is the only product with that code |
| Records.PimId | app.js:294 | the identifier alone when the sub-identifier is empty; otherwise the identifier, then " / ", then the sub-identifier |
| Records.PimIdsCollide | app.js:294 | an identifier containing " / " with no sub-identifier yields the same identifier as its halves given separately |
| Ledger.RemainingForProduct | app.js:51-59 | never negative; zero exactly when the product's required quantity is at most its allocated quantity; otherwise required minus allocated |
| Ledger.RemainingQuantity | app.js:167-172 | never negative; zero exactly when total requirement quantity is at most total PIM quantity; otherwise their difference |
| Ledger.RemainingValue | app.js:168-173 | never negative; zero exactly when total requirement value is at most total PIM value; otherwise their difference |
| Ledger.NoRequirementsNoBalance | app.js:51-59 | a product with no requirements has a balance of zero |
| Ledger.RequiredAfterAppend | app.js:52-54 | appending a requirement adds its quantity to its own product's demand and nothing to any other |
| Ledger.UsedAfterAppend | app.js:55-57 | appending a PIM adds its quantity to its own product's allocation and nothing to any other |
| Ledger.AllocationConsumesBalance | app.js:286-293 | a PIM admitted by the capacity check lowers its product's balance by exactly its quantity and keeps allocation within demand |
| Ledger.AllocationLeavesOthers | app.js:293 | a PIM leaves the balance of every other product unchanged |
| Ledger.DemandRaisesBalance | app.js:262 | a requirement never lowers a balance; it raises its product's balance by its quantity when that product is not over-allocated; it leaves other products alone |
| Ledger.StatusChangeKeepsBalances | app.js:325 | changing a PIM's status leaves every balance unchanged |
| Ledger.CascadeClearsProduct | app.js:358-359 | after the cascade, nothing is required of or allocated to the deleted code |
| Ledger.CascadeKeepsOthers | app.js:358-359 | after the cascade, every other code keeps its demand and its allocation |
| Ledger.ReleaseNeverLowersBalance | app.js:390 | deleting PIMs never lowers a product's balance |
| Ledger.WithdrawalNeverRaisesBalance | app.js:376 | deleting requirements never raises a product's balance |
| Ledger.TotalSplitsByProduct | app.js:157 | total requirement quantity is one product's demand plus the total over the other products' requirements |
| Ledger.SinglePriceValueTracksQuantity | app.js:166-174 | when everything is valued at one non-negative price, the remaining value is that price times the remaining quantity |
| Ledger.ClampedIndependently | app.js:172-173 | the two overall figures are clamped separately: some store shows quantity remaining but no value remaining |
| Schedule.AddDays | app.js:122-126 | addDays: the resulting day starts exactly `days` whole days of milliseconds after the start day |
| Schedule.DueDateRating | app.js:327-329 | a contract is rated late exactly when the clock is past the instant `sla` whole days after its start day began, on time otherwise |
| Schedule.SlaStatusAt | app.js:329 | late exactly when the clock is past the start of the due day, on time otherwise |
| Schedule.LatenessIsMonotone | app.js:329 | a later reading of a late contract is late; an earlier reading of an on-time contract is on time |
| RecordStore.Store.Saved | app.js:36-38 | the snapshot holds all four collections as they are |
| RecordStore.Store.constructor | app.js:17-22 | the initial state has four empty collections and is consistent |
| RecordStore.Store.Load | app.js:40-49 | no stored data leaves the state alone; otherwise each collection is taken from the snapshot, or is empty when the snapshot lacks it |
| RecordStore.Store.UpsertProduct | app.js:219-234 | rejected, with nothing changed, exactly when the trimmed code or name or the date is empty; otherwise the products with that code are dropped and the new one goes last, so it is the only one with that code; the other products keep their order; the other collections and consistency are kept |
| RecordStore.Store.AddRequirement | app.js:245-262 | rejected, with nothing changed, exactly when the code is unknown or the quantity is not positive; otherwise one requirement with the product's name and price and the value price times quantity is appended, raising that product's demand by the quantity |
| RecordStore.Store.AddPim | app.js:272-303 | ignored when a trimmed identifier, factory or supplier is empty, the product is unknown or the quantity is not positive; refused when the quantity exceeds the product's balance; otherwise one PIM with the derived identifier, the initial status and the value price times quantity is appended; the balance drops by exactly the quantity; allocation stays within demand; other balances are unchanged |
| RecordStore.Store.RecordContract | app.js:314-341 | ignored, with nothing changed, exactly when no PIM has the identifier; otherwise only the first such PIM takes the status, and one entry is put in front of the timeline, due `sla` days after the start and rated against `now`; every balance is unchanged |
| RecordStore.Store.DeleteProduct | app.js:353-359 | an empty code is ignored; otherwise products, requirements and PIMs of that code are removed; nothing of that code is left; contracts and every other product's balance are unchanged |
| RecordStore.Store.DeleteRequirement | app.js:372-376 | an empty identifier is ignored; otherwise exactly the requirements with that identifier are removed and nothing else; no balance goes up |
| RecordStore.Store.DeletePim | app.js:386-391 | an empty identifier is ignored; otherwise every PIM with that identifier and every contract entry for it are removed; products and requirements are unchanged; no balance goes down |
| RecordStore.Store.Reset | app.js:401-414 | all four collections are empty; the totals, both overall remaining figures and every product's balance are zero |
| RecordStore.UpsertKeepsConsistent | app.js:228-234 | an upsert of a complete product keeps codes distinct and keeps every requirement's and PIM's product present |
| RecordStore.ExistingCodeSurvivesUpsert | app.js:228-234 | a code present before an upsert is present after it |
| RecordStore.RequirementKeepsConsistent | app.js:249-262 | a requirement for a listed product with a positive quantity keeps the store consistent |
| RecordStore.PimKeepsConsistent | app.js:282-303 | a PIM with an identifier, a listed product and a positive quantity keeps the store consistent |
| RecordStore.StatusChangeKeepsConsistent | app.js:325 | a status change keeps the store consistent |
| RecordStore.CascadeKeepsConsistent | app.js:357-359 | a product's cascade delete keeps the store consistent |
| RecordStore.OtherCodeSurvivesDelete | app.js:357 | deleting one code leaves every other code that was present |
| RecordStore.WithdrawalKeepsConsistent | app.js:376 | deleting requirements keeps the store consistent |
| RecordStore.ReleaseKeepsConsistent | app.js:390 | deleting PIMs keeps the store consistent |

## Left out

- DOM access, the table and timeline templates, the selectors, the requirement preview and the PIM balance field (app.js:1-13, 61-120, 128-156, 159-163, 176-214): user interface; the totals and remaining figures those renderers compute (app.js:157-158, 166-174) are modelled. The balance field shows `RemainingForProduct`.
- `formatCurrency` and `formatNumber` (app.js:24-34): locale formatting through `Intl`.
- `localStorage` and `JSON.stringify`/`JSON.parse` (app.js:36-49): storage is I/O. `Load` takes the parsed snapshot. A stored text that does not parse makes `JSON.parse` throw and is not modelled.
- `crypto.randomUUID`, `alert` and `confirm`: foreign calls. The identifier is a parameter, the refusal alert is the `OverCapacity` outcome, and only the confirmed branch of reset is modelled.
- `new Date()`: the clock is the parameter `now`. The source reads the clock twice, once for the rating and once for `updatedAt`, and the model uses one reading for both.
- `toLocaleDateString` and `toLocaleString` (app.js:336-338): `dueDate` is kept as a day number and `updatedAt` as the instant. `slaStatus` is stored as `SlaStatus`, whose `Label` is the stored text.
- Schedule.AddDays: it does not model the time zone or daylight-saving behaviour of `Date.setDate`, or how `new Date` parses the start date; those are library and locale details. The model assumes the start date is a valid day number, that `sla` is a whole number of days, and that the due instant lies inside the range of a JavaScript `Date` (at most 8.64e15 ms either side of the epoch).
- RecordStore.Store.RecordContract: it does not model the Invalid Date outcome. The contract handler checks neither the start date nor `sla` (app.js:316-323). An empty or unparseable start date, a `sla` that is `NaN`, or a due instant outside the `Date` range makes `addDays` return an Invalid Date. `now > dueDate` is then false (app.js:329), so the source records "En tiempo" with a due date that reads "Invalid Date". The model instead rates a far-past due date as late. A fractional `sla` is stored as given, while `setDate` rounds the shifted day of the month (`getDate() + sla`, app.js:124) toward zero; the model's `sla` is an integer, so that case is not represented either.
- `Number(...)` parsing and floating-point arithmetic: quantities and prices are exact reals, so `NaN` inputs and rounding are not modelled. Sums are taken front to back, and over exact reals the order of addition is immaterial.
- The price and the `sla` field are not validated by the source, and the model does not validate them either (the model's `sla` is restricted to whole numbers by its type, as described above).
- Deleting a product does not delete the contract entries of its PIMs, in the model as in the source.
- A contract entry's `slaStatus` is fixed when it is recorded and is never recomputed, in the model as in the source.
- `pim.status = status` updates the object in place. The model replaces that element of the `pims` sequence, and since records are values, aliasing of that object is not modelled.
- Event wiring and the start-up sequence (app.js:398-399, 416-421): glue.
