# Cantina point of sale: order, stock and combo bookkeeping in Dafny

This project models the bookkeeping core of the Cantina point-of-sale
application (Django back end, JavaScript cashier screen). It covers:

- the cashier's order views: create, edit and delete an order, change its
  status;
- the combo views: replace a combo's slots, validate the picks for a combo
  line;
- the category and product administration guards and the dashboard's role
  gate;
- the rules the models enforce on save: per-tenant zero-padded order
  numbers, `subtotal = quantidade * preco_unitario`, combo integrity, the
  stock check of a slot item, and the uniqueness constraints;
- the self-service kiosk's order path;
- the kitchen's status update, its active-order lists and their counts;
- the menu ordering of `ordenar_produtos_customizado`;
- the cashier screen's cart (add, remove, change quantity, total,
  finalize) and its `getCookie` parser.

The database is one value, `Models.Db`. It holds products, categories,
orders (in id order, with their items and combo choices), combos (product
to slots), the tenants and the id counters. Prices are integer cents.
`quantidade_abate` and `quantidade_abatida` are integer thousandths.
`int(...)` of such a decimal truncates toward zero (`Common.IntPart`).

The project has three layers:

- **Specification functions.** Each view is a function from the store
  before the request to the store after it and the response
  (`OrderSpec.CreateOrderSpec`, `ComboSpec.ConfigureComboSpec`,
  `AdminSpec.DeleteProductSpec`, …). The functions process items left to
  right, exactly as the views loop over them. A failure part-way keeps
  what the view had already written, because no view runs in a
  transaction.
- **Lemmas.** The lemmas beside each function prove what the code promises:
  - when each view succeeds, as an if-and-only-if over its inputs;
  - what a success writes and that nothing else changes;
  - the stock effects and totals;
  - that the store invariant `Models.ValidDb` is preserved;
  - the asymmetries between creating and deleting combo orders.
- **Imperative store.** `Caixa.Store` is a class whose fields are the
  tables. Its methods run the views' loops (`while` loops with invariants,
  in module-level `Run…` methods) and are proved to produce exactly the
  store and the response the specification function gives, and to keep
  `Valid()`.

The cart is the class `CashierScreen.Cart`. Its field `lines` is the
script's `itensPedido` array, which the handlers reassign.

Behaviour the code has, and which the model reproduces rather than fixes:

- Deleting an order credits each line's `quantidade` to its own product
  and each choice's unscaled `quantidade_abatida` to the chosen product.
  Creating debits `int(quantidade_abate) * quantidade` from the chosen
  products and nothing from a combo's own product. A combo order created
  and then deleted therefore leaves the combo product `q` units higher and
  the chosen product `(q - 1) * d` units lower
  (`OrderSpec.ComboCreateDeleteDrift`).
- A lookup failure in the middle of a create deletes the order but keeps
  the debits of the items before it.
- An edit never reconciles stock, and rebuilds items without their combo
  choices.
- Order numbers run per tenant, but `numero_pedido` is unique across all
  tenants. A tenant's first order is "0001", so once any tenant holds
  "0001", every other tenant's first order fails with an integrity error
  (`OrderSpec.CrossTenantFirstOrderRejected`).
- Two choices for the same slot in one combo item violate the
  (item, slot) uniqueness. The error escapes the inner handler, and the
  order stays with total 0 and the first debit applied.
- The cashier's status view checks the status before the order; the
  kitchen's view checks the order first.
- The page trims the customer name with JavaScript's white-space set and
  the server with Python's. The two differ, so the name "\u001C" passes
  the page and is refused by the server (`CashierScreen.TrimsDisagree`).
- `excluir_produto` removes the combo and its old choices before its final
  delete. When that delete is refused because another choice still names
  the product, the combo is already gone (`AdminSpec.RefusedAfterComboGone`).

## Model

| member | source | states |
|---|---|---|
| Common.Trim | caixa/views.py:139-152 | `strip()` gives the empty string exactly when the input is all white space, and never lengthens it |
| Common.TrimEdges | caixa/views.py:139 | a stripped, non-empty string neither starts nor ends with white space |
| Common.IntPart | caixa/views.py:207 | `int()` of a decimal in thousandths truncates toward zero, for negative amounts too |
| Numbering.NatToString | caixa/models.py:107 | `str(n)` is a non-empty digit string with no leading zero whose value is `n` |
| Numbering.LeadingZerosValue | caixa/models.py:104 | `int()` ignores the zeros `zfill` adds |
| Numbering.NatToStringShort | caixa/models.py:107 | a number has fewer than four digits exactly when it is below 1000 |
| Numbering.FormatNumber | caixa/models.py:107 | `str(n).zfill(4)` is all digits, at least four long, reads back as `n`, and is not truncated from 1000 up |
| Numbering.FormatNumberInjective | caixa/models.py:107 | two different numbers never get the same stored string |
| Models.ParseStatus | caixa/models.py:55-61 | a string is accepted exactly when it is one of the five `STATUS_CHOICES` keys, and the status read back has that name |
| Models.LastOfTenant | caixa/models.py:102 | finds the tenant's order with the highest id (the last one of the tenant in id order), or none exactly when the tenant has no order |
| Models.SaveNumber | caixa/models.py:100-108 | an existing number is kept; an empty one becomes a zero-padded digit string whose value is the tenant's next number |
| Models.InsertSlotPerm | caixa/models.py:162-164 | inserting a slot into the ordered list adds exactly that slot |
| Models.SortSlots | caixa/models.py:162-164 | `obter_slots_ordenados` returns the same slots, in ascending `ordem` |
| Models.SortSlotsStrict | caixa/models.py:182 | with `ordem` unique per combo, the sorted slots are strictly ascending |
| Models.SortSlotsOfSorted | caixa/models.py:162-164 | slots already strictly ascending come back unchanged |
| Models.FirstEmptySlot | caixa/models.py:156-158 | reports no empty slot exactly when every slot has an item; otherwise names the first empty one |
| Models.ValidateIntegrity | caixa/models.py:150-160 | valid iff there is a slot and every slot has an item; no slots is its own failure; an empty slot is the first one in `ordem` order |
| Models.HasStockCoversOneDebit | caixa/models.py:216-218 | when the stock check passes for a non-negative debit, one truncated debit leaves the stock non-negative |
| OrderSpec.ApplyChoices | caixa/views.py:187-208 | the loop over `escolhas` can only stop on a missing combo item |
| OrderSpec.ApplyItem | caixa/views.py:166-212 | one pass of the item loop stops only on a missing product or combo item |
| OrderSpec.ApplyItems | caixa/views.py:166-212 | the item loop stops only on a missing product or combo item |
| OrderSpec.CreateOrderSpec | caixa/views.py:130-152 | an empty item list, a blank name or a blank payment is refused in that order with the store unchanged; a success appends exactly one order; combos and categories never change |
| OrderSpec.Conclude | caixa/views.py:169-227 | the order is reported created exactly when the loop ran to the end; the order list either stays or gains one order at the end |
| OrderSpec.FindOrder | caixa/views.py:294 | finds the position of the tenant's order with that id, or none exactly when the tenant has no such order |
| OrderSpec.EditOrderSpec | caixa/views.py:264-329 | the same three checks as create, each refusing with the store unchanged; an edit changes only the order list, keeps its length, and never changes stock |
| OrderSpec.EditAt | caixa/views.py:294-325 | once the order is found, the edit either succeeds or fails on a missing product, touching only the orders |
| OrderSpec.DeleteOrderSpec | caixa/views.py:1005-1056 | a failed delete changes nothing; a successful one removes one order; the set of products, the combos and the categories stay |
| OrderSpec.DeleteAt | caixa/views.py:1018-1051 | removes exactly the found order, changes only stock, and reports its number and the sum of its item quantities |
| OrderSpec.CreditKeys | caixa/views.py:1025-1033 | crediting the lines changes no product's existence |
| OrderSpec.RecordedAt | caixa/models.py:224-227 | each `escolha` is recorded as one choice with its slot, product and debit |
| OrderSpec.ApplyChoicesEffect | caixa/views.py:187-208 | when every slot and product is found and no slot repeats, the choices are recorded and each chosen product loses `int(quantidade_abate) * quantidade` |
| OrderSpec.CreatedItemsTotal | caixa/views.py:176-183 | the created items' subtotals add up to the sum of `quantidade * preco` at the prices of the moment |
| OrderSpec.ApplyItemEffect | caixa/views.py:166-212 | one resolvable request writes one item at the current price, adds its subtotal and applies its debits |
| OrderSpec.ApplyItemsEffect | caixa/views.py:165-212 | when everything resolves, the loop writes one item per request, adds the price sum and debits what the requests debit |
| OrderSpec.ApplyChoicesRunning | caixa/views.py:187-204 | a choice loop that runs to the end found every slot and product and met no slot twice |
| OrderSpec.ApplyItemsRunning | caixa/views.py:166-212 | an item loop that runs to the end found everything it looked up |
| OrderSpec.ApplyItemsConcat | caixa/views.py:166-212 | running the loop over two halves is running it over the first, then the second unless it stopped |
| OrderSpec.ApplyItemsWellFormed | caixa/models.py:126-128 | every item written obeys the subtotal rule and holds at most one choice per slot, however the loop ends |
| OrderSpec.CreateUnfold | caixa/views.py:154-215 | past the checks and a free number, creation is the item loop and its conclusion |
| OrderSpec.CreateRuns | caixa/views.py:165-214 | checks passed and everything resolves: the loop ends normally with the created items and their subtotal sum |
| OrderSpec.CreateOrderWhen | caixa/views.py:118-229 | an order is created exactly when the three checks pass, the new number is free, and every product, slot and chosen product is found with no slot chosen twice |
| OrderSpec.CreateOrderResult | caixa/views.py:154-222 | a created order is the only change besides the debits: the store gains that order at the next id |
| OrderSpec.CreateTotal | caixa/views.py:165-214 | the created order's total is the sum of `quantidade * preco` at the current prices and equals its items' subtotal sum |
| OrderSpec.CreatedFound | caixa/views.py:168 | a created order found every requested product |
| OrderSpec.ComboProductNotDebited | caixa/views.py:186-212 | a combo item with choices, none of which names the combo's own product, takes nothing from that product (a slot offering the combo product itself would debit it) |
| OrderSpec.ApplyItemsStopsAt | caixa/views.py:168-174 | the loop stops at the first missing product with the progress of the items before it |
| OrderSpec.CreateMissingKeepsDebits | caixa/views.py:168-174 | a product missing part-way deletes the order but keeps the earlier debits, and the id is spent |
| OrderSpec.ConcludeMissing | caixa/views.py:193-197 | a loop stopped by a missing row deletes the order and keeps the debits |
| OrderSpec.ConcludeSaved | caixa/views.py:214-227 | a loop that ran to the end saves the order with its total; an integrity error leaves it with total 0 |
| OrderSpec.CrossTenantFirstOrderRejected | caixa/models.py:78 | a tenant's first order fails with an integrity error once another tenant holds "0001", and the store is unchanged |
| OrderSpec.ApplyItemsDuplicateSlot | caixa/models.py:233 | a second choice for the same slot in one item stops the loop with an integrity error after the first debit |
| OrderSpec.DuplicateSlotChoiceKeepsOrder | caixa/views.py:199-227 | with two choices for one slot, the order stays with total 0, the item and its first choice, and the first debit applied |
| OrderSpec.CreateNumbering | caixa/models.py:100-107 | the created order carries the tenant's next number, and the next one after it is one higher |
| OrderSpec.AppendOrderWellFormed | caixa/models.py:78 | appending an order with the next id and a fresh, unique number keeps the orders well formed |
| OrderSpec.ConcludeValid | caixa/views.py:214-227 | concluding a creation keeps the store invariant |
| OrderSpec.CreatePreservesValid | caixa/views.py:118-229 | creation keeps the store invariant (increasing ids, unique numbers, subtotal rule, one choice per slot), whichever way it ends |
| OrderSpec.BuildItemsEffect | caixa/views.py:307-316 | the edit loop runs to the end exactly when every product is found, and then writes one plain item per request |
| OrderSpec.BuildItemsStopsAt | caixa/views.py:308 | a missing product stops the edit loop with the items of the requests before it |
| OrderSpec.ListedItemsTotal | caixa/views.py:306-318 | the rebuilt items' subtotals add up to the sum of `quantidade * preco` |
| OrderSpec.ListedItemsAt | caixa/views.py:309-315 | one rebuilt item per request, for its product, with no combo choices |
| OrderSpec.EditOrderWhen | caixa/views.py:264-325 | an edit succeeds exactly when the three checks pass, the tenant has that order and every product is found |
| OrderSpec.EditAtWhen | caixa/views.py:307-325 | a found order is edited exactly when every product is found |
| OrderSpec.EditOrderResult | caixa/views.py:294-325 | a successful edit rewrites just that order (customer, kind, payment, rebuilt items, new total); id, tenant, status, number, every other order and every stock stay |
| OrderSpec.EditFound | caixa/views.py:294 | past the checks, editing a found order is editing it at its position |
| OrderSpec.EditAtResult | caixa/views.py:297-325 | the order at the position gets the new header fields, the rebuilt items and their price sum |
| OrderSpec.EditMissingProduct | caixa/views.py:303-308 | a product missing part-way leaves the old items deleted, the earlier new items written and the old header and total |
| OrderSpec.ReplaceOrderWellFormed | caixa/models.py:126-128 | rewriting one order with the same id and number and well-formed items keeps the orders well formed |
| OrderSpec.EditAtTouchesOne | caixa/views.py:294-319 | an edit rewrites only the order it finds, keeps its id and number, and gives it well-formed items |
| OrderSpec.EditPreservesValid | caixa/views.py:264-329 | editing keeps the store invariant |
| OrderSpec.BuildItemsWellFormed | caixa/models.py:126-128 | the rebuilt items obey the subtotal rule |
| OrderSpec.CreditItemsStock | caixa/views.py:1025-1033 | the first delete loop gives each product back the quantities of its lines |
| OrderSpec.CreditChoicesStock | caixa/views.py:1036-1043 | with whole-unit debits the second loop gives back exactly the recorded units |
| OrderSpec.DeleteOrderResult | caixa/views.py:1010-1051 | a delete succeeds exactly when an id is given and the tenant has that order; it removes just that order, reports its number and unit count, and credits lines and choices |
| OrderSpec.RemoveOrderWellFormed | caixa/views.py:1046 | removing one order keeps the orders well formed |
| OrderSpec.DeletePreservesValid | caixa/views.py:1005-1056 | deleting keeps the store invariant |
| OrderSpec.FindAppended | caixa/views.py:1018 | the order just created is the one the delete finds |
| OrderSpec.FindAfterUpdate | caixa/views.py:1018 | rewriting an order without touching its id or tenant does not move it |
| OrderSpec.SumQuantitiesCreated | caixa/views.py:1033 | the unit count of the created items is the number of units requested |
| OrderSpec.DeleteNewOrder | caixa/views.py:1018-1046 | deleting the order just created finds it at the end and leaves the earlier orders as they were |
| OrderSpec.PlainCreditUndoesDebit | caixa/views.py:1025-1031 | crediting the lines of a plain order undoes its debits |
| OrderSpec.CreditNewPlainOrder | caixa/views.py:1025-1043 | deleting a new plain order gives back exactly what creating it took |
| OrderSpec.DeleteCreatedPlain | caixa/views.py:1005-1051 | on the store a plain creation leaves, the delete restores every stock and the order list and reports the units ordered |
| OrderSpec.DeleteAfterCreatePlain | caixa/views.py:1022-1043 | for an order of plain items, delete right after create restores every stock and the order list; only the id is spent |
| OrderSpec.OneComboDebits | caixa/views.py:207 | a combo line with one choice debits `int(quantidade_abate) * quantidade` from the chosen product and nothing from the combo |
| OrderSpec.AfterCreateCombo | caixa/views.py:199-208 | after creating one combo line, the combo's stock is unchanged and the chosen product's is lowered |
| OrderSpec.DeleteCreatedCombo | caixa/views.py:1025-1043 | creating then deleting one combo line moves the combo's stock up by `q` and the chosen one by `-(q - 1) * d` |
| OrderSpec.DeleteOneCombo | caixa/views.py:1025-1043 | deleting a one-combo order credits the combo product `q` and the chosen product the unscaled `d` |
| OrderSpec.ComboCreateDeleteDrift | caixa/views.py:1025-1043 | create then delete of a combo order leaves the combo product `q` units higher and the chosen product `(q - 1) * d` lower |
| OrderSpec.EditThenDelete | caixa/views.py:303-316 | after an edit, a delete reports the edited units and credits the edited quantities only |
| OrderSpec.ListedNoChoices | caixa/views.py:309-315 | rebuilt items carry no combo choices |
| OrderSpec.SumQuantitiesListed | caixa/views.py:1033 | the unit count of rebuilt items is the number of units requested |
| ComboSpec.AddItems | caixa/views.py:673-678 | writing a slot's items keeps the slot's id, name and `ordem` |
| ComboSpec.ConfigureComboSpec | caixa/views.py:646-684 | no product id refuses with nothing changed; otherwise only that combo's slots and the slot counter may change |
| ComboSpec.ConfigureAt | caixa/views.py:658-678 | the combo exists afterwards (get-or-create persists) and only its slots change |
| ComboSpec.PostedItemsAt | caixa/views.py:673-678 | each posted item becomes one slot item with its product and debit |
| ComboSpec.PostedAt | caixa/views.py:664-678 | the k-th posted slot gets the k-th fresh id, its name, `ordem` and items |
| ComboSpec.AddItemsEffect | caixa/views.py:673-678 | the item loop runs to the end exactly when every product exists, and then appends the posted items |
| ComboSpec.AddSlotsComplete | caixa/views.py:664-678 | with distinct new `ordem` values and known products, the slot loop writes exactly the posted slots under consecutive ids |
| ComboSpec.AddSlotsCompleteOnly | caixa/views.py:664-678 | a slot loop that runs to the end had distinct new `ordem` values and known products |
| ComboSpec.ConfigureWhen | caixa/views.py:652-678 | configuration succeeds exactly when an id is given, the product is the tenant's, no choice protects an old slot, the posted `ordem` values are distinct and every posted product exists |
| ComboSpec.ConfigureResult | caixa/views.py:658-678 | after a success the combo's slots are exactly the posted ones, under fresh ids |
| ComboSpec.ConfigureReplacesAll | caixa/views.py:661 | no slot the combo had before survives a successful configuration |
| ComboSpec.ConfiguredIntegrity | caixa/models.py:150-160 | a configured combo passes the integrity check exactly when a slot was posted and every posted slot has items |
| ComboSpec.AddSlotsWellFormed | caixa/models.py:182 | the slots written have ids below the counter and distinct `ordem` values, however the loop ends |
| ComboSpec.ConfigurePreservesWellFormed | caixa/models.py:182 | configuration keeps slot ids below the counter and `ordem` unique per combo |
| ComboSpec.ConfigurePreservesValid | caixa/views.py:646-684 | configuration keeps the store invariant |
| ComboSpec.IndexOfSlot | caixa/views.py:789 | finds the position of the slot with that id, or none exactly when the list has no such slot |
| ComboSpec.FindSlot | caixa/views.py:789 | a slot is found exactly when some combo holds one with that id |
| ComboSpec.OffersOf | caixa/views.py:790 | exactly the slot items that offer the product |
| ComboSpec.CheckPicks | caixa/views.py:788-796 | the first loop passes exactly when every pick's slot exists, offers the product once and has stock for one debit |
| ComboSpec.AddComboSpec | caixa/views.py:771-828 | a combo line is returned exactly when the combo is the tenant's, there is one pick per slot and every pick passes; it carries the combo's product and price and one detail per pick |
| ComboSpec.DetailsAt | caixa/views.py:799-817 | each detail names the pick's slot, its name, the product and the debit the slot offers |
| ComboSpec.ForeignSlotAccepted | caixa/views.py:780-790 | the count check compares counts only: a pick list of the right length whose picks all pass is accepted even when a pick names another combo's slot |
| ComboSpec.ForeignSlotWitness | caixa/views.py:780-796 | a concrete store with two combos in which picking the other combo's slot is accepted |
| ComboSpec.DuplicateOfferRejected | caixa/views.py:790 | a slot offering the same product twice can never be picked for it: the lookup of the offer finds two rows and fails |
| ComboSpec.AcceptedPicksInStock | caixa/views.py:792 | every accepted pick has stock for one truncated debit |
| AdminSpec.DashboardAccess | caixa/views.py:11-18 | the kitchen is sent to its dashboard; a cashier asking for settings or users is sent to the new-order tab; everyone else sees the tab asked for |
| AdminSpec.SetStatus | caixa/views.py:403-404 | setting a status changes only the orders and keeps their number |
| AdminSpec.SetStatusOnly | caixa/models.py:100-101 | on a numbered order, saving a status changes that field of that order and nothing else |
| AdminSpec.SetStatusPreservesValid | caixa/views.py:403-404 | a status change keeps the store invariant |
| AdminSpec.ChangeStatusSpec | caixa/views.py:386-416 | a missing or unknown status is refused before the lookup; the change happens exactly when the status is valid and the tenant has the order; a refusal changes nothing |
| AdminSpec.ParseName | caixa/models.py:55-61 | every status name is accepted and reads back as that status |
| AdminSpec.AnyStatusMayFollow | caixa/views.py:394-404 | any of the five statuses may follow any other, and only that order's status changes |
| AdminSpec.ChangeStatusPreservesValid | caixa/views.py:386-416 | a status change keeps the store invariant |
| AdminSpec.CreateCategorySpec | caixa/views.py:883-899 | a category is created exactly when the stripped name is non-empty and unused in the tenant; it is active, not a system one, and gets the next id; a refusal changes nothing |
| AdminSpec.EditCategorySpec | caixa/views.py:961-989 | an edit succeeds exactly when the category is the tenant's, not a system one, and any new name is non-empty and unused by another category; only the name changes |
| AdminSpec.DeleteCategorySpec | caixa/views.py:922-942 | a category is deleted exactly when it is the tenant's, not a system one, and none of the tenant's products uses it; a refusal changes nothing |
| AdminSpec.DeleteCategoryUnfiles | caixa/models.py:23 | after a delete no product points at the category, only that field changes, and the tenant's products are untouched |
| AdminSpec.CreateCategoryKeepsNamesUnique | caixa/views.py:889-891 | creating keeps names unique per tenant |
| AdminSpec.EditCategoryKeepsNamesUnique | caixa/views.py:976-981 | editing keeps names unique per tenant |
| AdminSpec.CreateThenDeleteCategory | caixa/views.py:876-951 | a category created and then deleted leaves only the spent id behind |
| AdminSpec.CreateCategoryPreservesValid | caixa/views.py:876-912 | creating a category keeps the store invariant |
| AdminSpec.EditCategoryPreservesValid | caixa/views.py:954-1000 | editing a category keeps the store invariant |
| AdminSpec.DeleteCategoryPreservesValid | caixa/views.py:916-951 | deleting a category keeps the store invariant |
| AdminSpec.ChoicesOff | caixa/views.py:1141 | exactly the choices not made on the removed slots survive, and a list with none on those slots is kept whole |
| AdminSpec.ChoicesOffConcat | caixa/views.py:1141 | removing choices works piecewise, so the surviving choices keep their order and multiplicity |
| AdminSpec.DropChoicesOnNothing | caixa/views.py:1124-1145 | a product that is not a combo loses no choices |
| AdminSpec.ItemsWithout | caixa/models.py:113 | exactly the items not selling the deleted product survive the cascade, and a list with none of them is kept whole |
| AdminSpec.ItemsWithoutConcat | caixa/models.py:113 | the cascade works piecewise, so the surviving items keep their order and multiplicity |
| AdminSpec.DeleteProductSpec | caixa/views.py:1087-1157 | every refusal but the last changes nothing; only products, orders and combos may change; a deleted product and its combo are gone |
| AdminSpec.ChosenAfterDrop | caixa/views.py:1141-1147 | after the old choices are removed, the product is still chosen exactly when a choice outside its combo's slots names it |
| AdminSpec.DeleteProductWhen | caixa/views.py:1093-1147 | a product is deleted exactly when it is the tenant's, no active order sells it, no slot offers it, no active order chose on its combo, and no other choice names it |
| AdminSpec.RefusedAfterComboGone | caixa/views.py:1140-1147 | a refusal at the final delete comes after the combo and the choices on its slots are gone |
| AdminSpec.DeleteProductEffect | caixa/views.py:1140-1147 | after a delete the product and its combo are gone, every order keeps its header, each order keeps exactly its items not selling the product (in order), each with its choices except those on the combo's slots, and no item or choice names the product |
| AdminSpec.ChoicesOffOnePerSlot | caixa/models.py:233 | removing choices keeps at most one per slot |
| AdminSpec.DeleteProductPreservesValid | caixa/views.py:1087-1157 | deleting a product keeps the store invariant |
| AdminSpec.DropComboKeepsRefs | caixa/views.py:1141-1144 | removing a combo's choices and then the combo leaves no choice pointing at a deleted slot |
| AdminSpec.DropProductKeepsRefs | caixa/models.py:199 | deleting an unreferenced product with its items leaves no dangling reference |
| AdminSpec.DeleteProductKeepsRefs | caixa/views.py:1087-1157 | whatever its outcome, deleting a product leaves no dangling reference |
| SelfServiceSpec.KioskOrderSpec | autoatendimento/views.py:20-55 | no stock ever changes; a non-POST is refused, and only then, with the store unchanged; only the orders and the id counter may change |
| SelfServiceSpec.KioskCreates | autoatendimento/views.py:21-53 | an order is created exactly when the request is a POST for a known tenant with a free number and every product exists; it is of kind 'autoatendimento', 'Cliente' by default, one item per request, total their price sum |
| SelfServiceSpec.KioskEmptyOrder | autoatendimento/views.py:34-46 | an empty item list is accepted and gives an order with no items and total 0 |
| SelfServiceSpec.KioskMissingProduct | autoatendimento/views.py:25-35 | a missing product raises after the order exists: it stays with the earlier items and total 0 |
| SelfServiceSpec.KioskPreservesValid | autoatendimento/views.py:20-55 | the kiosk keeps the store invariant, whichever way it ends |
| KitchenSpec.UpdateStatusSpec | cozinha/views.py:31-41 | only a POST for a found order with a key of `STATUS_CHOICES` updates; a missing order is a 404; any refusal changes nothing; the reply echoes the status |
| KitchenSpec.KitchenAgreesWithCashier | cozinha/views.py:36-38 | when the kitchen's update succeeds, the cashier's view succeeds too and writes the same store |
| KitchenSpec.CheckOrderDiffers | cozinha/views.py:33-36 | for a missing order with an unknown status, the cashier blames the status and the kitchen the order |
| KitchenSpec.UpdateStatusPreservesValid | cozinha/views.py:31-41 | the kitchen's update keeps the store invariant |
| KitchenSpec.Select | cozinha/views.py:48-51 | the list holds exactly the tenant's orders whose status is among those asked for |
| KitchenSpec.ActiveNamesAreActive | cozinha/views.py:83-86 | a status is in the filter exactly when it is pending, preparing or ready |
| KitchenSpec.ActiveOrdersExactly | cozinha/views.py:83-86 | the active list holds exactly the tenant's pending, preparing and ready orders |
| KitchenSpec.SelectAbove | cozinha/views.py:86 | a bound below every id still holds after a filter |
| KitchenSpec.SelectKeepsOrder | cozinha/views.py:12-15 | the filtered lists keep ascending creation order |
| KitchenSpec.ListOrders | cozinha/views.py:46-51 | the list holds exactly the tenant's orders with the requested status, 'pendente' when none is given; an unknown status lists nothing |
| KitchenSpec.ListDefaultsToPending | cozinha/views.py:46 | without a status the list is the pending one, and holds only pending orders |
| KitchenSpec.CountsCoverActive | cozinha/views.py:89-91 | on active orders the three status counts add up to the length |
| KitchenSpec.StatsAddUp | cozinha/views.py:143-148 | `total_pendente + total_preparando + total_pronto == total_pedidos` |
| Caixa.RunChoices | caixa/views.py:187-208 | the loop over `escolhas` ends with the stock, the item and the stop reason of `ApplyChoices` |
| Caixa.RunItems | caixa/views.py:165-212 | the item loop ends with the progress and stop reason of `ApplyItems` |
| Caixa.RunBuildItems | caixa/views.py:306-316 | the edit's item loop builds the items of `BuildItems` |
| Caixa.RunCreditItems | caixa/views.py:1025-1033 | the first delete loop gives back what `CreditItems` says |
| Caixa.RunCreditChoices | caixa/views.py:1036-1043 | the second delete loop gives back what `CreditChoices` says |
| Caixa.RunSlotItems | caixa/views.py:673-678 | the slot-item loop writes what `AddItems` says |
| Caixa.RunSlots | caixa/views.py:664-678 | the slot loop writes what `AddSlots` says |
| Caixa.RunCheckPicks | caixa/views.py:788-796 | the stock-check loop answers as `CheckPicks` |
| Caixa.RunDetails | caixa/views.py:799-817 | the detail loop builds the details of `Details` |
| Caixa.RunCreate | caixa/views.py:118-229 | the steps of `criar_pedido` give the store and answer of `CreateOrderSpec`, changing only products, orders and the id counter |
| Caixa.Store.CreateOrder | caixa/views.py:118-229 | the store after the call and the answer are those of `CreateOrderSpec`; the invariant holds |
| Caixa.Store.EditOrder | caixa/views.py:264-329 | the store and answer are those of `EditOrderSpec`; the invariant holds |
| Caixa.Store.DeleteOrder | caixa/views.py:1005-1056 | the store and answer are those of `DeleteOrderSpec`; the invariant holds |
| Caixa.Store.ConfigureCombo | caixa/views.py:646-684 | the store and answer are those of `ConfigureComboSpec`; the invariant holds |
| Caixa.Store.AddComboToOrder | caixa/views.py:766-832 | answers as `AddComboSpec` and changes nothing |
| Caixa.Store.ChangeStatus | caixa/views.py:386-416 | the store and answer are those of `ChangeStatusSpec`; the invariant holds |
| Caixa.Store.CreateCategory | caixa/views.py:876-912 | the store and answer are those of `CreateCategorySpec`; the invariant holds |
| Caixa.Store.EditCategory | caixa/views.py:954-1000 | the store and answer are those of `EditCategorySpec`; the invariant holds |
| Caixa.Store.DeleteCategory | caixa/views.py:916-951 | the store and answer are those of `DeleteCategorySpec`; the invariant holds |
| Caixa.Store.DeleteProduct | caixa/views.py:1087-1157 | the stepwise deletes give the store and answer of `DeleteProductSpec`; the invariant holds |
| Caixa.Store.KioskOrder | autoatendimento/views.py:20-55 | the store and answer are those of `KioskOrderSpec`; the invariant holds |
| Caixa.Store.KitchenUpdateStatus | cozinha/views.py:31-41 | the store and answer are those of `UpdateStatusSpec`; the invariant holds |
| CashierScreen.FindLine | static/js/caixa.js:4 | finds the first line of the product, or none exactly when no line has it |
| CashierScreen.AddKeepsValid | static/js/caixa.js:3-16 | adding keeps quantities positive and one line per product |
| CashierScreen.AddCounts | static/js/caixa.js:3-16 | adding gives that product one more unit and leaves every other product alone |
| CashierScreen.AddTotal | static/js/caixa.js:3-16 | adding raises the total by the price of the product's line, or the given price for a new one |
| CashierScreen.SpliceStart | static/js/caixa.js:22 | `splice`'s start: an index in range is kept, a negative one counts from the end and is clamped at 0, a larger one is clamped to the length |
| CashierScreen.RemovalKeepsValid | static/js/caixa.js:21-24 | removing a line keeps the cart valid |
| CashierScreen.RemoveKeepsValid | static/js/caixa.js:21-24 | `removerProduto` keeps the cart valid for any index |
| CashierScreen.RemoveWhich | static/js/caixa.js:21-24 | an index past the end removes nothing; otherwise exactly one line goes (counted from the end when negative) and units, total and quantities drop by that line's |
| CashierScreen.Changed | static/js/caixa.js:26-33 | a change goes through exactly when the index names a line; otherwise the script throws |
| CashierScreen.ChangeKeepsValid | static/js/caixa.js:26-33 | changing a quantity keeps quantities positive and one line per product |
| CashierScreen.ChangeUnits | static/js/caixa.js:26-33 | the units move by `delta`, or lose the whole line when it would reach 0 or less |
| CashierScreen.AddThenDecrement | static/js/caixa.js:3-33 | on a valid cart, the "-" button on the line just added gives back the cart |
| CashierScreen.CountAtMostUnits | static/js/caixa.js:83 | the count shown is the number of lines, which never exceeds the units |
| CashierScreen.Submission | static/js/caixa.js:149-176 | a body is sent exactly when the cart is not empty, the trimmed name is not empty and a payment is selected; it has one item per line and the trimmed name |
| CashierScreen.ItemRequests | static/js/caixa.js:175 | each line is sent as a plain item of its product and quantity |
| CashierScreen.SubmissionShape | static/js/caixa.js:170-176 | a valid cart sends each product once with a positive quantity, so the server's empty-list refusal never applies |
| CashierScreen.TrimsDisagree | static/js/caixa.js:155 | the name "\u001C" passes the page's check and is refused by the server as blank |
| CashierScreen.Split | static/js/caixa.js:234 | `split(';')` gives at least one part and no part holds ';' |
| CashierScreen.JoinSplit | static/js/caixa.js:234 | splitting and joining gives back the cookie string |
| CashierScreen.SplitJoin | static/js/caixa.js:234 | joining parts without ';' and splitting gives back the parts |
| CashierScreen.SplitPlain | static/js/caixa.js:234 | a string without ';' is one part |
| CashierScreen.SplitPlainThen | static/js/caixa.js:234 | a part without ';' splits off in front of the rest |
| CashierScreen.CookieIn | static/js/caixa.js:235-240 | a value is found exactly when some trimmed part names the cookie |
| CashierScreen.GetCookie | static/js/caixa.js:231-244 | an empty cookie string gives `null`; otherwise the value of the first part naming the cookie |
| CashierScreen.CookieRoundTrip | static/js/caixa.js:231-244 | a cookie `name=value` after parts that do not name it is found with its value |
| CashierScreen.TrimKeeps | static/js/caixa.js:236 | a string with no white space at its edges is its own trim |
| CashierScreen.CookieInCons | static/js/caixa.js:235-240 | a first part that does not name the cookie is skipped |
| CashierScreen.CookieAfter | static/js/caixa.js:235-240 | parts that do not name the cookie are skipped |
| CashierScreen.LongerNameIgnored | static/js/caixa.js:237 | a cookie whose name only begins with the wanted one does not match |
| CashierScreen.TrimmedAt | static/js/caixa.js:236-237 | trimming a part whose name continues past the wanted one cannot make it match |
| CashierScreen.Cart.Add | static/js/caixa.js:3-16 | the cart becomes the added cart and stays valid |
| CashierScreen.Cart.Remove | static/js/caixa.js:21-24 | the cart becomes the spliced cart and stays valid |
| CashierScreen.Cart.ChangeQuantity | static/js/caixa.js:26-33 | reports whether the change went through, and the cart becomes the changed cart or stays |
| CashierScreen.Cart.Total | static/js/caixa.js:58-63 | the loop's total is the sum of `preco * quantidade` over the lines |
| CashierScreen.Cart.Finalize | static/js/caixa.js:147-215 | sends exactly the body `Submission` allows, and empties the cart only when it was sent and accepted |
| Catalog.Lower | caixa/views.py:97 | `lower()` keeps the length, lowers 'A'-'Z' and leaves every other character |
| Catalog.DessertBeatsDrink | caixa/views.py:101-104 | a category name containing 'sobremesa' puts the product with the desserts, even if it also contains 'bebida' |
| Catalog.NameLeRefl | caixa/views.py:109-112 | Python string order is reflexive |
| Catalog.NameLeTotal | caixa/views.py:109-112 | Python string order is total |
| Catalog.NameLeTrans | caixa/views.py:109-112 | Python string order is transitive |
| Catalog.NameLeAntisym | caixa/views.py:109-112 | Python string order is antisymmetric |
| Catalog.Insert | caixa/views.py:109-112 | inserting adds exactly one product |
| Catalog.SortByName | caixa/views.py:109-112 | the sort keeps the same products |
| Catalog.InsertSorted | caixa/views.py:109-112 | inserting into a sorted list keeps it sorted |
| Catalog.SortSorted | caixa/views.py:109-112 | the sort orders by name |
| Catalog.InsertStable | caixa/views.py:109-112 | inserting keeps the relative order of equally named products |
| Catalog.SortStable | caixa/views.py:109-112 | the sort is stable: equally named products keep their order |
| Catalog.BucketCount | caixa/views.py:96-106 | each product goes to its own group's list as often as it occurs, and to no other |
| Catalog.ArrangedPermutation | caixa/views.py:86-115 | the listing is a permutation of the products read |
| Catalog.PieceListed | caixa/views.py:109-112 | a sorted group list is in name order and every member has that group's rank |
| Catalog.ArrangedListed | caixa/views.py:86-115 | combos come first, then the others, the drinks and the desserts, each group in name order |
| Catalog.ArrangedStable | caixa/views.py:109-112 | within a group, equally named products keep the order in which the query returned them |
| Catalog.Dealt | caixa/views.py:96-106 | one step of the dealing loop appends the product to its group's list only |
| Catalog.Arrange | caixa/views.py:86-115 | the dealing loop, the four sorts and the concatenation give `Arranged` |

## Left out

- HTTP, JSON and sessions are not modelled. That covers request parsing, `login_required`, template rendering, cache headers and the `except Exception` envelopes; outcomes are result datatypes. A JSON key that is missing where the view indexes it (`item['produto_id']`, `slot_data['nome']`) is not modelled; absent optional fields are `Option` values or empty strings.
- Concurrency is not modelled: the order-number race and stock races. Every view runs alone.
- Floating point is not modelled: `parseFloat`, `toFixed`, `float(quantidade_abate)`. Prices are integer cents and debits integer thousandths, and `validar_estoque_disponivel` compares `stock * 1000` with the thousandths.
- The time statistics are not modelled: `tempo_medio_segundos`, `timezone.now`, the two-hour cutoff and the reports. `criado_em` ordering is taken as id ordering, since both grow with each insert.
- Fields that no rule reads are not modelled: emoji, `descricao`, `mesa`, `observacoes`, `cliente_telefone`, `operador`, `qr_code`, `tempo_preparo`, images, `Combo.ativo` and `Categoria.ativo` beyond its initial value. `numero_pedido`'s `max_length=10` is not modelled either; it could only bite past ten digits.
- `localStorage`, `fetch` and the DOM of the cashier script are not modelled. The server's reply is a parameter of `CashierScreen.Cart.Finalize`.
- The response texts are not modelled: message counts and the combo names listed in `excluir_produto`'s refusal. The refusals are named reasons.
- `ordenar_produtos_customizado` and `criar_categoria`: Python's `str.lower()` is modelled on ASCII only (`Catalog.Lower`); the category-name match is exact and case-sensitive, as the `nome=` lookups are.
- `SelfServiceSpec.KioskOrderSpec`: an unknown tenant, a number already taken and a missing product raise uncaught exceptions, modelled as one outcome `KioskCrashed`; the HTTP 500 page is not modelled.
- `ComboSpec.FindSlot`: slot ids are unique in the database; the model takes the least owning combo so the lookup stays a function.
- The GET branch of `configurar_combo`, `buscar_pedido`, `listar_produtos` and the other read-only views are not modelled; only the filters named above are.
- `CashierScreen.GetCookie`: `decodeURIComponent` is taken as the identity, so percent-encoded values are compared undecoded.
- `CashierScreen.Cart.Add`: a line keeps the price it was first added with; `preco` strings that `parseFloat` would misread are not modelled.
- `OrderSpec.DeleteOrderResult`: states the exact stock credit only when every recorded debit is a whole number of units. Otherwise the IntegerField keeps the integer part of the decimal sum; `CreditChoice` models that, but no lemma states the general amount.
- `AdminSpec.DeleteProductSpec`: the refusal reasons are checked in the view's order; the cascade on a deleted product's items does not recompute order totals, exactly as the database does not.
