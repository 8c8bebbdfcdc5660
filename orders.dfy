/** What the cashier's order views (`criar_pedido`, `editar_pedido`,
    `excluir_pedido`) do to the store, as functions from the store before the
    request to the store after it and the response. Items are processed left
    to right, exactly as the views loop over them; a failure part-way keeps
    whatever the view had already written, as it does without a transaction. */
module OrderSpec {
  import opened Common
  import opened Numbering
  import opened Models

  // ---------- requests and responses ----------

  /** One entry of `escolhas`: `quantidade_abate` in thousandths. */
  datatype ChoiceRequest = ChoiceRequest(slot: SlotId, product: ProductId, debit: int)

  /** One entry of `itens`. */
  datatype ItemRequest = ItemRequest(product: ProductId, quantity: int, isCombo: bool, choices: seq<ChoiceRequest>)

  /** The JSON body of `criar_pedido` and `editar_pedido`; absent text fields
      are empty strings, an absent `tipo` is `None`. */
  datatype OrderRequest = OrderRequest(kind: Option<string>, customer: string, payment: string, items: seq<ItemRequest>)

  datatype Reason =
    | NoItems | NoCustomer | NoPayment | NoOrderId | OrderNotFound
    | ProductNotFound | ComboItemNotFound | IntegrityError

  datatype CreateOutcome = Created(id: OrderId, number: string) | CreateFailed(reason: Reason)
  datatype EditOutcome = Edited(id: OrderId, number: string) | EditFailed(reason: Reason)
  /** `units` is the `total_itens` the message reports. */
  datatype DeleteOutcome = Deleted(number: string, units: int) | DeleteFailed(reason: Reason)

  // ---------- creating items and debiting stock ----------

  /** How a loop over items or choices ended: ran to the end, stopped on a
      missing row (`DoesNotExist`), or stopped on a database integrity error. */
  datatype Halt = Running | Missing(what: Reason) | Crashed

  /** Where the creation loop stands: the products table, the items written so
      far and the running `total`. */
  datatype Progress = Progress(products: map<ProductId, Product>, items: seq<Item>, total: int)

  function Debit(products: map<ProductId, Product>, pid: ProductId, n: int): map<ProductId, Product>
    requires pid in products
  {
    products[pid := products[pid].(stock := products[pid].stock - n)]
  }

  /** `ComboSlot.objects.get(id=...)` finds a row. */
  predicate SlotExists(combos: map<ProductId, seq<Slot>>, id: SlotId) {
    exists p, k :: p in combos && 0 <= k < |combos[p]| && combos[p][k].id == id
  }

  predicate HasChoiceFor(it: Item, slot: SlotId) {
    exists k :: 0 <= k < |it.choices| && it.choices[k].slot == slot
  }

  /** An item whose own product is debited: not a combo, or a combo sent without choices. */
  predicate PlainDebit(r: ItemRequest) {
    !(r.isCombo && r.choices != [])
  }

  /** The loop over `escolhas` of one combo item of quantity `q`. */
  function ApplyChoices(products: map<ProductId, Product>, combos: map<ProductId, seq<Slot>>, q: int,
                        it: Item, cs: seq<ChoiceRequest>): (r: (map<ProductId, Product>, Item, Halt))
    ensures r.2.Missing? ==> r.2.what == ComboItemNotFound
    decreases |cs|
  {
    if cs == [] then (products, it, Running)
    else
      var c := cs[0];
      if !SlotExists(combos, c.slot) || c.product !in products then (products, it, Missing(ComboItemNotFound))
      else if HasChoiceFor(it, c.slot) then (products, it, Crashed)
      else
        ApplyChoices(Debit(products, c.product, IntPart(c.debit) * q), combos, q,
                     it.(choices := it.choices + [Choice(c.slot, c.product, c.debit)]), cs[1..])
  }

  /** One iteration of the loop over `itens`. */
  function ApplyItem(p: Progress, combos: map<ProductId, seq<Slot>>, r: ItemRequest): (res: (Progress, Halt))
    ensures res.1.Missing? ==> res.1.what in {ProductNotFound, ComboItemNotFound}
  {
    if r.product !in p.products then (p, Missing(ProductNotFound))
    else
      var it := SaveItem(r.product, r.quantity, p.products[r.product].price);
      var total := p.total + it.subtotal;
      if PlainDebit(r) then
        (Progress(Debit(p.products, r.product, r.quantity), p.items + [it], total), Running)
      else
        var (ps, it', h) := ApplyChoices(p.products, combos, r.quantity, it, r.choices);
        (Progress(ps, p.items + [it'], total), h)
  }

  function ApplyItems(p: Progress, combos: map<ProductId, seq<Slot>>, reqs: seq<ItemRequest>): (res: (Progress, Halt))
    ensures res.1.Missing? ==> res.1.what in {ProductNotFound, ComboItemNotFound}
    decreases |reqs|
  {
    if reqs == [] then (p, Running)
    else
      var (p1, h) := ApplyItem(p, combos, reqs[0]);
      if h != Running then (p1, h) else ApplyItems(p1, combos, reqs[1..])
  }

  // ---------- criar_pedido ----------

  function CreateOrderSpec(db: Db, tenant: TenantId, req: OrderRequest): (r: (Db, CreateOutcome))
    ensures r.1 == CreateFailed(NoItems) <==> req.items == []
    ensures req.items == [] ==> r == (db, CreateFailed(NoItems))
    ensures req.items != [] && Blank(PythonStr, req.customer) ==> r == (db, CreateFailed(NoCustomer))
    ensures req.items != [] && !Blank(PythonStr, req.customer) && Blank(PythonStr, req.payment)
            ==> r == (db, CreateFailed(NoPayment))
    ensures r.1.Created? ==> !Blank(PythonStr, req.customer) && !Blank(PythonStr, req.payment)
    ensures r.1.Created? ==> |r.0.orders| == |db.orders| + 1 && r.0.orders[..|db.orders|] == db.orders
    ensures r.0.combos == db.combos && r.0.categories == db.categories
  {
    if req.items == [] then (db, CreateFailed(NoItems))
    else if Trim(PythonStr, req.customer) == "" then (db, CreateFailed(NoCustomer))
    else if Trim(PythonStr, req.payment) == "" then (db, CreateFailed(NoPayment))
    else
      var number := SaveNumber(db.orders, tenant, "");
      if NumberTaken(db.orders, number) then (db, CreateFailed(IntegrityError))
      else
        Conclude(db, tenant, req, number, ApplyItems(Progress(db.products, [], 0), db.combos, req.items))
  }

  /** The end of `criar_pedido` once the item loop has stopped: on success the
      total is saved; a missing row deletes the order (the debits stay); an
      integrity error leaves the order with its default total 0. */
  function Conclude(db: Db, tenant: TenantId, req: OrderRequest, number: string, run: (Progress, Halt)): (r: (Db, CreateOutcome))
    ensures r.0.combos == db.combos && r.0.categories == db.categories
    ensures r.1.Created? <==> run.1 == Running
    ensures r.0.orders == db.orders || (|r.0.orders| == |db.orders| + 1 && r.0.orders[..|db.orders|] == db.orders)
  {
    var (p, h) := run;
    var order := Order(db.nextOrderId, tenant, number, req.kind.GetOr("balcao"), Pendente,
                       Trim(PythonStr, req.customer), Trim(PythonStr, req.payment),
                       p.items, if h == Running then p.total else 0);
    var db' := db.(products := p.products, nextOrderId := db.nextOrderId + 1);
    match h
    case Running => (db'.(orders := db.orders + [order]), Created(order.id, number))
    case Missing(what) => (db', CreateFailed(what))
    case Crashed => (db'.(orders := db.orders + [order]), CreateFailed(IntegrityError))
  }

  // ---------- editar_pedido ----------

  /** `Pedido.objects.get(id=..., empresa=...)`: where the tenant's order with that id is. */
  function FindOrder(orders: seq<Order>, id: OrderId, tenant: TenantId): (r: Option<nat>)
    ensures r.Some? ==> r.value < |orders| && orders[r.value].id == id && orders[r.value].tenant == tenant
    ensures r.None? ==> forall i :: 0 <= i < |orders| ==> !(orders[i].id == id && orders[i].tenant == tenant)
  {
    if orders == [] then None
    else if orders[0].id == id && orders[0].tenant == tenant then Some(0)
    else
      match FindOrder(orders[1..], id, tenant)
      case Some(i) => Some(i + 1)
      case None => None
  }

  /** The item loop of `editar_pedido` and of the self-service view: one item
      per request at the product's current price, no choices, no stock change;
      it stops at the first missing product. */
  function BuildItems(products: map<ProductId, Product>, acc: seq<Item>, reqs: seq<ItemRequest>): (r: (seq<Item>, bool))
    decreases |reqs|
  {
    if reqs == [] then (acc, true)
    else if reqs[0].product !in products then (acc, false)
    else BuildItems(products, acc + [SaveItem(reqs[0].product, reqs[0].quantity, products[reqs[0].product].price)], reqs[1..])
  }

  function EditOrderSpec(db: Db, tenant: TenantId, orderId: Option<OrderId>, req: OrderRequest): (r: (Db, EditOutcome))
    ensures r.0 == db.(orders := r.0.orders)
    ensures r.0.products == db.products
    ensures r.0.combos == db.combos && r.0.categories == db.categories && r.0.nextOrderId == db.nextOrderId
    ensures |r.0.orders| == |db.orders|
    ensures r.1 == EditFailed(NoItems) <==> req.items == []
    ensures req.items == [] ==> r == (db, EditFailed(NoItems))
    ensures req.items != [] && Blank(PythonStr, req.customer) ==> r == (db, EditFailed(NoCustomer))
    ensures req.items != [] && !Blank(PythonStr, req.customer) && Blank(PythonStr, req.payment)
            ==> r == (db, EditFailed(NoPayment))
  {
    if req.items == [] then (db, EditFailed(NoItems))
    else if Trim(PythonStr, req.customer) == "" then (db, EditFailed(NoCustomer))
    else if Trim(PythonStr, req.payment) == "" then (db, EditFailed(NoPayment))
    else if orderId.None? then (db, EditFailed(OrderNotFound))
    else
      match FindOrder(db.orders, orderId.value, tenant)
      case None => (db, EditFailed(OrderNotFound))
      case Some(i) => EditAt(db, i, req)
  }

  /** `editar_pedido` once the order at index `i` is found: its items are
      deleted and rebuilt, and only a loop that reaches the end saves the
      header fields and the total. */
  function EditAt(db: Db, i: nat, req: OrderRequest): (r: (Db, EditOutcome))
    requires i < |db.orders|
    ensures r.0.products == db.products
    ensures r.0.combos == db.combos && r.0.categories == db.categories && r.0.nextOrderId == db.nextOrderId
    ensures |r.0.orders| == |db.orders|
    ensures r.1.Edited? || r.1 == EditFailed(ProductNotFound)
    ensures r.0 == db.(orders := r.0.orders)
  {
    var o := db.orders[i];
    var built := BuildItems(db.products, [], req.items);
    if built.1 then
      var o' := o.(customer := Trim(PythonStr, req.customer), kind := req.kind.GetOr("balcao"),
                   payment := Trim(PythonStr, req.payment), items := built.0,
                   total := SumSubtotals(built.0), number := SaveNumber(db.orders, o.tenant, o.number));
      (db.(orders := db.orders[i := o']), Edited(o.id, o'.number))
    else
      (db.(orders := db.orders[i := o.(items := built.0)]), EditFailed(ProductNotFound))
  }

  // ---------- excluir_pedido ----------

  function Credit(products: map<ProductId, Product>, pid: ProductId, n: int): map<ProductId, Product>
    requires pid in products
  {
    products[pid := products[pid].(stock := products[pid].stock + n)]
  }

  /** The first loop of `excluir_pedido`: each item gives back its quantity. */
  function CreditItems(products: map<ProductId, Product>, items: seq<Item>): map<ProductId, Product>
    decreases |items|
  {
    if items == [] then products
    else
      var it := items[0];
      CreditItems(if it.product in products then Credit(products, it.product, it.quantity) else products, items[1..])
  }

  /** The order's combo choices, item by item. */
  function AllChoices(items: seq<Item>): seq<Choice> {
    if items == [] then [] else items[0].choices + AllChoices(items[1..])
  }

  /** The integer stock plus the Decimal `quantidade_abatida`, stored back
      into an IntegerField, which keeps the integer part. */
  function CreditChoice(stock: int, debit: int): int {
    IntPart(stock * 1000 + debit)
  }

  /** The second loop of `excluir_pedido`, over the order's combo choices. */
  function CreditChoices(products: map<ProductId, Product>, cs: seq<Choice>): map<ProductId, Product>
    decreases |cs|
  {
    if cs == [] then products
    else
      var c := cs[0];
      CreditChoices(
        if c.product in products
        then products[c.product := products[c.product].(stock := CreditChoice(products[c.product].stock, c.debit))]
        else products,
        cs[1..])
  }

  function DeleteOrderSpec(db: Db, tenant: TenantId, orderId: Option<OrderId>): (r: (Db, DeleteOutcome))
    ensures r.1.DeleteFailed? ==> r.0 == db
    ensures r.1.Deleted? ==> |r.0.orders| == |db.orders| - 1
    ensures r.0.combos == db.combos && r.0.categories == db.categories && r.0.nextOrderId == db.nextOrderId
    ensures r.0.products.Keys == db.products.Keys
  {
    if orderId.None? then (db, DeleteFailed(NoOrderId))
    else
      match FindOrder(db.orders, orderId.value, tenant)
      case None => (db, DeleteFailed(OrderNotFound))
      case Some(i) => DeleteAt(db, i)
  }

  /** `excluir_pedido` once the order at index `i` is found: the two credit
      loops, then the order and its items and choices are deleted. */
  function DeleteAt(db: Db, i: nat): (r: (Db, DeleteOutcome))
    requires i < |db.orders|
    ensures r.0 == db.(products := r.0.products, orders := db.orders[..i] + db.orders[i + 1..])
    ensures r.0.products.Keys == db.products.Keys
    ensures r.1 == Deleted(db.orders[i].number, SumQuantities(db.orders[i].items))
  {
    var o := db.orders[i];
    var ps := CreditChoices(CreditItems(db.products, o.items), AllChoices(o.items));
    CreditKeys(db.products, o.items);
    CreditChoicesKeys(CreditItems(db.products, o.items), AllChoices(o.items));
    (db.(products := ps, orders := db.orders[..i] + db.orders[i + 1..]), Deleted(o.number, SumQuantities(o.items)))
  }

  /** Once the order is found, a delete is `DeleteAt` it. */
  lemma DeleteFound(db: Db, tenant: TenantId, orderId: Option<OrderId>) returns (i: nat)
    requires orderId.Some? && FindOrder(db.orders, orderId.value, tenant).Some?
    ensures i == FindOrder(db.orders, orderId.value, tenant).value && i < |db.orders|
    ensures DeleteOrderSpec(db, tenant, orderId) == DeleteAt(db, i)
  {
    i := FindOrder(db.orders, orderId.value, tenant).value;
  }

  lemma {:induction false} CreditKeys(products: map<ProductId, Product>, items: seq<Item>)
    ensures CreditItems(products, items).Keys == products.Keys
    decreases |items|
  {
    if items != [] {
      var it := items[0];
      CreditKeys(if it.product in products then Credit(products, it.product, it.quantity) else products, items[1..]);
    }
  }

  lemma {:induction false} CreditChoicesKeys(products: map<ProductId, Product>, cs: seq<Choice>)
    ensures CreditChoices(products, cs).Keys == products.Keys
    decreases |cs|
  {
    if cs != [] {
      var c := cs[0];
      CreditChoicesKeys(
        if c.product in products
        then products[c.product := products[c.product].(stock := CreditChoice(products[c.product].stock, c.debit))]
        else products,
        cs[1..]);
    }
  }

  // ---------- what creation does, stated independently of the loop ----------

  /** Units of `pid` the choices of one combo item of quantity `q` debit. */
  function ChoiceUnits(cs: seq<ChoiceRequest>, q: int, pid: ProductId): int
    decreases |cs|
  {
    if cs == [] then 0
    else (if cs[0].product == pid then IntPart(cs[0].debit) * q else 0) + ChoiceUnits(cs[1..], q, pid)
  }

  /** Units of `pid` one requested item debits. */
  function ItemUnits(r: ItemRequest, pid: ProductId): int {
    if PlainDebit(r) then (if r.product == pid then r.quantity else 0)
    else ChoiceUnits(r.choices, r.quantity, pid)
  }

  function UnitsDebited(reqs: seq<ItemRequest>, pid: ProductId): int
    decreases |reqs|
  {
    if reqs == [] then 0 else ItemUnits(reqs[0], pid) + UnitsDebited(reqs[1..], pid)
  }

  /** The products table with every stock lowered by what `reqs` debit. */
  function Debited(products: map<ProductId, Product>, reqs: seq<ItemRequest>): map<ProductId, Product> {
    map pid | pid in products :: products[pid].(stock := products[pid].stock - UnitsDebited(reqs, pid))
  }

  /** Sum of `quantidade * preco` over the requested items, at the given prices. */
  function PriceSum(products: map<ProductId, Product>, reqs: seq<ItemRequest>): int
    decreases |reqs|
  {
    if reqs == [] then 0
    else (if reqs[0].product in products then reqs[0].quantity * products[reqs[0].product].price else 0)
         + PriceSum(products, reqs[1..])
  }

  /** The choices recorded for a list of `escolhas`. */
  function Recorded(cs: seq<ChoiceRequest>): seq<Choice>
    decreases |cs|
  {
    if cs == [] then [] else [Choice(cs[0].slot, cs[0].product, cs[0].debit)] + Recorded(cs[1..])
  }

  /** Every chosen slot and product can be found and no slot repeats. */
  predicate ChoicesResolvable(products: map<ProductId, Product>, combos: map<ProductId, seq<Slot>>, cs: seq<ChoiceRequest>) {
    && (forall m :: 0 <= m < |cs| ==> SlotExists(combos, cs[m].slot) && cs[m].product in products)
    && (forall m, n :: 0 <= m < n < |cs| ==> cs[m].slot != cs[n].slot)
  }

  predicate ItemResolvable(products: map<ProductId, Product>, combos: map<ProductId, seq<Slot>>, r: ItemRequest) {
    r.product in products && (!PlainDebit(r) ==> ChoicesResolvable(products, combos, r.choices))
  }

  /** Every requested product and every chosen slot and product can be found,
      and no item names a slot twice: the loops of `criar_pedido` run to the end. */
  predicate Resolvable(products: map<ProductId, Product>, combos: map<ProductId, seq<Slot>>, reqs: seq<ItemRequest>) {
    forall k :: 0 <= k < |reqs| ==> ItemResolvable(products, combos, reqs[k])
  }

  lemma {:induction false} RecordedAt(cs: seq<ChoiceRequest>)
    ensures |Recorded(cs)| == |cs|
    ensures forall k :: 0 <= k < |cs| ==> Recorded(cs)[k] == Choice(cs[k].slot, cs[k].product, cs[k].debit)
    decreases |cs|
  {
    if cs != [] {
      RecordedAt(cs[1..]);
      assert forall k :: 1 <= k < |cs| ==> cs[k] == cs[1..][k - 1];
    }
  }

  /** The loop over `escolhas`, when every slot and product is found and no
      slot repeats: it records each choice and lowers each chosen product's
      stock by `int(quantidade_abate) * quantidade`. */
  lemma {:induction false} ApplyChoicesEffect(products: map<ProductId, Product>, combos: map<ProductId, seq<Slot>>, q: int,
                                              it: Item, cs: seq<ChoiceRequest>)
    requires ChoicesResolvable(products, combos, cs)
    requires forall m :: 0 <= m < |cs| ==> !HasChoiceFor(it, cs[m].slot)
    ensures ApplyChoices(products, combos, q, it, cs).2 == Running
    ensures ApplyChoices(products, combos, q, it, cs).1 == it.(choices := it.choices + Recorded(cs))
    ensures ApplyChoices(products, combos, q, it, cs).0.Keys == products.Keys
    ensures forall pid :: pid in products ==>
              ApplyChoices(products, combos, q, it, cs).0[pid]
              == products[pid].(stock := products[pid].stock - ChoiceUnits(cs, q, pid))
    decreases |cs|
  {
    if cs != [] {
      var c := cs[0];
      assert !HasChoiceFor(it, c.slot);
      var ps1 := Debit(products, c.product, IntPart(c.debit) * q);
      var it1 := it.(choices := it.choices + [Choice(c.slot, c.product, c.debit)]);
      forall m | 0 <= m < |cs[1..]| ensures !HasChoiceFor(it1, cs[1..][m].slot) {
        assert cs[1..][m] == cs[m + 1];
        assert cs[0].slot != cs[m + 1].slot;
        assert !HasChoiceFor(it, cs[m + 1].slot);
        forall k | 0 <= k < |it1.choices| ensures it1.choices[k].slot != cs[m + 1].slot {
          if k < |it.choices| {
            assert it1.choices[k] == it.choices[k];
          }
        }
      }
      ApplyChoicesEffect(ps1, combos, q, it1, cs[1..]);
      assert it.choices + Recorded(cs) == it1.choices + Recorded(cs[1..]);
    }
  }

  /** The item the creation loop writes for a request, at the given prices. */
  function CreatedItem(products: map<ProductId, Product>, r: ItemRequest): Item {
    var price := if r.product in products then products[r.product].price else 0;
    SaveItem(r.product, r.quantity, price).(choices := if PlainDebit(r) then [] else Recorded(r.choices))
  }

  /** The items `criar_pedido` writes for requests that all resolve. */
  function CreatedItems(products: map<ProductId, Product>, reqs: seq<ItemRequest>): seq<Item>
    decreases |reqs|
  {
    if reqs == [] then [] else [CreatedItem(products, reqs[0])] + CreatedItems(products, reqs[1..])
  }

  /** Debiting stock leaves names, prices and the set of products alone. */
  predicate SamePrices(a: map<ProductId, Product>, b: map<ProductId, Product>) {
    a.Keys == b.Keys && forall pid :: pid in a ==> a[pid].price == b[pid].price
  }

  lemma DebitedTwice(products: map<ProductId, Product>, r: ItemRequest, rest: seq<ItemRequest>)
    ensures Debited(Debited(products, [r]), rest) == Debited(products, [r] + rest)
  {
    assert ([r] + rest)[1..] == rest;
    assert [r][1..] == [];
    forall pid | pid in products
      ensures UnitsDebited([r] + rest, pid) == UnitsDebited([r], pid) + UnitsDebited(rest, pid)
    {
    }
  }

  lemma {:induction false} PriceSumSamePrices(a: map<ProductId, Product>, b: map<ProductId, Product>, reqs: seq<ItemRequest>)
    requires SamePrices(a, b)
    ensures PriceSum(a, reqs) == PriceSum(b, reqs)
    decreases |reqs|
  {
    if reqs != [] {
      PriceSumSamePrices(a, b, reqs[1..]);
    }
  }

  lemma {:induction false} CreatedItemsSamePrices(a: map<ProductId, Product>, b: map<ProductId, Product>, reqs: seq<ItemRequest>)
    requires SamePrices(a, b)
    requires forall k :: 0 <= k < |reqs| ==> reqs[k].product in a
    ensures CreatedItems(a, reqs) == CreatedItems(b, reqs)
    decreases |reqs|
  {
    if reqs != [] {
      CreatedItemsSamePrices(a, b, reqs[1..]);
    }
  }

  lemma {:induction false} SumSubtotalsAppend(a: seq<Item>, b: seq<Item>)
    ensures SumSubtotals(a + b) == SumSubtotals(a) + SumSubtotals(b)
    decreases |b|
  {
    if b == [] {
      assert a + b == a;
    } else {
      var ab := a + b;
      assert ab[..|ab| - 1] == a + b[..|b| - 1];
      assert ab[|ab| - 1] == b[|b| - 1];
      SumSubtotalsAppend(a, b[..|b| - 1]);
    }
  }

  /** The subtotals of the created items add up to the price sum. */
  lemma {:induction false} CreatedItemsTotal(products: map<ProductId, Product>, reqs: seq<ItemRequest>)
    requires forall k :: 0 <= k < |reqs| ==> reqs[k].product in products
    ensures SumSubtotals(CreatedItems(products, reqs)) == PriceSum(products, reqs)
    ensures |CreatedItems(products, reqs)| == |reqs|
    decreases |reqs|
  {
    if reqs != [] {
      CreatedItemsTotal(products, reqs[1..]);
      SumSubtotalsAppend([CreatedItem(products, reqs[0])], CreatedItems(products, reqs[1..]));
      assert SumSubtotals([CreatedItem(products, reqs[0])]) == CreatedItem(products, reqs[0]).subtotal by {
        assert [CreatedItem(products, reqs[0])][..0] == [];
      }
    }
  }

  /** One resolvable request: one item written, its subtotal added, its debits applied. */
  lemma ApplyItemEffect(p: Progress, combos: map<ProductId, seq<Slot>>, r: ItemRequest)
    requires Resolvable(p.products, combos, [r])
    ensures ApplyItem(p, combos, r).1 == Running
    ensures ApplyItem(p, combos, r).0
            == Progress(Debited(p.products, [r]), p.items + [CreatedItem(p.products, r)],
                        p.total + r.quantity * p.products[r.product].price)
  {
    assert [r][0] == r;
    var it := SaveItem(r.product, r.quantity, p.products[r.product].price);
    if !PlainDebit(r) {
      ApplyChoicesEffect(p.products, combos, r.quantity, it, r.choices);
      assert it.choices + Recorded(r.choices) == Recorded(r.choices);
    }
    assert [r][1..] == [];
    assert forall pid :: UnitsDebited([r], pid) == ItemUnits(r, pid);
    var p1 := ApplyItem(p, combos, r).0;
    assert p1.products.Keys == Debited(p.products, [r]).Keys;
    forall pid | pid in p.products ensures p1.products[pid] == Debited(p.products, [r])[pid] {
    }
  }

  /** When every request resolves, the creation loop runs to the end, writes
      one item per request at the prices it started with, adds their
      subtotals to the total and lowers each product's stock by what the
      requests debit. */
  lemma {:induction false} ApplyItemsEffect(p: Progress, combos: map<ProductId, seq<Slot>>, reqs: seq<ItemRequest>)
    requires Resolvable(p.products, combos, reqs)
    ensures ApplyItems(p, combos, reqs).1 == Running
    ensures ApplyItems(p, combos, reqs).0
            == Progress(Debited(p.products, reqs), p.items + CreatedItems(p.products, reqs),
                        p.total + PriceSum(p.products, reqs))
    decreases |reqs|
  {
    if reqs == [] {
      assert Debited(p.products, reqs) == p.products;
    } else {
      var p1 := ApplyItemsFirst(p, combos, reqs);
      ApplyItemsEffect(p1, combos, reqs[1..]);
      ProgressAfterFirst(p, p1, reqs);
    }
  }

  /** The first iteration of the item loop, when its request resolves. */
  lemma ApplyItemsFirst(p: Progress, combos: map<ProductId, seq<Slot>>, reqs: seq<ItemRequest>) returns (p1: Progress)
    requires reqs != [] && Resolvable(p.products, combos, reqs)
    ensures ApplyItems(p, combos, reqs) == ApplyItems(p1, combos, reqs[1..])
    ensures p1 == Progress(Debited(p.products, [reqs[0]]), p.items + [CreatedItem(p.products, reqs[0])],
                           p.total + reqs[0].quantity * p.products[reqs[0].product].price)
    ensures Resolvable(p1.products, combos, reqs[1..])
  {
    var r := reqs[0];
    assert Resolvable(p.products, combos, [r]);
    ApplyItemEffect(p, combos, r);
    p1 := ApplyItem(p, combos, r).0;
    assert SamePrices(p.products, p1.products);
  }

  /** Debits, items and totals of the first request and of the rest add up. */
  lemma {:induction false} ProgressAfterFirst(p: Progress, p1: Progress, reqs: seq<ItemRequest>)
    requires reqs != [] && reqs[0].product in p.products
    requires forall k :: 1 <= k < |reqs| ==> reqs[k].product in p.products
    requires p1 == Progress(Debited(p.products, [reqs[0]]), p.items + [CreatedItem(p.products, reqs[0])],
                            p.total + reqs[0].quantity * p.products[reqs[0].product].price)
    ensures Progress(Debited(p1.products, reqs[1..]), p1.items + CreatedItems(p1.products, reqs[1..]),
                     p1.total + PriceSum(p1.products, reqs[1..]))
            == Progress(Debited(p.products, reqs), p.items + CreatedItems(p.products, reqs),
                        p.total + PriceSum(p.products, reqs))
  {
    FirstDebits(p.products, reqs);
    FirstTotal(p.products, reqs);
    FirstItems(p.products, p.items, reqs);
  }

  lemma {:induction false} FirstDebits(products: map<ProductId, Product>, reqs: seq<ItemRequest>)
    requires reqs != []
    ensures Debited(Debited(products, [reqs[0]]), reqs[1..]) == Debited(products, reqs)
  {
    assert [reqs[0]] + reqs[1..] == reqs;
    DebitedTwice(products, reqs[0], reqs[1..]);
  }

  lemma {:induction false} FirstTotal(products: map<ProductId, Product>, reqs: seq<ItemRequest>)
    requires reqs != [] && reqs[0].product in products
    ensures reqs[0].quantity * products[reqs[0].product].price + PriceSum(Debited(products, [reqs[0]]), reqs[1..])
            == PriceSum(products, reqs)
  {
    DebitedSamePrices(products, [reqs[0]]);
    PriceSumSamePrices(products, Debited(products, [reqs[0]]), reqs[1..]);
  }

  lemma {:induction false} FirstItems(products: map<ProductId, Product>, items: seq<Item>, reqs: seq<ItemRequest>)
    requires reqs != []
    requires forall k :: 1 <= k < |reqs| ==> reqs[k].product in products
    ensures items + [CreatedItem(products, reqs[0])] + CreatedItems(Debited(products, [reqs[0]]), reqs[1..])
            == items + CreatedItems(products, reqs)
  {
    var rest := reqs[1..];
    DebitedSamePrices(products, [reqs[0]]);
    assert forall k :: 0 <= k < |rest| ==> rest[k].product in products;
    CreatedItemsSamePrices(Debited(products, [reqs[0]]), products, rest);
  }

  lemma {:induction false} DebitedSamePrices(products: map<ProductId, Product>, reqs: seq<ItemRequest>)
    ensures SamePrices(products, Debited(products, reqs))
  {
  }

  /** The converse: a loop over `escolhas` that runs to the end found every
      slot and product, met no slot twice and no slot already chosen. */
  lemma {:induction false} ApplyChoicesRunning(products: map<ProductId, Product>, combos: map<ProductId, seq<Slot>>, q: int,
                                               it: Item, cs: seq<ChoiceRequest>)
    requires ApplyChoices(products, combos, q, it, cs).2 == Running
    ensures ChoicesResolvable(products, combos, cs)
    ensures forall m :: 0 <= m < |cs| ==> !HasChoiceFor(it, cs[m].slot)
    decreases |cs|
  {
    if cs != [] {
      var c := cs[0];
      var ps1 := Debit(products, c.product, IntPart(c.debit) * q);
      var it1 := it.(choices := it.choices + [Choice(c.slot, c.product, c.debit)]);
      ApplyChoicesRunning(ps1, combos, q, it1, cs[1..]);
      assert forall m :: 1 <= m < |cs| ==> cs[m] == cs[1..][m - 1];
      forall m | 1 <= m < |cs| ensures cs[m].slot != c.slot && !HasChoiceFor(it, cs[m].slot) {
        assert !HasChoiceFor(it1, cs[1..][m - 1].slot);
        assert it1.choices[|it.choices|].slot == c.slot;
        assert forall k :: 0 <= k < |it.choices| ==> it1.choices[k] == it.choices[k];
      }
    }
  }

  /** A creation loop that runs to the end found everything it looked up. */
  lemma {:induction false} ApplyItemsRunning(p: Progress, combos: map<ProductId, seq<Slot>>, reqs: seq<ItemRequest>)
    requires ApplyItems(p, combos, reqs).1 == Running
    ensures Resolvable(p.products, combos, reqs)
    decreases |reqs|
  {
    if reqs != [] {
      var r := reqs[0];
      var (p1, h) := ApplyItem(p, combos, r);
      assert r.product in p.products;
      if !PlainDebit(r) {
        var it := SaveItem(r.product, r.quantity, p.products[r.product].price);
        ApplyChoicesRunning(p.products, combos, r.quantity, it, r.choices);
        ApplyChoicesEffect(p.products, combos, r.quantity, it, r.choices);
      } else {
        assert p1.products.Keys == p.products.Keys;
      }
      ApplyItemsRunning(p1, combos, reqs[1..]);
      forall k | 1 <= k < |reqs| ensures reqs[k] == reqs[1..][k - 1] { }
    }
  }

  /** Running the loop over `pre + rest` is running it over `pre`, then, if
      that did not stop, over `rest`. */
  lemma {:induction false} ApplyItemsConcat(p: Progress, combos: map<ProductId, seq<Slot>>,
                                            pre: seq<ItemRequest>, rest: seq<ItemRequest>)
    ensures ApplyItems(p, combos, pre + rest) ==
            (var (p1, h) := ApplyItems(p, combos, pre);
             if h == Running then ApplyItems(p1, combos, rest) else (p1, h))
    decreases |pre|
  {
    if pre == [] {
      assert pre + rest == rest;
    } else {
      assert (pre + rest)[0] == pre[0];
      assert (pre + rest)[1..] == pre[1..] + rest;
      var (p1, h) := ApplyItem(p, combos, pre[0]);
      if h == Running {
        ApplyItemsConcat(p1, combos, pre[1..], rest);
      }
    }
  }

  predicate ItemsWellFormed(items: seq<Item>) {
    forall k :: 0 <= k < |items| ==> ItemWellFormed(items[k])
  }

  lemma {:induction false} ApplyChoicesWellFormed(products: map<ProductId, Product>, combos: map<ProductId, seq<Slot>>, q: int,
                                                  it: Item, cs: seq<ChoiceRequest>)
    requires ItemWellFormed(it)
    ensures ItemWellFormed(ApplyChoices(products, combos, q, it, cs).1)
    ensures ApplyChoices(products, combos, q, it, cs).1.(choices := []) == it.(choices := [])
    ensures ApplyChoices(products, combos, q, it, cs).0.Keys == products.Keys
    decreases |cs|
  {
    if cs != [] {
      var c := cs[0];
      if SlotExists(combos, c.slot) && c.product in products && !HasChoiceFor(it, c.slot) {
        var it1 := it.(choices := it.choices + [Choice(c.slot, c.product, c.debit)]);
        assert ItemWellFormed(it1) by {
          forall i, j | 0 <= i < j < |it1.choices| ensures it1.choices[i].slot != it1.choices[j].slot {
            if j == |it.choices| {
              assert it1.choices[i] == it.choices[i];
            } else {
              assert it1.choices[i] == it.choices[i] && it1.choices[j] == it.choices[j];
            }
          }
        }
        ApplyChoicesWellFormed(Debit(products, c.product, IntPart(c.debit) * q), combos, q, it1, cs[1..]);
      }
    }
  }

  /** Whatever way the loop ends, the items it wrote obey the subtotal rule
      and hold at most one choice per slot. */
  lemma {:induction false} ApplyItemsWellFormed(p: Progress, combos: map<ProductId, seq<Slot>>, reqs: seq<ItemRequest>)
    requires ItemsWellFormed(p.items)
    ensures ItemsWellFormed(ApplyItems(p, combos, reqs).0.items)
    ensures ApplyItems(p, combos, reqs).0.products.Keys == p.products.Keys
    decreases |reqs|
  {
    if reqs != [] {
      var r := reqs[0];
      if r.product in p.products {
        var it := SaveItem(r.product, r.quantity, p.products[r.product].price);
        ApplyChoicesWellFormed(p.products, combos, r.quantity, it, r.choices);
        var (p1, h) := ApplyItem(p, combos, r);
        assert ItemsWellFormed(p1.items) by {
          assert forall k :: 0 <= k < |p.items| ==> p1.items[k] == p.items[k];
        }
        if h == Running {
          ApplyItemsWellFormed(p1, combos, reqs[1..]);
        }
      }
    }
  }

  // ---------- properties of criar_pedido ----------

  /** The order written when every item resolves: one item per request at the
      current price, total the sum of their subtotals, stocks debited. */
  function NewOrder(db: Db, tenant: TenantId, req: OrderRequest): Order {
    var items := CreatedItems(db.products, req.items);
    Order(db.nextOrderId, tenant, SaveNumber(db.orders, tenant, ""), req.kind.GetOr("balcao"), Pendente,
          Trim(PythonStr, req.customer), Trim(PythonStr, req.payment), items, SumSubtotals(items))
  }

  /** Past the checks and the number, creation is the item loop and its conclusion. */
  lemma CreateUnfold(db: Db, tenant: TenantId, req: OrderRequest)
    requires req.items != [] && !Blank(PythonStr, req.customer) && !Blank(PythonStr, req.payment)
    requires !NumberTaken(db.orders, SaveNumber(db.orders, tenant, ""))
    ensures CreateOrderSpec(db, tenant, req) ==
            Conclude(db, tenant, req, SaveNumber(db.orders, tenant, ""),
                     ApplyItems(Progress(db.products, [], 0), db.combos, req.items))
  {
  }

  /** Checks passed and everything resolves: the loop ends normally. */
  lemma CreateRuns(db: Db, tenant: TenantId, req: OrderRequest)
    requires req.items != [] && !Blank(PythonStr, req.customer) && !Blank(PythonStr, req.payment)
    requires !NumberTaken(db.orders, SaveNumber(db.orders, tenant, ""))
    requires Resolvable(db.products, db.combos, req.items)
    ensures ApplyItems(Progress(db.products, [], 0), db.combos, req.items) ==
            (Progress(Debited(db.products, req.items), CreatedItems(db.products, req.items),
                      SumSubtotals(CreatedItems(db.products, req.items))), Running)
  {
    var items := CreatedItems(db.products, req.items);
    ApplyItemsEffect(Progress(db.products, [], 0), db.combos, req.items);
    CreatedItemsTotal(db.products, req.items);
    assert [] + items == items;
  }

  /** The store right after `NewOrder` was created. */
  function AfterCreate(db: Db, tenant: TenantId, req: OrderRequest): Db {
    db.(products := Debited(db.products, req.items),
        orders := db.orders + [NewOrder(db, tenant, req)],
        nextOrderId := db.nextOrderId + 1)
  }

  /** An order is created exactly when the three checks pass, the new number
      is free, and every product, slot and chosen product is found with no
      slot chosen twice for one item. */
  lemma CreateOrderWhen(db: Db, tenant: TenantId, req: OrderRequest)
    ensures CreateOrderSpec(db, tenant, req).1.Created? <==>
            && req.items != [] && !Blank(PythonStr, req.customer) && !Blank(PythonStr, req.payment)
            && !NumberTaken(db.orders, SaveNumber(db.orders, tenant, ""))
            && Resolvable(db.products, db.combos, req.items)
  {
    if req.items != [] && !Blank(PythonStr, req.customer) && !Blank(PythonStr, req.payment)
       && !NumberTaken(db.orders, SaveNumber(db.orders, tenant, "")) {
      CreateUnfold(db, tenant, req);
      if CreateOrderSpec(db, tenant, req).1.Created? {
        ApplyItemsRunning(Progress(db.products, [], 0), db.combos, req.items);
      }
      if Resolvable(db.products, db.combos, req.items) {
        ApplyItemsEffect(Progress(db.products, [], 0), db.combos, req.items);
      }
    }
  }

  /** A created order: the store gains exactly that order, at the next id,
      every stock is lowered by what the items debit, and nothing else
      changes. */
  lemma CreateOrderResult(db: Db, tenant: TenantId, req: OrderRequest)
    requires CreateOrderSpec(db, tenant, req).1.Created?
    ensures CreateOrderSpec(db, tenant, req) == (AfterCreate(db, tenant, req), Created(db.nextOrderId, SaveNumber(db.orders, tenant, "")))
  {
    CreateOrderWhen(db, tenant, req);
    CreateUnfold(db, tenant, req);
    CreateRuns(db, tenant, req);
  }

  /** The created order's total is the sum of `quantidade * preco` at the
      prices of the moment. */
  lemma CreateTotal(db: Db, tenant: TenantId, req: OrderRequest)
    requires CreateOrderSpec(db, tenant, req).1.Created?
    ensures var orders := CreateOrderSpec(db, tenant, req).0.orders;
            orders[|orders| - 1].total == PriceSum(db.products, req.items)
            && orders[|orders| - 1].total == SumSubtotals(orders[|orders| - 1].items)
  {
    CreateOrderResult(db, tenant, req);
    var orders := AfterCreate(db, tenant, req).orders;
    assert orders[|orders| - 1] == NewOrder(db, tenant, req);
    CreatedFound(db, tenant, req);
    CreatedItemsTotal(db.products, req.items);
  }

  /** A created order found every requested product. */
  lemma CreatedFound(db: Db, tenant: TenantId, req: OrderRequest)
    requires CreateOrderSpec(db, tenant, req).1.Created?
    ensures forall k :: 0 <= k < |req.items| ==> req.items[k].product in db.products
  {
    CreateOrderWhen(db, tenant, req);
  }

  lemma {:induction false} ChoiceUnitsNotChosen(cs: seq<ChoiceRequest>, q: int, pid: ProductId)
    requires forall m :: 0 <= m < |cs| ==> cs[m].product != pid
    ensures ChoiceUnits(cs, q, pid) == 0
    decreases |cs|
  {
    if cs != [] {
      ChoiceUnitsNotChosen(cs[1..], q, pid);
    }
  }

  /** A combo item with choices takes nothing from the combo's own product
      (unless that product is itself one of the choices). */
  lemma ComboProductNotDebited(r: ItemRequest)
    requires r.isCombo && r.choices != []
    requires forall m :: 0 <= m < |r.choices| ==> r.choices[m].product != r.product
    ensures ItemUnits(r, r.product) == 0
  {
    ChoiceUnitsNotChosen(r.choices, r.quantity, r.product);
  }

  /** The loop stops at the first request whose product is missing, with
      the progress of the requests before it. */
  lemma ApplyItemsStopsAt(p: Progress, combos: map<ProductId, seq<Slot>>,
                          pre: seq<ItemRequest>, bad: ItemRequest, post: seq<ItemRequest>)
    requires Resolvable(p.products, combos, pre)
    requires bad.product !in p.products
    ensures ApplyItems(p, combos, pre + [bad] + post) == (ApplyItems(p, combos, pre).0, Missing(ProductNotFound))
  {
    assert pre + [bad] + post == pre + ([bad] + post);
    ApplyItemsConcat(p, combos, pre, [bad] + post);
    ApplyItemsEffect(p, combos, pre);
    assert ([bad] + post)[0] == bad;
  }

  /** A product missing part-way: the order is deleted, but the debits of
      the items before it stay applied. */
  lemma CreateMissingKeepsDebits(db: Db, tenant: TenantId, req: OrderRequest,
                                 pre: seq<ItemRequest>, bad: ItemRequest, post: seq<ItemRequest>)
    requires req.items == pre + [bad] + post
    requires !Blank(PythonStr, req.customer) && !Blank(PythonStr, req.payment)
    requires !NumberTaken(db.orders, SaveNumber(db.orders, tenant, ""))
    requires Resolvable(db.products, db.combos, pre)
    requires bad.product !in db.products
    ensures CreateOrderSpec(db, tenant, req) ==
            (db.(products := Debited(db.products, pre), nextOrderId := db.nextOrderId + 1),
             CreateFailed(ProductNotFound))
  {
    var start := Progress(db.products, [], 0);
    var run := ApplyItems(start, db.combos, req.items);
    CreateUnfold(db, tenant, req);
    ApplyItemsStopsAt(start, db.combos, pre, bad, post);
    ApplyItemsEffect(start, db.combos, pre);
    assert run.0.products == Debited(db.products, pre) && run.1 == Missing(ProductNotFound);
    ConcludeMissing(db, tenant, req, SaveNumber(db.orders, tenant, ""), run.0, ProductNotFound);
  }

  /** A loop stopped by a missing row: the order is deleted, the id is spent. */
  lemma ConcludeMissing(db: Db, tenant: TenantId, req: OrderRequest, number: string, p: Progress, what: Reason)
    ensures Conclude(db, tenant, req, number, (p, Missing(what))) ==
            (db.(products := p.products, nextOrderId := db.nextOrderId + 1), CreateFailed(what))
  {
  }

  /** A loop that ran to the end or hit an integrity error: the order stays,
      with its total only in the first case. */
  lemma ConcludeSaved(db: Db, tenant: TenantId, req: OrderRequest, number: string, p: Progress, h: Halt)
    requires !h.Missing?
    ensures Conclude(db, tenant, req, number, (p, h)) ==
            (db.(products := p.products,
                 orders := db.orders + [Order(db.nextOrderId, tenant, number, req.kind.GetOr("balcao"), Pendente,
                                              Trim(PythonStr, req.customer), Trim(PythonStr, req.payment),
                                              p.items, if h == Running then p.total else 0)],
                 nextOrderId := db.nextOrderId + 1),
             if h == Running then Created(db.nextOrderId, number) else CreateFailed(IntegrityError))
  {
  }

  /** The first order of a tenant is numbered "0001" whatever other tenants
      hold; since `numero_pedido` is unique across all tenants, a second
      tenant's first order fails once any tenant has an order "0001". */
  lemma CrossTenantFirstOrderRejected(db: Db, tenant: TenantId, req: OrderRequest, other: nat)
    requires req.items != [] && !Blank(PythonStr, req.customer) && !Blank(PythonStr, req.payment)
    requires forall i :: 0 <= i < |db.orders| ==> db.orders[i].tenant != tenant
    requires other < |db.orders| && db.orders[other].number == "0001"
    ensures CreateOrderSpec(db, tenant, req) == (db, CreateFailed(IntegrityError))
  {
    assert NatToString(1) == "1";
    assert Zeros(3) == "000" by {
      assert Zeros(1) == "0";
      assert Zeros(2) == "00";
    }
    assert SaveNumber(db.orders, tenant, "") == "0001";
  }

  /** The loop over one combo item whose two choices name the same slot. */
  lemma ApplyItemsDuplicateSlot(products: map<ProductId, Product>, combos: map<ProductId, seq<Slot>>,
                                combo: ProductId, q: int, c: ChoiceRequest)
    requires combo in products && c.product in products && SlotExists(combos, c.slot)
    ensures ApplyItems(Progress(products, [], 0), combos, [ItemRequest(combo, q, true, [c, c])]) ==
            (Progress(Debit(products, c.product, IntPart(c.debit) * q),
                      [SaveItem(combo, q, products[combo].price).(choices := [Choice(c.slot, c.product, c.debit)])],
                      q * products[combo].price),
             Crashed)
  {
    var it := SaveItem(combo, q, products[combo].price);
    var it1 := it.(choices := it.choices + [Choice(c.slot, c.product, c.debit)]);
    assert it.choices + [Choice(c.slot, c.product, c.debit)] == [Choice(c.slot, c.product, c.debit)];
    assert HasChoiceFor(it1, c.slot) by {
      assert it1.choices[0].slot == c.slot;
    }
    var ps1 := Debit(products, c.product, IntPart(c.debit) * q);
    assert [c, c][1..] == [c];
    assert ApplyChoices(ps1, combos, q, it1, [c]) == (ps1, it1, Crashed);
    assert ApplyChoices(products, combos, q, it, [c, c]) == (ps1, it1, Crashed);
    var r := ItemRequest(combo, q, true, [c, c]);
    assert ApplyItem(Progress(products, [], 0), combos, r) == (Progress(ps1, [] + [it1], 0 + it.subtotal), Crashed);
    assert [] + [it1] == [it1];
  }

  /** Two choices for the same slot in one item: the second violates the
      (item, slot) uniqueness, the error escapes the inner handler, and the
      order stays with the item and its first choice, total 0, the first
      debit applied. */
  lemma DuplicateSlotChoiceKeepsOrder(db: Db, tenant: TenantId, req: OrderRequest, combo: ProductId, q: int, c: ChoiceRequest)
    requires req.items == [ItemRequest(combo, q, true, [c, c])]
    requires !Blank(PythonStr, req.customer) && !Blank(PythonStr, req.payment)
    requires !NumberTaken(db.orders, SaveNumber(db.orders, tenant, ""))
    requires combo in db.products && c.product in db.products && SlotExists(db.combos, c.slot)
    ensures var (db', out) := CreateOrderSpec(db, tenant, req);
            && out == CreateFailed(IntegrityError)
            && |db'.orders| == |db.orders| + 1
            && db'.orders[|db.orders|].total == 0
            && db'.orders[|db.orders|].items ==
                 [SaveItem(combo, q, db.products[combo].price).(choices := [Choice(c.slot, c.product, c.debit)])]
            && db'.products == Debit(db.products, c.product, IntPart(c.debit) * q)
  {
    CreateUnfold(db, tenant, req);
    ApplyItemsDuplicateSlot(db.products, db.combos, combo, q, c);
  }

  /** Numbers run on per tenant: the created order carries the next number,
      and the one after it will be one higher. */
  lemma CreateNumbering(db: Db, tenant: TenantId, req: OrderRequest)
    requires CreateOrderSpec(db, tenant, req).1.Created?
    ensures var (db', out) := CreateOrderSpec(db, tenant, req);
            && DigitsValue(out.number) == NextNumberValue(db.orders, tenant)
            && NextNumberValue(db'.orders, tenant) == DigitsValue(out.number) + 1
  {
    CreateOrderResult(db, tenant, req);
    var db' := CreateOrderSpec(db, tenant, req).0;
    assert db'.orders[..|db'.orders| - 1] == db.orders;
  }

  /** Appending an order with the next id, a fresh well-formed number and
      well-formed items keeps the orders well formed. */
  lemma AppendOrderWellFormed(orders: seq<Order>, next: OrderId, o: Order)
    requires OrdersWellFormed(orders, next)
    requires o.id == next && o.number != [] && AllDigits(o.number) && !NumberTaken(orders, o.number)
    requires ItemsWellFormed(o.items)
    ensures OrdersWellFormed(orders + [o], next + 1)
  {
    var s := orders + [o];
    assert forall i :: 0 <= i < |orders| ==> s[i] == orders[i];
    assert s[|orders|] == o;
  }

  lemma ConcludeValid(db: Db, tenant: TenantId, req: OrderRequest, number: string, run: (Progress, Halt))
    requires ValidDb(db)
    requires number != [] && AllDigits(number) && !NumberTaken(db.orders, number)
    requires ItemsWellFormed(run.0.items)
    ensures ValidDb(Conclude(db, tenant, req, number, run).0)
  {
    var (p, h) := run;
    var db' := Conclude(db, tenant, req, number, run).0;
    if h.Missing? {
      assert db'.orders == db.orders && db'.nextOrderId == db.nextOrderId + 1;
    } else {
      var order := Order(db.nextOrderId, tenant, number, req.kind.GetOr("balcao"), Pendente,
                         Trim(PythonStr, req.customer), Trim(PythonStr, req.payment),
                         p.items, if h == Running then p.total else 0);
      assert db'.orders == db.orders + [order] && db'.nextOrderId == db.nextOrderId + 1;
      AppendOrderWellFormed(db.orders, db.nextOrderId, order);
    }
  }

  /** Creation keeps the store well formed, whichever way it ends. */
  lemma CreatePreservesValid(db: Db, tenant: TenantId, req: OrderRequest)
    requires ValidDb(db)
    ensures ValidDb(CreateOrderSpec(db, tenant, req).0)
  {
    if req.items != [] && !Blank(PythonStr, req.customer) && !Blank(PythonStr, req.payment)
       && !NumberTaken(db.orders, SaveNumber(db.orders, tenant, "")) {
      var start := Progress(db.products, [], 0);
      CreateUnfold(db, tenant, req);
      ApplyItemsWellFormed(start, db.combos, req.items);
      ConcludeValid(db, tenant, req, SaveNumber(db.orders, tenant, ""), ApplyItems(start, db.combos, req.items));
    }
  }

  // ---------- properties of editar_pedido ----------

  /** The items `editar_pedido` writes: one per request at the current
      price, without combo choices. */
  function ListedItems(products: map<ProductId, Product>, reqs: seq<ItemRequest>): seq<Item>
    decreases |reqs|
  {
    if reqs == [] then []
    else
      var price := if reqs[0].product in products then products[reqs[0].product].price else 0;
      [SaveItem(reqs[0].product, reqs[0].quantity, price)] + ListedItems(products, reqs[1..])
  }

  predicate AllFound(products: map<ProductId, Product>, reqs: seq<ItemRequest>) {
    forall k :: 0 <= k < |reqs| ==> reqs[k].product in products
  }

  /** The item loop of the edit runs to the end exactly when every product
      is found, and then writes the listed items. */
  lemma {:induction false} BuildItemsEffect(products: map<ProductId, Product>, acc: seq<Item>, reqs: seq<ItemRequest>)
    ensures BuildItems(products, acc, reqs).1 <==> AllFound(products, reqs)
    ensures AllFound(products, reqs) ==> BuildItems(products, acc, reqs).0 == acc + ListedItems(products, reqs)
    decreases |reqs|
  {
    if reqs != [] {
      var price := if reqs[0].product in products then products[reqs[0].product].price else 0;
      var it := SaveItem(reqs[0].product, reqs[0].quantity, price);
      BuildItemsEffect(products, acc + [it], reqs[1..]);
      assert forall k :: 1 <= k < |reqs| ==> reqs[k] == reqs[1..][k - 1];
      assert acc + [it] + ListedItems(products, reqs[1..]) == acc + ListedItems(products, reqs);
    }
  }

  /** A missing product stops the edit loop with the items of the requests before it. */
  lemma {:induction false} BuildItemsStopsAt(products: map<ProductId, Product>, acc: seq<Item>,
                                             pre: seq<ItemRequest>, bad: ItemRequest, post: seq<ItemRequest>)
    requires AllFound(products, pre) && bad.product !in products
    ensures BuildItems(products, acc, pre + [bad] + post) == (acc + ListedItems(products, pre), false)
    decreases |pre|
  {
    if pre == [] {
      assert pre + [bad] + post == [bad] + post;
      assert acc + [] == acc;
    } else {
      var it := SaveItem(pre[0].product, pre[0].quantity, products[pre[0].product].price);
      assert (pre + [bad] + post)[1..] == pre[1..] + [bad] + post;
      BuildItemsStopsAt(products, acc + [it], pre[1..], bad, post);
      assert acc + [it] + ListedItems(products, pre[1..]) == acc + ListedItems(products, pre);
    }
  }

  /** The subtotals of the listed items add up to the price sum. */
  lemma {:induction false} ListedItemsTotal(products: map<ProductId, Product>, reqs: seq<ItemRequest>)
    ensures SumSubtotals(ListedItems(products, reqs)) == PriceSum(products, reqs)
    decreases |reqs|
  {
    if reqs != [] {
      var price := if reqs[0].product in products then products[reqs[0].product].price else 0;
      var it := SaveItem(reqs[0].product, reqs[0].quantity, price);
      ListedItemsTotal(products, reqs[1..]);
      SumSubtotalsAppend([it], ListedItems(products, reqs[1..]));
      assert SumSubtotals([it]) == it.subtotal by {
        assert [it][..0] == [];
      }
    }
  }

  /** One listed item per request, for the requested product, with no choices. */
  lemma {:induction false} ListedItemsAt(products: map<ProductId, Product>, reqs: seq<ItemRequest>)
    ensures |ListedItems(products, reqs)| == |reqs|
    ensures forall k :: 0 <= k < |reqs| ==>
              ListedItems(products, reqs)[k].choices == [] && ListedItems(products, reqs)[k].product == reqs[k].product
    decreases |reqs|
  {
    if reqs != [] {
      ListedItemsAt(products, reqs[1..]);
      assert forall k :: 1 <= k < |reqs| ==> reqs[k] == reqs[1..][k - 1];
    }
  }

  /** An edit succeeds exactly when the three checks pass, the tenant has
      an order with that id, and every product is found. */
  lemma EditOrderWhen(db: Db, tenant: TenantId, orderId: Option<OrderId>, req: OrderRequest)
    ensures EditOrderSpec(db, tenant, orderId, req).1.Edited? <==>
            && req.items != [] && !Blank(PythonStr, req.customer) && !Blank(PythonStr, req.payment)
            && orderId.Some? && FindOrder(db.orders, orderId.value, tenant).Some?
            && AllFound(db.products, req.items)
  {
    if req.items != [] && !Blank(PythonStr, req.customer) && !Blank(PythonStr, req.payment)
       && orderId.Some? && FindOrder(db.orders, orderId.value, tenant).Some? {
      var i := EditFound(db, tenant, orderId, req);
      EditAtWhen(db, i, req);
    }
  }

  lemma EditAtWhen(db: Db, i: nat, req: OrderRequest)
    requires i < |db.orders|
    ensures EditAt(db, i, req).1.Edited? <==> AllFound(db.products, req.items)
  {
    BuildItemsEffect(db.products, [], req.items);
  }

  /** A successful edit rewrites that one order: new customer, kind and
      payment, the listed items at current prices (no choices), total their
      price sum; id, tenant, status and number stay, every other order and
      every stock stay. */
  lemma EditOrderResult(db: Db, tenant: TenantId, orderId: Option<OrderId>, req: OrderRequest)
    requires Numbered(db.orders)
    requires EditOrderSpec(db, tenant, orderId, req).1.Edited?
    ensures var (db', out) := EditOrderSpec(db, tenant, orderId, req);
            var i := FindOrder(db.orders, orderId.value, tenant).value;
            var o := db.orders[i];
            && out == Edited(o.id, o.number)
            && db' == db.(orders := db.orders[i := o.(customer := Trim(PythonStr, req.customer),
                                                    kind := req.kind.GetOr("balcao"),
                                                    payment := Trim(PythonStr, req.payment),
                                                    items := ListedItems(db.products, req.items),
                                                    total := PriceSum(db.products, req.items))])
  {
    EditOrderWhen(db, tenant, orderId, req);
    var i := EditFound(db, tenant, orderId, req);
    EditAtResult(db, i, req);
  }

  /** Past the checks, an edit of an order that is found is `EditAt` it. */
  lemma EditFound(db: Db, tenant: TenantId, orderId: Option<OrderId>, req: OrderRequest) returns (i: nat)
    requires req.items != [] && !Blank(PythonStr, req.customer) && !Blank(PythonStr, req.payment)
    requires orderId.Some? && FindOrder(db.orders, orderId.value, tenant).Some?
    ensures i == FindOrder(db.orders, orderId.value, tenant).value && i < |db.orders|
    ensures EditOrderSpec(db, tenant, orderId, req) == EditAt(db, i, req)
  {
    i := FindOrder(db.orders, orderId.value, tenant).value;
  }

  lemma EditAtResult(db: Db, i: nat, req: OrderRequest)
    requires i < |db.orders| && db.orders[i].number != []
    requires EditAt(db, i, req).1.Edited?
    ensures var o := db.orders[i];
            EditAt(db, i, req) ==
            (db.(orders := db.orders[i := o.(customer := Trim(PythonStr, req.customer),
                                           kind := req.kind.GetOr("balcao"),
                                           payment := Trim(PythonStr, req.payment),
                                           items := ListedItems(db.products, req.items),
                                           total := PriceSum(db.products, req.items))]),
             Edited(o.id, o.number))
  {
    BuildItemsEffect(db.products, [], req.items);
    ListedItemsTotal(db.products, req.items);
    assert [] + ListedItems(db.products, req.items) == ListedItems(db.products, req.items);
  }

  /** A product missing part-way through an edit: the old items are gone,
      the items before it are written, and the order keeps its old customer,
      payment, kind and total; the response is a failure. */
  lemma EditMissingProduct(db: Db, tenant: TenantId, id: OrderId, req: OrderRequest,
                           pre: seq<ItemRequest>, bad: ItemRequest, post: seq<ItemRequest>)
    requires req.items == pre + [bad] + post
    requires !Blank(PythonStr, req.customer) && !Blank(PythonStr, req.payment)
    requires FindOrder(db.orders, id, tenant).Some?
    requires AllFound(db.products, pre) && bad.product !in db.products
    ensures var i := FindOrder(db.orders, id, tenant).value;
            EditOrderSpec(db, tenant, Some(id), req) ==
            (db.(orders := db.orders[i := db.orders[i].(items := ListedItems(db.products, pre))]),
             EditFailed(ProductNotFound))
  {
    BuildItemsStopsAt(db.products, [], pre, bad, post);
    assert [] + ListedItems(db.products, pre) == ListedItems(db.products, pre);
  }

  /** Rewriting one order in place, keeping its id and number, with
      well-formed items keeps the orders well formed. */
  lemma ReplaceOrderWellFormed(orders: seq<Order>, next: OrderId, i: nat, o: Order)
    requires OrdersWellFormed(orders, next) && i < |orders|
    requires o.id == orders[i].id && o.number == orders[i].number && ItemsWellFormed(o.items)
    ensures OrdersWellFormed(orders[i := o], next)
  {
  }

  /** An edit rewrites only the order it finds, which keeps its id and
      number and gets well-formed items. */
  lemma EditAtTouchesOne(db: Db, i: nat, req: OrderRequest)
    requires i < |db.orders| && db.orders[i].number != []
    ensures var orders' := EditAt(db, i, req).0.orders;
            && orders' == db.orders[i := orders'[i]]
            && orders'[i].id == db.orders[i].id && orders'[i].number == db.orders[i].number
            && ItemsWellFormed(orders'[i].items)
  {
    BuildItemsWellFormed(db.products, [], req.items);
  }

  lemma EditPreservesValid(db: Db, tenant: TenantId, orderId: Option<OrderId>, req: OrderRequest)
    requires ValidDb(db)
    ensures ValidDb(EditOrderSpec(db, tenant, orderId, req).0)
  {
    var db' := EditOrderSpec(db, tenant, orderId, req).0;
    assert OrdersWellFormed(db'.orders, db.nextOrderId) by {
      if req.items != [] && !Blank(PythonStr, req.customer) && !Blank(PythonStr, req.payment)
         && orderId.Some? && FindOrder(db.orders, orderId.value, tenant).Some? {
        var i := EditFound(db, tenant, orderId, req);
        EditAtTouchesOne(db, i, req);
        ReplaceOrderWellFormed(db.orders, db.nextOrderId, i, db'.orders[i]);
      }
    }
    ValidWithOrders(db, db'.orders);
  }

  /** Only the orders changed, and they are well formed. */
  lemma ValidWithOrders(db: Db, orders: seq<Order>)
    requires ValidDb(db) && OrdersWellFormed(orders, db.nextOrderId)
    ensures ValidDb(db.(orders := orders))
  {
  }

  lemma {:induction false} BuildItemsWellFormed(products: map<ProductId, Product>, acc: seq<Item>, reqs: seq<ItemRequest>)
    requires ItemsWellFormed(acc)
    ensures ItemsWellFormed(BuildItems(products, acc, reqs).0)
    decreases |reqs|
  {
    if reqs != [] && reqs[0].product in products {
      BuildItemsWellFormed(products, acc + [SaveItem(reqs[0].product, reqs[0].quantity, products[reqs[0].product].price)], reqs[1..]);
    }
  }

  // ---------- properties of excluir_pedido ----------

  /** Units of `pid` the item lines name. */
  function QuantityOf(items: seq<Item>, pid: ProductId): int
    decreases |items|
  {
    if items == [] then 0 else (if items[0].product == pid then items[0].quantity else 0) + QuantityOf(items[1..], pid)
  }

  /** Every recorded debit is a whole number of units. */
  predicate WholeDebits(cs: seq<Choice>) {
    forall k :: 0 <= k < |cs| ==> cs[k].debit % 1000 == 0
  }

  /** Whole units of `pid` the choices give back. */
  function ChoiceCredit(cs: seq<Choice>, pid: ProductId): int
    decreases |cs|
  {
    if cs == [] then 0 else (if cs[0].product == pid then cs[0].debit / 1000 else 0) + ChoiceCredit(cs[1..], pid)
  }

  /** The first loop gives each product back the quantities of its lines. */
  lemma {:induction false} CreditItemsStock(products: map<ProductId, Product>, items: seq<Item>)
    ensures CreditItems(products, items).Keys == products.Keys
    ensures forall pid :: pid in products ==>
              CreditItems(products, items)[pid] == products[pid].(stock := products[pid].stock + QuantityOf(items, pid))
    decreases |items|
  {
    if items != [] {
      var it := items[0];
      CreditItemsStock(if it.product in products then Credit(products, it.product, it.quantity) else products, items[1..]);
    }
  }

  /** With whole-unit debits the second loop gives back exactly the recorded
      units; the IntegerField truncation then loses nothing. */
  lemma {:induction false} CreditChoicesStock(products: map<ProductId, Product>, cs: seq<Choice>)
    requires WholeDebits(cs)
    ensures CreditChoices(products, cs).Keys == products.Keys
    ensures forall pid :: pid in products ==>
              CreditChoices(products, cs)[pid] == products[pid].(stock := products[pid].stock + ChoiceCredit(cs, pid))
    decreases |cs|
  {
    if cs != [] {
      var c := cs[0];
      assert c.debit % 1000 == 0;
      var next := if c.product in products
        then products[c.product := products[c.product].(stock := CreditChoice(products[c.product].stock, c.debit))]
        else products;
      if c.product in products {
        var st := products[c.product].stock;
        assert st * 1000 + c.debit == (st + c.debit / 1000) * 1000;
        assert CreditChoice(st, c.debit) == st + c.debit / 1000;
      }
      assert WholeDebits(cs[1..]) by {
        forall k | 0 <= k < |cs[1..]| ensures cs[1..][k].debit % 1000 == 0 {
          assert cs[1..][k] == cs[k + 1];
        }
      }
      CreditChoicesStock(next, cs[1..]);
    }
  }

  /** A delete succeeds exactly when an id is given and the tenant has an
      order with it; it then removes just that order and reports its number
      and the sum of its item quantities. */
  lemma DeleteOrderResult(db: Db, tenant: TenantId, orderId: Option<OrderId>)
    ensures DeleteOrderSpec(db, tenant, orderId).1.Deleted? <==>
            orderId.Some? && FindOrder(db.orders, orderId.value, tenant).Some?
    ensures DeleteOrderSpec(db, tenant, orderId).1.Deleted? ==>
            var i := FindOrder(db.orders, orderId.value, tenant).value;
            var (db', out) := DeleteOrderSpec(db, tenant, orderId);
            && out == Deleted(db.orders[i].number, SumQuantities(db.orders[i].items))
            && db' == db.(products := db'.products, orders := db.orders[..i] + db.orders[i + 1..])
            && (WholeDebits(AllChoices(db.orders[i].items)) ==>
                  forall pid :: pid in db.products ==>
                    db'.products[pid] == db.products[pid].(stock := db.products[pid].stock + QuantityOf(db.orders[i].items, pid)
                                                                    + ChoiceCredit(AllChoices(db.orders[i].items), pid)))
  {
    if orderId.Some? && FindOrder(db.orders, orderId.value, tenant).Some? {
      var i := DeleteFound(db, tenant, orderId);
      var items := db.orders[i].items;
      CreditItemsStock(db.products, items);
      if WholeDebits(AllChoices(items)) {
        CreditChoicesStock(CreditItems(db.products, items), AllChoices(items));
      }
    }
  }

  /** Removing one order keeps the orders well formed. */
  lemma RemoveOrderWellFormed(orders: seq<Order>, next: OrderId, i: nat)
    requires OrdersWellFormed(orders, next) && i < |orders|
    ensures OrdersWellFormed(orders[..i] + orders[i + 1..], next)
  {
    var rest := orders[..i] + orders[i + 1..];
    assert forall k :: 0 <= k < |rest| ==> rest[k] == orders[if k < i then k else k + 1];
  }

  lemma DeletePreservesValid(db: Db, tenant: TenantId, orderId: Option<OrderId>)
    requires ValidDb(db)
    ensures ValidDb(DeleteOrderSpec(db, tenant, orderId).0)
  {
    if orderId.Some? && FindOrder(db.orders, orderId.value, tenant).Some? {
      var i := DeleteFound(db, tenant, orderId);
      RemoveOrderWellFormed(db.orders, db.nextOrderId, i);
      ValidWithOrders(db.(products := DeleteAt(db, i).0.products), db.orders[..i] + db.orders[i + 1..]);
    }
  }

  // ---------- create, edit and delete together ----------

  /** With ids below `nextOrderId`, the order just appended is the one found. */
  lemma {:induction false} FindAppended(orders: seq<Order>, next: OrderId, o: Order)
    requires IdsBelow(orders, next)
    requires o.id == next
    ensures FindOrder(orders + [o], o.id, o.tenant) == Some(|orders|)
    decreases |orders|
  {
    if orders != [] {
      assert (orders + [o])[1..] == orders[1..] + [o];
      assert forall i :: 0 <= i < |orders[1..]| ==> orders[1..][i] == orders[i + 1];
      FindAppended(orders[1..], next, o);
    }
  }

  /** Rewriting an order without touching its id or tenant does not move it. */
  lemma {:induction false} FindAfterUpdate(orders: seq<Order>, i: nat, o: Order, id: OrderId, tenant: TenantId)
    requires i < |orders| && o.id == orders[i].id && o.tenant == orders[i].tenant
    ensures FindOrder(orders[i := o], id, tenant) == FindOrder(orders, id, tenant)
    decreases |orders|
  {
    if orders != [] && i > 0 {
      assert orders[i := o][1..] == orders[1..][i - 1 := o];
      FindAfterUpdate(orders[1..], i - 1, o, id, tenant);
    }
  }

  lemma {:induction false} QuantityOfPlain(products: map<ProductId, Product>, reqs: seq<ItemRequest>, pid: ProductId)
    requires forall k :: 0 <= k < |reqs| ==> PlainDebit(reqs[k])
    ensures QuantityOf(CreatedItems(products, reqs), pid) == UnitsDebited(reqs, pid)
    ensures AllChoices(CreatedItems(products, reqs)) == []
    decreases |reqs|
  {
    if reqs != [] {
      QuantityOfPlain(products, reqs[1..], pid);
      var items := CreatedItems(products, reqs);
      assert items[1..] == CreatedItems(products, reqs[1..]);
    }
  }

  lemma {:induction false} SumQuantitiesCreated(products: map<ProductId, Product>, reqs: seq<ItemRequest>)
    ensures SumQuantities(CreatedItems(products, reqs)) == RequestedUnits(reqs)
    decreases |reqs|
  {
    if reqs != [] {
      SumQuantitiesCreated(products, reqs[1..]);
      SumQuantitiesAppend([CreatedItem(products, reqs[0])], CreatedItems(products, reqs[1..]));
      assert SumQuantities([CreatedItem(products, reqs[0])]) == reqs[0].quantity by {
        assert [CreatedItem(products, reqs[0])][..0] == [];
      }
    }
  }

  /** Sum of the requested quantities. */
  function RequestedUnits(reqs: seq<ItemRequest>): int
    decreases |reqs|
  {
    if reqs == [] then 0 else reqs[0].quantity + RequestedUnits(reqs[1..])
  }

  lemma {:induction false} SumQuantitiesAppend(a: seq<Item>, b: seq<Item>)
    ensures SumQuantities(a + b) == SumQuantities(a) + SumQuantities(b)
    decreases |b|
  {
    if b == [] {
      assert a + b == a;
    } else {
      var ab := a + b;
      assert ab[..|ab| - 1] == a + b[..|b| - 1];
      assert ab[|ab| - 1] == b[|b| - 1];
      SumQuantitiesAppend(a, b[..|b| - 1]);
    }
  }

  /** Deleting the order just appended finds it at the end and leaves the
      orders as they were before. */
  lemma DeleteNewOrder(db: Db, tenant: TenantId, req: OrderRequest)
    requires IdsBelow(db.orders, db.nextOrderId)
    ensures var db1 := AfterCreate(db, tenant, req);
            && FindOrder(db1.orders, db.nextOrderId, tenant) == Some(|db.orders|)
            && db1.orders[..|db.orders|] + db1.orders[|db.orders| + 1..] == db.orders
            && db1.orders[|db.orders|] == NewOrder(db, tenant, req)
  {
    FindAppended(db.orders, db.nextOrderId, NewOrder(db, tenant, req));
  }

  /** Giving back the lines of a plain order undoes its debits. */
  lemma PlainCreditUndoesDebit(products: map<ProductId, Product>, reqs: seq<ItemRequest>)
    requires forall k :: 0 <= k < |reqs| ==> PlainDebit(reqs[k])
    ensures CreditItems(Debited(products, reqs), CreatedItems(products, reqs)) == products
  {
    var debited := Debited(products, reqs);
    var items := CreatedItems(products, reqs);
    CreditItemsStock(debited, items);
    forall pid | pid in products ensures CreditItems(debited, items)[pid] == products[pid] {
      QuantityOfPlain(products, reqs, pid);
    }
  }

  /** Deleting a new plain order gives back exactly what creating it took. */
  lemma CreditNewPlainOrder(db: Db, tenant: TenantId, req: OrderRequest)
    requires forall k :: 0 <= k < |req.items| ==> PlainDebit(req.items[k])
    ensures var o := NewOrder(db, tenant, req);
            CreditChoices(CreditItems(Debited(db.products, req.items), o.items), AllChoices(o.items)) == db.products
  {
    var o := NewOrder(db, tenant, req);
    assert AllChoices(o.items) == [] by {
      QuantityOfPlain(db.products, req.items, 0);
    }
    PlainCreditUndoesDebit(db.products, req.items);
  }

  lemma DeleteCreatedPlain(db: Db, tenant: TenantId, req: OrderRequest)
    requires IdsBelow(db.orders, db.nextOrderId)
    requires forall k :: 0 <= k < |req.items| ==> PlainDebit(req.items[k])
    ensures DeleteOrderSpec(AfterCreate(db, tenant, req), tenant, Some(db.nextOrderId)) ==
            (db.(nextOrderId := db.nextOrderId + 1), Deleted(SaveNumber(db.orders, tenant, ""), RequestedUnits(req.items)))
  {
    var db1 := AfterCreate(db, tenant, req);
    DeleteNewOrder(db, tenant, req);
    var i := DeleteFound(db1, tenant, Some(db.nextOrderId));
    var o := NewOrder(db, tenant, req);
    var r := DeleteAt(db1, i);
    assert i == |db.orders| && db1.orders[i] == o;
    assert r.0.orders == db.orders;
    assert r.0.products == db.products by {
      assert r.0.products == CreditChoices(CreditItems(db1.products, o.items), AllChoices(o.items));
      CreditNewPlainOrder(db, tenant, req);
    }
    assert r.1 == Deleted(o.number, RequestedUnits(req.items)) by {
      SumQuantitiesCreated(db.products, req.items);
    }
  }

  /** For an order of plain items, deleting it right after creating it puts
      every stock and the order list back as they were, and the reported
      count is the number of units ordered. */
  lemma DeleteAfterCreatePlain(db: Db, tenant: TenantId, req: OrderRequest)
    requires IdsBelow(db.orders, db.nextOrderId)
    requires forall k :: 0 <= k < |req.items| ==> PlainDebit(req.items[k])
    requires CreateOrderSpec(db, tenant, req).1.Created?
    ensures var (db1, created) := CreateOrderSpec(db, tenant, req);
            DeleteOrderSpec(db1, tenant, Some(created.id)) ==
            (db.(nextOrderId := db.nextOrderId + 1), Deleted(created.number, RequestedUnits(req.items)))
  {
    CreateOrderResult(db, tenant, req);
    DeleteCreatedPlain(db, tenant, req);
  }

  lemma OneComboDebits(r: ItemRequest, c: ChoiceRequest, combo: ProductId, chosen: ProductId)
    requires r == ItemRequest(combo, r.quantity, true, [c]) && c.product == chosen && combo != chosen
    ensures UnitsDebited([r], combo) == 0
    ensures UnitsDebited([r], chosen) == IntPart(c.debit) * r.quantity
  {
    assert [c][1..] == [];
    assert [r][1..] == [];
    assert ItemUnits(r, combo) == ChoiceUnits([c], r.quantity, combo);
    assert ItemUnits(r, chosen) == ChoiceUnits([c], r.quantity, chosen);
  }

  /** The store after creating one combo line with one choice. */
  lemma AfterCreateCombo(db: Db, tenant: TenantId, req: OrderRequest,
                         combo: ProductId, q: int, slot: SlotId, chosen: ProductId, debit: int)
    requires req.items == [ItemRequest(combo, q, true, [ChoiceRequest(slot, chosen, debit)])]
    requires combo != chosen && combo in db.products && chosen in db.products
    ensures var ps := AfterCreate(db, tenant, req).products;
            && combo in ps && chosen in ps
            && ps[combo].stock == db.products[combo].stock
            && ps[chosen].stock == db.products[chosen].stock - IntPart(debit) * q
    ensures NewOrder(db, tenant, req).items ==
            [SaveItem(combo, q, db.products[combo].price).(choices := [Choice(slot, chosen, debit)])]
  {
    var c := ChoiceRequest(slot, chosen, debit);
    OneComboDebits(req.items[0], c, combo, chosen);
    assert [c][1..] == [];
    assert Recorded([c]) == [Choice(slot, chosen, debit)];
    assert req.items[1..] == [];
    assert CreatedItems(db.products, req.items) == [CreatedItem(db.products, req.items[0])];
  }

  /** Creating then deleting one combo line with one whole-unit choice,
      stated on the store the creation leaves. */
  lemma DeleteCreatedCombo(db: Db, tenant: TenantId, req: OrderRequest,
                           combo: ProductId, q: int, slot: SlotId, chosen: ProductId, d: int)
    requires IdsBelow(db.orders, db.nextOrderId)
    requires req.items == [ItemRequest(combo, q, true, [ChoiceRequest(slot, chosen, d * 1000)])]
    requires combo != chosen && combo in db.products && chosen in db.products
    ensures var db2 := DeleteOrderSpec(AfterCreate(db, tenant, req), tenant, Some(db.nextOrderId)).0;
            && combo in db2.products && chosen in db2.products
            && db2.products[combo].stock == db.products[combo].stock + q
            && db2.products[chosen].stock == db.products[chosen].stock - (q - 1) * d
  {
    var db1 := AfterCreate(db, tenant, req);
    DeleteNewOrder(db, tenant, req);
    AfterCreateCombo(db, tenant, req, combo, q, slot, chosen, d * 1000);
    assert IntPart(d * 1000) == d;
    DeleteOneCombo(db1, tenant, db.nextOrderId, combo, q, db.products[combo].price, slot, chosen, d);
  }

  /** What deleting an order of one combo line with one choice gives back. */
  lemma DeleteOneCombo(db: Db, tenant: TenantId, id: OrderId, combo: ProductId, q: int, price: int,
                       slot: SlotId, chosen: ProductId, d: int)
    requires FindOrder(db.orders, id, tenant).Some?
    requires db.orders[FindOrder(db.orders, id, tenant).value].items ==
             [SaveItem(combo, q, price).(choices := [Choice(slot, chosen, d * 1000)])]
    requires combo != chosen && combo in db.products && chosen in db.products
    ensures var db2 := DeleteOrderSpec(db, tenant, Some(id)).0;
            && combo in db2.products && chosen in db2.products
            && db2.products[combo].stock == db.products[combo].stock + q
            && db2.products[chosen].stock == db.products[chosen].stock + d
  {
    var items := db.orders[FindOrder(db.orders, id, tenant).value].items;
    assert items[1..] == [];
    assert AllChoices(items) == [Choice(slot, chosen, d * 1000)];
    assert [Choice(slot, chosen, d * 1000)][1..] == [];
    assert QuantityOf(items[1..], combo) == 0 && QuantityOf(items[1..], chosen) == 0;
    assert QuantityOf(items, combo) == q && QuantityOf(items, chosen) == 0;
    var cs := [Choice(slot, chosen, d * 1000)];
    assert (d * 1000) / 1000 == d;
    assert cs[1..] == [];
    assert ChoiceCredit(cs, chosen) == d + ChoiceCredit([], chosen);
    assert ChoiceCredit(cs, combo) == 0;
    DeleteOrderResult(db, tenant, Some(id));
  }

  /** The asymmetry of combos: an order of one combo with one whole-unit
      choice, created then deleted, leaves the combo's own product `q` units
      higher and the chosen product `(q - 1) * d` units lower. */
  lemma ComboCreateDeleteDrift(db: Db, tenant: TenantId, req: OrderRequest,
                               combo: ProductId, q: int, slot: SlotId, chosen: ProductId, d: int)
    requires IdsBelow(db.orders, db.nextOrderId)
    requires req.items == [ItemRequest(combo, q, true, [ChoiceRequest(slot, chosen, d * 1000)])]
    requires combo != chosen && combo in db.products && chosen in db.products
    requires CreateOrderSpec(db, tenant, req).1.Created?
    ensures var (db1, created) := CreateOrderSpec(db, tenant, req);
            var db2 := DeleteOrderSpec(db1, tenant, Some(created.id)).0;
            && combo in db2.products && chosen in db2.products
            && db2.products[combo].stock == db.products[combo].stock + q
            && db2.products[chosen].stock == db.products[chosen].stock - (q - 1) * d
  {
    CreateOrderResult(db, tenant, req);
    DeleteCreatedCombo(db, tenant, req, combo, q, slot, chosen, d);
  }

  /** Editing never reconciles stock, so a later delete gives back the
      edited quantities and the choices of the original lines are lost. */
  lemma EditThenDelete(db: Db, tenant: TenantId, id: OrderId, req: OrderRequest)
    requires Numbered(db.orders)
    requires EditOrderSpec(db, tenant, Some(id), req).1.Edited?
    ensures var db1 := EditOrderSpec(db, tenant, Some(id), req).0;
            var (db2, out) := DeleteOrderSpec(db1, tenant, Some(id));
            && out.Deleted? && out.units == RequestedUnits(req.items)
            && forall pid :: pid in db.products ==>
                 db2.products[pid].stock == db.products[pid].stock + QuantityOf(ListedItems(db.products, req.items), pid)
  {
    EditOrderWhen(db, tenant, Some(id), req);
    var i := EditFound(db, tenant, Some(id), req);
    EditAtResult(db, i, req);
    var db1 := EditAt(db, i, req).0;
    var items := ListedItems(db.products, req.items);
    assert db1.orders[i].items == items && db1.products == db.products;
    FindAfterUpdate(db.orders, i, db1.orders[i], id, tenant);
    var j := DeleteFound(db1, tenant, Some(id));
    ListedNoChoices(db.products, req.items);
    assert DeleteAt(db1, i).0.products == CreditItems(db.products, items);
    CreditItemsStock(db.products, items);
    SumQuantitiesListed(db.products, req.items);
  }

  lemma {:induction false} ListedNoChoices(products: map<ProductId, Product>, reqs: seq<ItemRequest>)
    ensures AllChoices(ListedItems(products, reqs)) == []
    decreases |reqs|
  {
    if reqs != [] {
      ListedNoChoices(products, reqs[1..]);
    }
  }

  lemma {:induction false} SumQuantitiesListed(products: map<ProductId, Product>, reqs: seq<ItemRequest>)
    ensures SumQuantities(ListedItems(products, reqs)) == RequestedUnits(reqs)
    decreases |reqs|
  {
    if reqs != [] {
      var price := if reqs[0].product in products then products[reqs[0].product].price else 0;
      var it := SaveItem(reqs[0].product, reqs[0].quantity, price);
      SumQuantitiesListed(products, reqs[1..]);
      SumQuantitiesAppend([it], ListedItems(products, reqs[1..]));
      assert SumQuantities([it]) == it.quantity by {
        assert [it][..0] == [];
      }
    }
  }
}
