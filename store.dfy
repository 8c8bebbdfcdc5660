/** The cashier's store as the views change it: one object whose tables
    (products, categories, orders, combos) the views update in place. Each
    method runs the view's loops over the request and is proved to leave the
    store, and to answer, exactly as the corresponding specification
    function says; the properties of those functions are proved in
    `OrderSpec`, `ComboSpec`, `AdminSpec`, `SelfServiceSpec` and
    `KitchenSpec`. */
module Caixa {
  import opened Common
  import opened Numbering
  import opened Models
  import opened OrderSpec
  import opened ComboSpec
  import opened AdminSpec
  import opened SelfServiceSpec
  import opened KitchenSpec

  // ---------- the loops of criar_pedido ----------

  /** The loop over one combo item's `escolhas`: each choice row is written
      and the chosen product debited `int(quantidade_abate) * quantidade`. */
  method RunChoices(products: map<ProductId, Product>, combos: map<ProductId, seq<Slot>>, q: int,
                    it: Item, cs: seq<ChoiceRequest>)
    returns (ps: map<ProductId, Product>, item: Item, h: Halt)
    ensures (ps, item, h) == ApplyChoices(products, combos, q, it, cs)
  {
    ps, item, h := products, it, Running;
    var m := 0;
    while m < |cs|
      invariant 0 <= m <= |cs|
      invariant ApplyChoices(products, combos, q, it, cs) == ApplyChoices(ps, combos, q, item, cs[m..])
      decreases |cs| - m
    {
      assert cs[m..][1..] == cs[m + 1..];
      var c := cs[m];
      if !SlotExists(combos, c.slot) || c.product !in ps {
        h := Missing(ComboItemNotFound);
        return;
      }
      if HasChoiceFor(item, c.slot) {
        h := Crashed;
        return;
      }
      var chosen := ps[c.product];
      ps := ps[c.product := chosen.(stock := chosen.stock - IntPart(c.debit) * q)];
      item := item.(choices := item.choices + [Choice(c.slot, c.product, c.debit)]);
      m := m + 1;
    }
  }

  /** The loop over `itens`: each item row is saved at the product's current
      price, the total accumulates its subtotal, and stock is debited. */
  method RunItems(products: map<ProductId, Product>, combos: map<ProductId, seq<Slot>>, reqs: seq<ItemRequest>)
    returns (p: Progress, h: Halt)
    ensures (p, h) == ApplyItems(Progress(products, [], 0), combos, reqs)
  {
    p, h := Progress(products, [], 0), Running;
    var k := 0;
    while k < |reqs|
      invariant 0 <= k <= |reqs|
      invariant ApplyItems(Progress(products, [], 0), combos, reqs) == ApplyItems(p, combos, reqs[k..])
      decreases |reqs| - k
    {
      assert reqs[k..][1..] == reqs[k + 1..];
      var r := reqs[k];
      if r.product !in p.products {
        h := Missing(ProductNotFound);
        return;
      }
      var it := SaveItem(r.product, r.quantity, p.products[r.product].price);
      var total := p.total + it.subtotal;
      if PlainDebit(r) {
        var own := p.products[r.product];
        p := Progress(p.products[r.product := own.(stock := own.stock - r.quantity)], p.items + [it], total);
      } else {
        var ps, it', h' := RunChoices(p.products, combos, r.quantity, it, r.choices);
        p := Progress(ps, p.items + [it'], total);
        if h' != Running {
          h := h';
          return;
        }
      }
      k := k + 1;
    }
  }

  // ---------- the loop of editar_pedido ----------

  method RunBuildItems(products: map<ProductId, Product>, reqs: seq<ItemRequest>) returns (items: seq<Item>, ok: bool)
    ensures (items, ok) == BuildItems(products, [], reqs)
  {
    items, ok := [], true;
    var k := 0;
    while k < |reqs|
      invariant 0 <= k <= |reqs|
      invariant BuildItems(products, [], reqs) == BuildItems(products, items, reqs[k..])
      decreases |reqs| - k
    {
      assert reqs[k..][1..] == reqs[k + 1..];
      var r := reqs[k];
      if r.product !in products {
        ok := false;
        return;
      }
      items := items + [SaveItem(r.product, r.quantity, products[r.product].price)];
      k := k + 1;
    }
  }

  // ---------- the loops of excluir_pedido ----------

  method RunCreditItems(products: map<ProductId, Product>, items: seq<Item>) returns (ps: map<ProductId, Product>)
    ensures ps == CreditItems(products, items)
  {
    ps := products;
    var k := 0;
    while k < |items|
      invariant 0 <= k <= |items|
      invariant CreditItems(products, items) == CreditItems(ps, items[k..])
      decreases |items| - k
    {
      assert items[k..][1..] == items[k + 1..];
      var it := items[k];
      if it.product in ps {
        var pr := ps[it.product];
        ps := ps[it.product := pr.(stock := pr.stock + it.quantity)];
      }
      k := k + 1;
    }
  }

  method RunCreditChoices(products: map<ProductId, Product>, cs: seq<Choice>) returns (ps: map<ProductId, Product>)
    ensures ps == CreditChoices(products, cs)
  {
    ps := products;
    var k := 0;
    while k < |cs|
      invariant 0 <= k <= |cs|
      invariant CreditChoices(products, cs) == CreditChoices(ps, cs[k..])
      decreases |cs| - k
    {
      assert cs[k..][1..] == cs[k + 1..];
      var c := cs[k];
      if c.product in ps {
        var pr := ps[c.product];
        ps := ps[c.product := pr.(stock := CreditChoice(pr.stock, c.debit))];
      }
      k := k + 1;
    }
  }

  // ---------- the loops of configurar_combo ----------

  method RunSlotItems(products: map<ProductId, Product>, slot: Slot, items: seq<SlotItemRequest>)
    returns (s: Slot, ok: bool)
    ensures (s, ok) == AddItems(products, slot, items)
  {
    s, ok := slot, true;
    var m := 0;
    while m < |items|
      invariant 0 <= m <= |items|
      invariant AddItems(products, slot, items) == AddItems(products, s, items[m..])
      decreases |items| - m
    {
      assert items[m..][1..] == items[m + 1..];
      if items[m].product !in products {
        ok := false;
        return;
      }
      s := s.(items := s.items + [SlotItem(items[m].product, items[m].debit)]);
      m := m + 1;
    }
  }

  method RunSlots(products: map<ProductId, Product>, first: SlotId, reqs: seq<SlotRequest>)
    returns (b: Building, err: Option<ConfigureReason>)
    ensures (b, err) == AddSlots(products, Building([], first), reqs)
  {
    b, err := Building([], first), None;
    var k := 0;
    while k < |reqs|
      invariant 0 <= k <= |reqs|
      invariant AddSlots(products, Building([], first), reqs) == AddSlots(products, b, reqs[k..])
      decreases |reqs| - k
    {
      assert reqs[k..][1..] == reqs[k + 1..];
      var r := reqs[k];
      if OrdemTaken(b.slots, r.ordem) {
        err := Some(DuplicateOrdem);
        return;
      }
      var slot, ok := RunSlotItems(products, Slot(b.next, r.name, r.ordem, []), r.items);
      b := Building(b.slots + [slot], b.next + 1);
      if !ok {
        err := Some(UnknownProduct);
        return;
      }
      k := k + 1;
    }
  }

  // ---------- the loops of adicionar_combo_pedido ----------

  method RunCheckPicks(db: Db, picks: seq<Pick>) returns (r: Option<AddReason>)
    ensures r == CheckPicks(db, picks)
  {
    var k := 0;
    while k < |picks|
      invariant 0 <= k <= |picks|
      invariant CheckPicks(db, picks) == CheckPicks(db, picks[k..])
      decreases |picks| - k
    {
      assert picks[k..][1..] == picks[k + 1..];
      var pk := picks[k];
      var found := FindSlot(db.combos, pk.slot);
      if found.None? {
        return Some(SlotNotFound);
      }
      var offers := OffersOf(found.value.items, pk.product);
      if offers == [] {
        return Some(SlotItemNotFound);
      }
      if |offers| > 1 {
        return Some(SeveralSlotItems);
      }
      if offers[0].product !in db.products {
        return Some(SlotItemNotFound);
      }
      if !HasStock(db.products[offers[0].product].stock, offers[0].debit) {
        return Some(OutOfStock(offers[0].product));
      }
      k := k + 1;
    }
    return None;
  }

  method RunDetails(db: Db, picks: seq<Pick>) returns (ds: seq<PickDetail>)
    ensures ds == Details(db, picks)
  {
    ds := [];
    var k := 0;
    while k < |picks|
      invariant 0 <= k <= |picks|
      invariant Details(db, picks) == ds + Details(db, picks[k..])
      decreases |picks| - k
    {
      assert picks[k..][1..] == picks[k + 1..];
      var pk := picks[k];
      var found := FindSlot(db.combos, pk.slot);
      var d;
      if found.None? {
        d := PickDetail(pk.slot, "", pk.product, 0);
      } else {
        var offers := OffersOf(found.value.items, pk.product);
        d := PickDetail(found.value.id, found.value.name, pk.product, if offers == [] then 0 else offers[0].debit);
      }
      assert d == DetailOf(db, pk);
      assert ds + Details(db, picks[k..]) == (ds + [d]) + Details(db, picks[k + 1..]);
      ds := ds + [d];
      k := k + 1;
    }
  }

  /** The steps of `criar_pedido` on the tables as values: the checks in the
      view's order, the numbering of `Pedido.save`, the item loop, and the
      end that keeps, totals or deletes the order. */
  method RunCreate(db: Db, tenant: TenantId, req: OrderRequest) returns (db': Db, out: CreateOutcome)
    ensures (db', out) == CreateOrderSpec(db, tenant, req)
    ensures db' == db.(products := db'.products, orders := db'.orders, nextOrderId := db'.nextOrderId)
  {
    if req.items == [] {
      return db, CreateFailed(NoItems);
    }
    var customer := Trim(PythonStr, req.customer);
    if customer == "" {
      return db, CreateFailed(NoCustomer);
    }
    var payment := Trim(PythonStr, req.payment);
    if payment == "" {
      return db, CreateFailed(NoPayment);
    }
    var number := SaveNumber(db.orders, tenant, "");
    if NumberTaken(db.orders, number) {
      return db, CreateFailed(IntegrityError);
    }
    CreateUnfold(db, tenant, req);
    var p, h := RunItems(db.products, db.combos, req.items);
    if h.Missing? {
      ConcludeMissing(db, tenant, req, number, p, h.what);
      db' := db.(products := p.products, nextOrderId := db.nextOrderId + 1);
      out := CreateFailed(h.what);
    } else {
      ConcludeSaved(db, tenant, req, number, p, h);
      var total := if h == Running then p.total else 0;
      var o := Order(db.nextOrderId, tenant, number, req.kind.GetOr("balcao"), Pendente, customer, payment, p.items, total);
      db' := db.(products := p.products, orders := db.orders + [o], nextOrderId := db.nextOrderId + 1);
      out := if h == Running then Created(db.nextOrderId, number) else CreateFailed(IntegrityError);
    }
  }

  // ---------- the store ----------

  class Store {
    var products: map<ProductId, Product>
    var categories: map<CategoryId, Category>
    var orders: seq<Order>
    var combos: map<ProductId, seq<Slot>>
    var tenants: set<TenantId>
    var nextOrderId: OrderId
    var nextSlotId: SlotId
    var nextCategoryId: CategoryId

    /** The tables as one value. */
    function State(): Db
      reads this
    {
      Db(products, categories, orders, combos, tenants, nextOrderId, nextSlotId, nextCategoryId)
    }

    ghost predicate Valid()
      reads this
    {
      ValidDb(State())
    }

    /** An empty store for the given tenants. */
    constructor (ts: set<TenantId>)
      ensures State() == Db(map[], map[], [], map[], ts, 1, 1, 1)
      ensures Valid()
    {
      products, categories, orders, combos := map[], map[], [], map[];
      tenants := ts;
      nextOrderId, nextSlotId, nextCategoryId := 1, 1, 1;
    }

    /** `criar_pedido`. */
    method CreateOrder(tenant: TenantId, req: OrderRequest) returns (out: CreateOutcome)
      requires Valid()
      modifies this
      ensures State() == CreateOrderSpec(old(State()), tenant, req).0
      ensures out == CreateOrderSpec(old(State()), tenant, req).1
      ensures Valid()
    {
      CreatePreservesValid(State(), tenant, req);
      var db';
      db', out := RunCreate(State(), tenant, req);
      products, orders, nextOrderId := db'.products, db'.orders, db'.nextOrderId;
    }

    /** `editar_pedido`. */
    method EditOrder(tenant: TenantId, orderId: Option<OrderId>, req: OrderRequest) returns (out: EditOutcome)
      requires Valid()
      modifies this
      ensures State() == EditOrderSpec(old(State()), tenant, orderId, req).0
      ensures out == EditOrderSpec(old(State()), tenant, orderId, req).1
      ensures Valid()
    {
      ghost var db := State();
      EditPreservesValid(db, tenant, orderId, req);
      if req.items == [] {
        return EditFailed(NoItems);
      }
      var customer := Trim(PythonStr, req.customer);
      if customer == "" {
        return EditFailed(NoCustomer);
      }
      var payment := Trim(PythonStr, req.payment);
      if payment == "" {
        return EditFailed(NoPayment);
      }
      if orderId.None? {
        return EditFailed(OrderNotFound);
      }
      var found := FindOrder(orders, orderId.value, tenant);
      if found.None? {
        return EditFailed(OrderNotFound);
      }
      var i := found.value;
      var o := orders[i];
      var items, ok := RunBuildItems(products, req.items);
      if ok {
        var o' := o.(customer := customer, kind := req.kind.GetOr("balcao"), payment := payment, items := items,
                     total := SumSubtotals(items), number := SaveNumber(orders, o.tenant, o.number));
        orders := orders[i := o'];
        out := Edited(o.id, o'.number);
      } else {
        orders := orders[i := o.(items := items)];
        out := EditFailed(ProductNotFound);
      }
      assert (State(), out) == EditAt(db, i, req);
    }

    /** `excluir_pedido`. */
    method DeleteOrder(tenant: TenantId, orderId: Option<OrderId>) returns (out: DeleteOutcome)
      requires Valid()
      modifies this
      ensures State() == DeleteOrderSpec(old(State()), tenant, orderId).0
      ensures out == DeleteOrderSpec(old(State()), tenant, orderId).1
      ensures Valid()
    {
      ghost var db := State();
      DeletePreservesValid(db, tenant, orderId);
      if orderId.None? {
        return DeleteFailed(NoOrderId);
      }
      var found := FindOrder(orders, orderId.value, tenant);
      if found.None? {
        return DeleteFailed(OrderNotFound);
      }
      var i := found.value;
      var o := orders[i];
      var ps := RunCreditItems(products, o.items);
      ps := RunCreditChoices(ps, AllChoices(o.items));
      products := ps;
      orders := orders[..i] + orders[i + 1..];
      out := Deleted(o.number, SumQuantities(o.items));
      assert (State(), out) == DeleteAt(db, i);
    }

    /** `configurar_combo` (POST). */
    method ConfigureCombo(tenant: TenantId, productId: Option<ProductId>, reqs: seq<SlotRequest>)
      returns (out: ConfigureOutcome)
      requires Valid()
      modifies this
      ensures State() == ConfigureComboSpec(old(State()), tenant, productId, reqs).0
      ensures out == ConfigureComboSpec(old(State()), tenant, productId, reqs).1
      ensures Valid()
    {
      ghost var db := State();
      ConfigurePreservesValid(db, tenant, productId, reqs);
      if productId.None? {
        return ConfigureFailed(NoProductId);
      }
      var pid := productId.value;
      if pid !in products || products[pid].tenant != tenant {
        return ConfigureFailed(NoSuchProduct);
      }
      var current := if pid in combos then combos[pid] else [];
      if AnySlotChosen(orders, current) {
        combos := combos[pid := current];
        return ConfigureFailed(SlotInUse);
      }
      var b, err := RunSlots(products, nextSlotId, reqs);
      combos := combos[pid := b.slots];
      nextSlotId := b.next;
      out := if err.None? then Configured(pid) else ConfigureFailed(err.value);
      assert (State(), out) == ConfigureAt(db, pid, reqs);
    }

    /** `adicionar_combo_pedido`: validates the picks and describes the cart
      line; the store is not changed. */
    method AddComboToOrder(tenant: TenantId, combo: ProductId, picks: seq<Pick>) returns (out: AddOutcome)
      ensures out == AddComboSpec(State(), tenant, combo, picks)
    {
      if combo !in combos || combo !in products || products[combo].tenant != tenant {
        return AddFailed(ComboNotFound);
      }
      if |picks| != |combos[combo]| {
        return AddFailed(SlotsNotFilled);
      }
      var why := RunCheckPicks(State(), picks);
      if why.Some? {
        return AddFailed(why.value);
      }
      var ds := RunDetails(State(), picks);
      return ComboAdded(ComboLine(combo, products[combo].price, ds));
    }

    /** `alterar_status_pedido`. */
    method ChangeStatus(tenant: TenantId, orderId: Option<OrderId>, status: Option<string>) returns (out: StatusOutcome)
      requires Valid()
      modifies this
      ensures State() == ChangeStatusSpec(old(State()), tenant, orderId, status).0
      ensures out == ChangeStatusSpec(old(State()), tenant, orderId, status).1
      ensures Valid()
    {
      ChangeStatusPreservesValid(State(), tenant, orderId, status);
      if status.None? || ParseStatus(status.value).None? {
        return StatusRefused(BadStatus);
      }
      if orderId.None? {
        return StatusRefused(NoSuchOrder);
      }
      var found := FindOrder(orders, orderId.value, tenant);
      if found.None? {
        return StatusRefused(NoSuchOrder);
      }
      var i := found.value;
      var o := orders[i];
      orders := orders[i := o.(status := ParseStatus(status.value).value, number := SaveNumber(orders, o.tenant, o.number))];
      out := StatusChanged;
    }

    /** `criar_categoria`. */
    method CreateCategory(tenant: TenantId, name: Option<string>) returns (out: CategoryOutcome)
      requires Valid()
      modifies this
      ensures State() == CreateCategorySpec(old(State()), tenant, name).0
      ensures out == CreateCategorySpec(old(State()), tenant, name).1
      ensures Valid()
    {
      CreateCategoryPreservesValid(State(), tenant, name);
      var n := Trim(PythonStr, name.GetOr(""));
      if n == "" {
        return CategoryRefused(NameRequired);
      }
      if NameUsed(categories, tenant, n, None) {
        return CategoryRefused(NameTaken);
      }
      var id := nextCategoryId;
      categories := categories[id := Category(tenant, n, false, true)];
      nextCategoryId := id + 1;
      out := CategorySaved(id);
    }

    /** `editar_categoria`. */
    method EditCategory(tenant: TenantId, id: CategoryId, name: Option<string>) returns (out: CategoryOutcome)
      requires Valid()
      modifies this
      ensures State() == EditCategorySpec(old(State()), tenant, id, name).0
      ensures out == EditCategorySpec(old(State()), tenant, id, name).1
      ensures Valid()
    {
      EditCategoryPreservesValid(State(), tenant, id, name);
      if id !in categories || categories[id].tenant != tenant {
        return CategoryRefused(NoSuchCategory);
      }
      if categories[id].isSystem {
        return CategoryRefused(SystemCategory);
      }
      if name.Some? {
        var n := Trim(PythonStr, name.value);
        if n == "" {
          return CategoryRefused(NameRequired);
        }
        if NameUsed(categories, tenant, n, Some(id)) {
          return CategoryRefused(NameTaken);
        }
        categories := categories[id := categories[id].(name := n)];
      }
      out := CategorySaved(id);
    }

    /** `excluir_categoria`. */
    method DeleteCategory(tenant: TenantId, id: CategoryId) returns (out: CategoryOutcome)
      requires Valid()
      modifies this
      ensures State() == DeleteCategorySpec(old(State()), tenant, id).0
      ensures out == DeleteCategorySpec(old(State()), tenant, id).1
      ensures Valid()
    {
      DeleteCategoryPreservesValid(State(), tenant, id);
      if id !in categories || categories[id].tenant != tenant {
        return CategoryRefused(NoSuchCategory);
      }
      if categories[id].isSystem {
        return CategoryRefused(SystemCategory);
      }
      if CategoryUsed(products, tenant, id) {
        return CategoryRefused(CategoryInUse);
      }
      categories := categories - {id};
      products := Unfile(products, id);
      out := CategoryDeleted;
    }

    /** `excluir_produto`: each refusal is checked before anything is
      deleted, except the last one, which comes after the combo is gone. */
    method DeleteProduct(tenant: TenantId, pid: ProductId) returns (out: ProductOutcome)
      requires Valid()
      modifies this
      ensures State() == DeleteProductSpec(old(State()), tenant, pid).0
      ensures out == DeleteProductSpec(old(State()), tenant, pid).1
      ensures Valid()
    {
      ghost var db := State();
      DeleteProductPreservesValid(db, tenant, pid);
      if pid !in products || products[pid].tenant != tenant {
        return ProductRefused(MissingProduct);
      }
      if InActiveOrder(orders, pid) {
        return ProductRefused(SoldInActiveOrder);
      }
      if InSomeSlot(combos, pid) {
        return ProductRefused(OfferedInSlot);
      }
      if pid in combos {
        var ids := SlotIds(combos[pid]);
        if ActiveChoiceOn(orders, ids) {
          return ProductRefused(ComboChosenInActiveOrder);
        }
        orders := DropChoicesOn(orders, ids);
        combos := combos - {pid};
      }
      if Chosen(orders, pid) {
        return ProductRefused(ChosenInOrder);
      }
      products := products - {pid};
      orders := DropItemsOf(orders, pid);
      out := ProductDeleted;
    }

    /** `criar_pedido_autoatendimento`. */
    method KioskOrder(post: bool, tenant: TenantId, customer: Option<string>, reqs: seq<ItemRequest>)
      returns (out: KioskOutcome)
      requires Valid()
      modifies this
      ensures State() == KioskOrderSpec(old(State()), post, tenant, customer, reqs).0
      ensures out == KioskOrderSpec(old(State()), post, tenant, customer, reqs).1
      ensures Valid()
    {
      KioskPreservesValid(State(), post, tenant, customer, reqs);
      if !post {
        return KioskRefused;
      }
      if tenant !in tenants {
        return KioskCrashed;
      }
      var number := SaveNumber(orders, tenant, "");
      if NumberTaken(orders, number) {
        return KioskCrashed;
      }
      var items, ok := RunBuildItems(products, reqs);
      var o := Order(nextOrderId, tenant, number, "autoatendimento", Pendente, customer.GetOr("Cliente"), "",
                     items, if ok then SumSubtotals(items) else 0);
      orders := orders + [o];
      nextOrderId := nextOrderId + 1;
      out := if ok then KioskCreated(o.id, number) else KioskCrashed;
    }

    /** `atualizar_status_pedido` of the kitchen. */
    method KitchenUpdateStatus(post: bool, tenant: TenantId, id: OrderId, status: Option<string>)
      returns (out: KitchenOutcome)
      requires Valid()
      modifies this
      ensures State() == UpdateStatusSpec(old(State()), post, tenant, id, status).0
      ensures out == UpdateStatusSpec(old(State()), post, tenant, id, status).1
      ensures Valid()
    {
      UpdateStatusPreservesValid(State(), post, tenant, id, status);
      if !post {
        return KitchenRefused;
      }
      var found := FindOrder(orders, id, tenant);
      if found.None? {
        return KitchenNotFound;
      }
      if status.None? || ParseStatus(status.value).None? {
        return KitchenRefused;
      }
      var i := found.value;
      var o := orders[i];
      orders := orders[i := o.(status := ParseStatus(status.value).value, number := SaveNumber(orders, o.tenant, o.number))];
      out := KitchenUpdated(status.value);
    }
  }
}
