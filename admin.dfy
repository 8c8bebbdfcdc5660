/** The smaller views of the cashier: the dashboard's role gate,
    `alterar_status_pedido`, and the category and product administration.
    None of these views loops: each is a sequence of lookups, guards and
    bulk ORM updates, so each is a function of the store. */
module AdminSpec {
  import opened Common
  import opened Models
  import opened OrderSpec

  // ---------- caixa_dashboard: role gating ----------

  /** `Usuario.TIPO_USUARIO`. */
  datatype Role = Admin | Cashier | Kitchen | Manager

  datatype Access = ShowTab(tab: string) | ToKitchen | ToNewOrder

  /** The two access checks at the top of `caixa_dashboard`: the kitchen is
      sent to its own dashboard, a cashier asking for the settings or users
      tab is sent to the new-order tab, everyone else sees the tab asked for. */
  function DashboardAccess(role: Role, tab: string): (r: Access)
    ensures r == ToKitchen <==> role == Kitchen
    ensures r == ToNewOrder <==> role == Cashier && (tab == "configuracoes" || tab == "usuarios")
    ensures r.ShowTab? ==> r.tab == tab
  {
    if role == Kitchen then ToKitchen
    else if role == Cashier && (tab == "configuracoes" || tab == "usuarios") then ToNewOrder
    else ShowTab(tab)
  }

  // ---------- alterar_status_pedido ----------

  datatype StatusReason = BadStatus | NoSuchOrder
  datatype StatusOutcome = StatusChanged | StatusRefused(why: StatusReason)

  /** `pedido.status = novo; pedido.save()`: `save` renumbers only an order
      without a number. */
  function SetStatus(db: Db, i: nat, st: Status): (r: Db)
    requires i < |db.orders|
    ensures r == db.(orders := r.orders) && |r.orders| == |db.orders|
  {
    var o := db.orders[i];
    db.(orders := db.orders[i := o.(status := st, number := SaveNumber(db.orders, o.tenant, o.number))])
  }

  /** For a numbered order, setting the status changes that field of that
      order and nothing else. */
  lemma SetStatusOnly(db: Db, i: nat, st: Status)
    requires i < |db.orders| && db.orders[i].number != []
    ensures SetStatus(db, i, st) == db.(orders := db.orders[i := db.orders[i].(status := st)])
  {
  }

  lemma SetStatusPreservesValid(db: Db, i: nat, st: Status)
    requires ValidDb(db) && i < |db.orders|
    ensures ValidDb(SetStatus(db, i, st))
  {
    var o := db.orders[i];
    SetStatusOnly(db, i, st);
    assert ItemsWellFormed(o.items);
    ReplaceOrderWellFormed(db.orders, db.nextOrderId, i, o.(status := st));
    ValidWithOrders(db, db.orders[i := o.(status := st)]);
  }

  /** `alterar_status_pedido`: the status is checked against the five known
      values before the order is looked up in the caller's tenant. */
  function ChangeStatusSpec(db: Db, tenant: TenantId, orderId: Option<OrderId>, status: Option<string>): (r: (Db, StatusOutcome))
    ensures r.1 == StatusRefused(BadStatus) <==> status.None? || ParseStatus(status.value).None?
    ensures r.1 == StatusChanged <==>
            && status.Some? && ParseStatus(status.value).Some?
            && orderId.Some? && FindOrder(db.orders, orderId.value, tenant).Some?
    ensures r.1.StatusRefused? ==> r.0 == db
    ensures r.0 == db.(orders := r.0.orders) && |r.0.orders| == |db.orders|
  {
    if status.None? || ParseStatus(status.value).None? then (db, StatusRefused(BadStatus))
    else if orderId.None? then (db, StatusRefused(NoSuchOrder))
    else match FindOrder(db.orders, orderId.value, tenant)
      case None => (db, StatusRefused(NoSuchOrder))
      case Some(i) => (SetStatus(db, i, ParseStatus(status.value).value), StatusChanged)
  }

  lemma ParseName(s: Status)
    ensures ParseStatus(StatusName(s)) == Some(s)
  {
  }

  /** There is no transition guard: from whatever status the order has, any
      of the five may be set, and only that order's status changes. */
  lemma AnyStatusMayFollow(db: Db, tenant: TenantId, id: OrderId, st: Status)
    requires FindOrder(db.orders, id, tenant).Some?
    requires Numbered(db.orders)
    ensures var i := FindOrder(db.orders, id, tenant).value;
            ChangeStatusSpec(db, tenant, Some(id), Some(StatusName(st))) ==
            (db.(orders := db.orders[i := db.orders[i].(status := st)]), StatusChanged)
  {
    var i := FindOrder(db.orders, id, tenant).value;
    ParseName(st);
    SetStatusOnly(db, i, st);
  }

  lemma ChangeStatusPreservesValid(db: Db, tenant: TenantId, orderId: Option<OrderId>, status: Option<string>)
    requires ValidDb(db)
    ensures ValidDb(ChangeStatusSpec(db, tenant, orderId, status).0)
  {
    if status.Some? && ParseStatus(status.value).Some? && orderId.Some? {
      var found := FindOrder(db.orders, orderId.value, tenant);
      if found.Some? {
        SetStatusPreservesValid(db, found.value, ParseStatus(status.value).value);
      }
    }
  }

  // ---------- criar_categoria, editar_categoria, excluir_categoria ----------

  datatype CategoryReason = NameRequired | NameTaken | NoSuchCategory | SystemCategory | CategoryInUse
  datatype CategoryOutcome = CategorySaved(id: CategoryId) | CategoryDeleted | CategoryRefused(why: CategoryReason)

  /** Another category of the tenant (other than `except`) already has this exact name. */
  predicate NameUsed(categories: map<CategoryId, Category>, tenant: TenantId, name: string, except: Option<CategoryId>) {
    exists c :: c in categories && categories[c].tenant == tenant && categories[c].name == name && Some(c) != except
  }

  /** No two categories of one tenant share a name. */
  predicate NamesUnique(categories: map<CategoryId, Category>) {
    forall a, b :: a in categories && b in categories && a != b && categories[a].tenant == categories[b].tenant
      ==> categories[a].name != categories[b].name
  }

  predicate IdsFresh(db: Db) {
    forall c :: c in db.categories ==> c < db.nextCategoryId
  }

  /** `criar_categoria`: the name (absent means empty) is stripped, must be
      non-empty and not used by another category of the tenant; the new
      category is active and not a system one. */
  function CreateCategorySpec(db: Db, tenant: TenantId, name: Option<string>): (r: (Db, CategoryOutcome))
    ensures r.1.CategorySaved? <==>
            !Blank(PythonStr, name.GetOr("")) && !NameUsed(db.categories, tenant, Trim(PythonStr, name.GetOr("")), None)
    ensures r.1.CategoryRefused? ==> r.0 == db
    ensures r.1.CategorySaved? ==>
            && r.1.id == db.nextCategoryId
            && r.0 == db.(categories := db.categories[r.1.id := Category(tenant, Trim(PythonStr, name.GetOr("")), false, true)],
                          nextCategoryId := db.nextCategoryId + 1)
  {
    var n := Trim(PythonStr, name.GetOr(""));
    if n == "" then (db, CategoryRefused(NameRequired))
    else if NameUsed(db.categories, tenant, n, None) then (db, CategoryRefused(NameTaken))
    else
      var id := db.nextCategoryId;
      (db.(categories := db.categories[id := Category(tenant, n, false, true)], nextCategoryId := id + 1), CategorySaved(id))
  }

  /** `editar_categoria`: a missing name key leaves the name as it is (the
      save still succeeds); a present one is stripped and checked like a new
      name, ignoring the category itself. System categories are never edited. */
  function EditCategorySpec(db: Db, tenant: TenantId, id: CategoryId, name: Option<string>): (r: (Db, CategoryOutcome))
    ensures r.1.CategorySaved? <==>
            && id in db.categories && db.categories[id].tenant == tenant && !db.categories[id].isSystem
            && (name.Some? ==> !Blank(PythonStr, name.value) && !NameUsed(db.categories, tenant, Trim(PythonStr, name.value), Some(id)))
    ensures r.1.CategorySaved? ==> r.1.id == id
    ensures r.1.CategoryRefused? || name.None? ==> r.0 == db
    ensures r.1.CategorySaved? && name.Some? ==>
            r.0 == db.(categories := db.categories[id := db.categories[id].(name := Trim(PythonStr, name.value))])
  {
    if id !in db.categories || db.categories[id].tenant != tenant then (db, CategoryRefused(NoSuchCategory))
    else if db.categories[id].isSystem then (db, CategoryRefused(SystemCategory))
    else if name.None? then (db, CategorySaved(id))
    else
      var n := Trim(PythonStr, name.value);
      if n == "" then (db, CategoryRefused(NameRequired))
      else if NameUsed(db.categories, tenant, n, Some(id)) then (db, CategoryRefused(NameTaken))
      else (db.(categories := db.categories[id := db.categories[id].(name := n)]), CategorySaved(id))
  }

  /** Some product of the tenant is filed under the category. */
  predicate CategoryUsed(products: map<ProductId, Product>, tenant: TenantId, id: CategoryId) {
    exists p :: p in products && products[p].tenant == tenant && products[p].category == Some(id)
  }

  /** `on_delete=SET_NULL`: products still filed under a deleted category
      (another tenant's) lose their category. */
  function Unfile(products: map<ProductId, Product>, id: CategoryId): map<ProductId, Product> {
    map p | p in products :: if products[p].category == Some(id) then products[p].(category := None) else products[p]
  }

  /** `excluir_categoria`: system categories and categories the tenant's
      products use are kept; otherwise the row is deleted. */
  function DeleteCategorySpec(db: Db, tenant: TenantId, id: CategoryId): (r: (Db, CategoryOutcome))
    ensures r.1 == CategoryDeleted <==>
            id in db.categories && db.categories[id].tenant == tenant && !db.categories[id].isSystem
            && !CategoryUsed(db.products, tenant, id)
    ensures r.1 != CategoryDeleted ==> r.0 == db
    ensures r.1 == CategoryDeleted ==> r.0 == db.(categories := db.categories - {id}, products := r.0.products)
  {
    if id !in db.categories || db.categories[id].tenant != tenant then (db, CategoryRefused(NoSuchCategory))
    else if db.categories[id].isSystem then (db, CategoryRefused(SystemCategory))
    else if CategoryUsed(db.products, tenant, id) then (db, CategoryRefused(CategoryInUse))
    else (db.(categories := db.categories - {id}, products := Unfile(db.products, id)), CategoryDeleted)
  }

  /** After a deletion no product points at the category; every product
      keeps its stock, price and other fields; the tenant's own products are
      untouched. */
  lemma DeleteCategoryUnfiles(db: Db, tenant: TenantId, id: CategoryId)
    requires DeleteCategorySpec(db, tenant, id).1 == CategoryDeleted
    ensures var ps := DeleteCategorySpec(db, tenant, id).0.products;
            && ps.Keys == db.products.Keys
            && (forall p :: p in ps ==> ps[p].category != Some(id) && ps[p] == db.products[p].(category := ps[p].category))
            && (forall p :: p in ps && db.products[p].tenant == tenant ==> ps[p] == db.products[p])
  {
  }

  lemma CreateCategoryKeepsNamesUnique(db: Db, tenant: TenantId, name: Option<string>)
    requires NamesUnique(db.categories) && IdsFresh(db)
    ensures NamesUnique(CreateCategorySpec(db, tenant, name).0.categories)
    ensures IdsFresh(CreateCategorySpec(db, tenant, name).0)
  {
    var r := CreateCategorySpec(db, tenant, name);
    if r.1.CategorySaved? {
      var cs := r.0.categories;
      forall a, b | a in cs && b in cs && a != b && cs[a].tenant == cs[b].tenant
        ensures cs[a].name != cs[b].name
      {
        if a == r.1.id {
          assert !(b in db.categories && db.categories[b].tenant == tenant && db.categories[b].name == cs[a].name && Some(b) != None);
        } else if b == r.1.id {
          assert !(a in db.categories && db.categories[a].tenant == tenant && db.categories[a].name == cs[b].name && Some(a) != None);
        }
      }
    }
  }

  lemma EditCategoryKeepsNamesUnique(db: Db, tenant: TenantId, id: CategoryId, name: Option<string>)
    requires NamesUnique(db.categories)
    ensures NamesUnique(EditCategorySpec(db, tenant, id, name).0.categories)
  {
    var r := EditCategorySpec(db, tenant, id, name);
    if r.1.CategorySaved? && name.Some? {
      var cs := r.0.categories;
      forall a, b | a in cs && b in cs && a != b && cs[a].tenant == cs[b].tenant
        ensures cs[a].name != cs[b].name
      {
        if a == id {
          assert !(b in db.categories && db.categories[b].tenant == tenant && db.categories[b].name == cs[a].name && Some(b) != Some(id));
        } else if b == id {
          assert !(a in db.categories && db.categories[a].tenant == tenant && db.categories[a].name == cs[b].name && Some(a) != Some(id));
        }
      }
    }
  }

  /** Every product's category, when it has one, exists. */
  predicate CategoriesResolve(db: Db) {
    forall p :: p in db.products && db.products[p].category.Some? ==> db.products[p].category.value in db.categories
  }

  /** A category created and deleted at once leaves only the spent id behind. */
  lemma CreateThenDeleteCategory(db: Db, tenant: TenantId, name: Option<string>)
    requires IdsFresh(db) && CategoriesResolve(db)
    requires CreateCategorySpec(db, tenant, name).1.CategorySaved?
    ensures var (db1, out) := CreateCategorySpec(db, tenant, name);
            DeleteCategorySpec(db1, tenant, out.id) == (db.(nextCategoryId := db.nextCategoryId + 1), CategoryDeleted)
  {
    var (db1, out) := CreateCategorySpec(db, tenant, name);
    var id := out.id;
    assert id !in db.categories;
    assert !CategoryUsed(db1.products, tenant, id);
    assert forall p :: p in db.products ==> db.products[p].category != Some(id);
    assert Unfile(db1.products, id) == db.products;
    assert db1.categories - {id} == db.categories;
  }

  /** The store invariant constrains category ids only by the counter, and
      not the products at all. */
  lemma ValidWithCatalog(db: Db, categories: map<CategoryId, Category>, next: CategoryId, products: map<ProductId, Product>)
    requires ValidDb(db) && forall c :: c in categories ==> c < next
    ensures ValidDb(db.(categories := categories, nextCategoryId := next, products := products))
  {
  }

  lemma CreateCategoryPreservesValid(db: Db, tenant: TenantId, name: Option<string>)
    requires ValidDb(db)
    ensures ValidDb(CreateCategorySpec(db, tenant, name).0)
  {
    var r := CreateCategorySpec(db, tenant, name).0;
    ValidWithCatalog(db, r.categories, r.nextCategoryId, r.products);
    assert r == db.(categories := r.categories, nextCategoryId := r.nextCategoryId, products := r.products);
  }

  lemma EditCategoryPreservesValid(db: Db, tenant: TenantId, id: CategoryId, name: Option<string>)
    requires ValidDb(db)
    ensures ValidDb(EditCategorySpec(db, tenant, id, name).0)
  {
    var r := EditCategorySpec(db, tenant, id, name).0;
    ValidWithCatalog(db, r.categories, r.nextCategoryId, r.products);
    assert r == db.(categories := r.categories, nextCategoryId := r.nextCategoryId, products := r.products);
  }

  lemma DeleteCategoryPreservesValid(db: Db, tenant: TenantId, id: CategoryId)
    requires ValidDb(db)
    ensures ValidDb(DeleteCategorySpec(db, tenant, id).0)
  {
    var r := DeleteCategorySpec(db, tenant, id).0;
    ValidWithCatalog(db, r.categories, r.nextCategoryId, r.products);
    assert r == db.(categories := r.categories, nextCategoryId := r.nextCategoryId, products := r.products);
  }

  // ---------- excluir_produto ----------

  datatype ProductReason = MissingProduct | SoldInActiveOrder | OfferedInSlot | ComboChosenInActiveOrder | ChosenInOrder
  datatype ProductOutcome = ProductDeleted | ProductRefused(why: ProductReason)

  /** Some item of an active order, of any tenant, sells the product. */
  predicate InActiveOrder(orders: seq<Order>, pid: ProductId) {
    exists i, k :: 0 <= i < |orders| && IsActive(orders[i].status) && 0 <= k < |orders[i].items|
                   && orders[i].items[k].product == pid
  }

  /** Some slot of some combo, of any tenant, offers the product. */
  predicate InSomeSlot(combos: map<ProductId, seq<Slot>>, pid: ProductId) {
    exists p, k, m :: p in combos && 0 <= k < |combos[p]| && 0 <= m < |combos[p][k].items|
                      && combos[p][k].items[m].product == pid
  }

  function SlotIds(slots: seq<Slot>): set<SlotId> {
    set k | 0 <= k < |slots| :: slots[k].id
  }

  /** An active order holds a choice made on one of the slots. */
  predicate ActiveChoiceOn(orders: seq<Order>, ids: set<SlotId>) {
    exists i, k, j :: 0 <= i < |orders| && IsActive(orders[i].status) && 0 <= k < |orders[i].items|
                      && 0 <= j < |orders[i].items[k].choices| && orders[i].items[k].choices[j].slot in ids
  }

  /** Some recorded choice names the product (`produto_escolhido` is PROTECT). */
  predicate Chosen(orders: seq<Order>, pid: ProductId) {
    exists i, k, j :: 0 <= i < |orders| && 0 <= k < |orders[i].items|
                      && 0 <= j < |orders[i].items[k].choices| && orders[i].items[k].choices[j].product == pid
  }

  /** The choices not made on any of the slots, in order. */
  function ChoicesOff(cs: seq<Choice>, ids: set<SlotId>): (r: seq<Choice>)
    ensures forall j :: 0 <= j < |r| ==> r[j] in cs && r[j].slot !in ids
    ensures forall j :: 0 <= j < |cs| && cs[j].slot !in ids ==> cs[j] in r
    ensures |r| <= |cs|
    ensures (forall j :: 0 <= j < |cs| ==> cs[j].slot !in ids) ==> r == cs
    decreases |cs|
  {
    if cs == [] then []
    else
      var rest := ChoicesOff(cs[1..], ids);
      assert forall j :: 1 <= j < |cs| ==> cs[1..][j - 1] == cs[j];
      (if cs[0].slot in ids then [] else [cs[0]]) + rest
  }

  function ItemChoicesOff(it: Item, ids: set<SlotId>): Item {
    it.(choices := ChoicesOff(it.choices, ids))
  }

  function OrderChoicesOff(o: Order, ids: set<SlotId>): Order {
    o.(items := seq(|o.items|, k requires 0 <= k < |o.items| => ItemChoicesOff(o.items[k], ids)))
  }

  /** `PedidoComboEscolha.objects.filter(slot__combo=combo).delete()`. */
  function DropChoicesOn(orders: seq<Order>, ids: set<SlotId>): seq<Order> {
    seq(|orders|, i requires 0 <= i < |orders| => OrderChoicesOff(orders[i], ids))
  }

  /** The items not selling the product, in order. */
  function ItemsWithout(items: seq<Item>, pid: ProductId): (r: seq<Item>)
    ensures forall k :: 0 <= k < |r| ==> r[k] in items && r[k].product != pid
    ensures forall k :: 0 <= k < |items| && items[k].product != pid ==> items[k] in r
    ensures |r| <= |items|
    ensures (forall k :: 0 <= k < |items| ==> items[k].product != pid) ==> r == items
    decreases |items|
  {
    if items == [] then []
    else
      var rest := ItemsWithout(items[1..], pid);
      assert forall k :: 1 <= k < |items| ==> items[1..][k - 1] == items[k];
      (if items[0].product == pid then [] else [items[0]]) + rest
  }

  /** Removing choices works piecewise: the choices kept keep their order. */
  lemma {:induction false} ChoicesOffConcat(a: seq<Choice>, b: seq<Choice>, ids: set<SlotId>)
    ensures ChoicesOff(a + b, ids) == ChoicesOff(a, ids) + ChoicesOff(b, ids)
    decreases |a|
  {
    if a == [] {
      assert a + b == b;
    } else {
      assert (a + b)[1..] == a[1..] + b;
      ChoicesOffConcat(a[1..], b, ids);
    }
  }

  /** Removing no slots' choices changes no order. */
  lemma DropChoicesOnNothing(orders: seq<Order>)
    ensures DropChoicesOn(orders, {}) == orders
  {
    forall i | 0 <= i < |orders| ensures OrderChoicesOff(orders[i], {}) == orders[i] {
      var o := orders[i];
      assert o.(items := seq(|o.items|, k requires 0 <= k < |o.items| => ItemChoicesOff(o.items[k], {}))).items == o.items;
    }
  }

  /** Removing a product's items works piecewise: the items kept keep their
      order. */
  lemma {:induction false} ItemsWithoutConcat(a: seq<Item>, b: seq<Item>, pid: ProductId)
    ensures ItemsWithout(a + b, pid) == ItemsWithout(a, pid) + ItemsWithout(b, pid)
    decreases |a|
  {
    if a == [] {
      assert a + b == b;
    } else {
      assert (a + b)[1..] == a[1..] + b;
      ItemsWithoutConcat(a[1..], b, pid);
    }
  }

  /** `ItemPedido.produto` is CASCADE: deleting the product deletes its
      items, with their choices; order totals are not recomputed. */
  function DropItemsOf(orders: seq<Order>, pid: ProductId): seq<Order> {
    seq(|orders|, i requires 0 <= i < |orders| => orders[i].(items := ItemsWithout(orders[i].items, pid)))
  }

  /** Removing a product's combo: its choices in every order, then the combo
      with its slots. */
  function DropCombo(db: Db, pid: ProductId): (r: Db)
    requires pid in db.combos
  {
    db.(orders := DropChoicesOn(db.orders, SlotIds(db.combos[pid])), combos := db.combos - {pid})
  }

  /** `excluir_produto`. The steps are not atomic: when the final delete is
      refused because a remaining choice names the product, the combo and its
      choices are already gone. */
  function DeleteProductSpec(db: Db, tenant: TenantId, pid: ProductId): (r: (Db, ProductOutcome))
    ensures r.1.ProductRefused? && r.1.why != ChosenInOrder ==> r.0 == db
    ensures r.0 == db.(products := r.0.products, orders := r.0.orders, combos := r.0.combos)
    ensures r.1 == ProductDeleted ==> pid in db.products && r.0.products == db.products - {pid} && pid !in r.0.combos
  {
    if pid !in db.products || db.products[pid].tenant != tenant then (db, ProductRefused(MissingProduct))
    else if InActiveOrder(db.orders, pid) then (db, ProductRefused(SoldInActiveOrder))
    else if InSomeSlot(db.combos, pid) then (db, ProductRefused(OfferedInSlot))
    else if pid in db.combos && ActiveChoiceOn(db.orders, SlotIds(db.combos[pid])) then
      (db, ProductRefused(ComboChosenInActiveOrder))
    else
      var db1 := if pid in db.combos then DropCombo(db, pid) else db;
      if Chosen(db1.orders, pid) then (db1, ProductRefused(ChosenInOrder))
      else (db1.(products := db1.products - {pid}, orders := DropItemsOf(db1.orders, pid)), ProductDeleted)
  }

  /** A choice naming the product survives the removal of the slots `ids`. */
  predicate ChosenOutside(orders: seq<Order>, pid: ProductId, ids: set<SlotId>) {
    exists i, k, j :: 0 <= i < |orders| && 0 <= k < |orders[i].items| && 0 <= j < |orders[i].items[k].choices|
                      && orders[i].items[k].choices[j].product == pid && orders[i].items[k].choices[j].slot !in ids
  }

  /** The slots of the product's combo, if it is one. */
  function ComboSlotIds(db: Db, pid: ProductId): set<SlotId> {
    if pid in db.combos then SlotIds(db.combos[pid]) else {}
  }

  lemma ChosenAfterDrop(orders: seq<Order>, ids: set<SlotId>, pid: ProductId)
    ensures Chosen(DropChoicesOn(orders, ids), pid) <==> ChosenOutside(orders, pid, ids)
  {
    var d := DropChoicesOn(orders, ids);
    if Chosen(d, pid) {
      var i, k, j :| 0 <= i < |d| && 0 <= k < |d[i].items| && 0 <= j < |d[i].items[k].choices|
                     && d[i].items[k].choices[j].product == pid;
      var cs := orders[i].items[k].choices;
      var c := d[i].items[k].choices[j];
      assert c in cs;
      var j' :| 0 <= j' < |cs| && cs[j'] == c;
      assert orders[i].items[k].choices[j'].product == pid && orders[i].items[k].choices[j'].slot !in ids;
    }
    if ChosenOutside(orders, pid, ids) {
      var i, k, j :| 0 <= i < |orders| && 0 <= k < |orders[i].items| && 0 <= j < |orders[i].items[k].choices|
                     && orders[i].items[k].choices[j].product == pid && orders[i].items[k].choices[j].slot !in ids;
      var cs := d[i].items[k].choices;
      var c := orders[i].items[k].choices[j];
      assert c in cs;
      var j' :| 0 <= j' < |cs| && cs[j'] == c;
      assert d[i].items[k].choices[j'].product == pid;
    }
  }

  lemma ChosenWithoutCombo(orders: seq<Order>, pid: ProductId)
    ensures Chosen(orders, pid) <==> ChosenOutside(orders, pid, {})
  {
  }

  /** A product is deleted exactly when it belongs to the tenant, no active
      order sells it, no slot offers it, no active order chose on its combo's
      slots, and no choice outside those slots names it. */
  lemma DeleteProductWhen(db: Db, tenant: TenantId, pid: ProductId)
    ensures DeleteProductSpec(db, tenant, pid).1 == ProductDeleted <==>
            && pid in db.products && db.products[pid].tenant == tenant
            && !InActiveOrder(db.orders, pid) && !InSomeSlot(db.combos, pid)
            && !(pid in db.combos && ActiveChoiceOn(db.orders, SlotIds(db.combos[pid])))
            && !ChosenOutside(db.orders, pid, ComboSlotIds(db, pid))
  {
    if pid in db.combos {
      ChosenAfterDrop(db.orders, SlotIds(db.combos[pid]), pid);
    } else {
      ChosenWithoutCombo(db.orders, pid);
    }
  }

  /** A refusal at the last step comes after the combo was removed: the
      product stays, its combo and the choices on its slots do not. */
  lemma RefusedAfterComboGone(db: Db, tenant: TenantId, pid: ProductId)
    requires DeleteProductSpec(db, tenant, pid).1 == ProductRefused(ChosenInOrder)
    requires pid in db.combos
    ensures var r := DeleteProductSpec(db, tenant, pid).0;
            && r.products == db.products && pid in r.products
            && r.combos == db.combos - {pid}
            && r.orders == DropChoicesOn(db.orders, SlotIds(db.combos[pid]))
  {
  }

  /** Every row a product, a choice or a slot item refers to exists. */
  predicate RefsIntact(db: Db) {
    && (forall i, k :: 0 <= i < |db.orders| && 0 <= k < |db.orders[i].items| ==> db.orders[i].items[k].product in db.products)
    && (forall i, k, j :: 0 <= i < |db.orders| && 0 <= k < |db.orders[i].items| && 0 <= j < |db.orders[i].items[k].choices|
          ==> db.orders[i].items[k].choices[j].product in db.products
              && SlotExists(db.combos, db.orders[i].items[k].choices[j].slot))
    && (forall p, k, m :: p in db.combos && 0 <= k < |db.combos[p]| && 0 <= m < |db.combos[p][k].items|
          ==> db.combos[p][k].items[m].product in db.products)
  }

  /** The store after a successful delete: the product and its combo are
      gone, every order keeps its header (number, status, total), and each
      order keeps exactly its items not selling the product, in order, each
      with its choices except those on the combo's slots; no item or choice
      names the product any more. */
  lemma DeleteProductEffect(db: Db, tenant: TenantId, pid: ProductId)
    requires DeleteProductSpec(db, tenant, pid).1 == ProductDeleted
    ensures var r := DeleteProductSpec(db, tenant, pid).0;
            && r.products == db.products - {pid}
            && r.combos == db.combos - {pid}
            && |r.orders| == |db.orders|
            && (forall i :: 0 <= i < |r.orders| ==> r.orders[i] == db.orders[i].(items := r.orders[i].items))
            && (forall i :: 0 <= i < |r.orders| ==>
                  r.orders[i].items == ItemsWithout(DropChoicesOn(db.orders, ComboSlotIds(db, pid))[i].items, pid))
            && (forall i, k :: 0 <= i < |db.orders| && 0 <= k < |db.orders[i].items| && db.orders[i].items[k].product != pid
                  ==> ItemChoicesOff(db.orders[i].items[k], ComboSlotIds(db, pid)) in r.orders[i].items)
            && (forall i, k :: 0 <= i < |r.orders| && 0 <= k < |r.orders[i].items| ==> r.orders[i].items[k].product != pid)
            && !Chosen(r.orders, pid)
  {
    var db1 := if pid in db.combos then DropCombo(db, pid) else db;
    assert pid !in db.combos ==> db.combos - {pid} == db.combos;
    if pid !in db.combos {
      DropChoicesOnNothing(db.orders);
    }
    assert db1.orders == DropChoicesOn(db.orders, ComboSlotIds(db, pid));
    var r := DeleteProductSpec(db, tenant, pid).0;
    assert r.orders == DropItemsOf(db1.orders, pid);
    forall i, k | 0 <= i < |db.orders| && 0 <= k < |db.orders[i].items| && db.orders[i].items[k].product != pid
      ensures ItemChoicesOff(db.orders[i].items[k], ComboSlotIds(db, pid)) in r.orders[i].items
    {
      assert db1.orders[i].items[k] == ItemChoicesOff(db.orders[i].items[k], ComboSlotIds(db, pid));
    }
    DropItemsNotChosen(db1.orders, pid);
  }

  /** Dropping a product's items cannot make it chosen. */
  lemma DropItemsNotChosen(orders: seq<Order>, pid: ProductId)
    requires !Chosen(orders, pid)
    ensures !Chosen(DropItemsOf(orders, pid), pid)
  {
  }

  /** Where a kept item came from. */
  lemma KeptItem(items: seq<Item>, pid: ProductId, k: nat) returns (k': nat)
    requires k < |ItemsWithout(items, pid)|
    ensures k' < |items| && items[k'] == ItemsWithout(items, pid)[k]
  {
    var it := ItemsWithout(items, pid)[k];
    assert it in items;
    k' :| 0 <= k' < |items| && items[k'] == it;
  }

  /** Where a kept choice came from. */
  lemma KeptChoice(cs: seq<Choice>, ids: set<SlotId>, j: nat) returns (j': nat)
    requires j < |ChoicesOff(cs, ids)|
    ensures j' < |cs| && cs[j'] == ChoicesOff(cs, ids)[j] && cs[j'].slot !in ids
  {
    var c := ChoicesOff(cs, ids)[j];
    assert c in cs;
    j' :| 0 <= j' < |cs| && cs[j'] == c;
  }

  lemma {:induction false} ChoicesOffOnePerSlot(cs: seq<Choice>, ids: set<SlotId>)
    requires ChoicesOnePerSlot(cs)
    ensures ChoicesOnePerSlot(ChoicesOff(cs, ids))
    decreases |cs|
  {
    if cs != [] {
      assert forall j :: 1 <= j < |cs| ==> cs[1..][j - 1] == cs[j];
      ChoicesOffOnePerSlot(cs[1..], ids);
      var rest := ChoicesOff(cs[1..], ids);
      forall j | 0 <= j < |rest| ensures rest[j].slot != cs[0].slot {
        var j' := KeptChoice(cs[1..], ids, j);
        assert rest[j] == cs[j' + 1];
      }
    }
  }

  /** Orders whose headers are unchanged and whose items are well formed
      keep the order invariant. */
  lemma SameHeadersWellFormed(orders: seq<Order>, orders': seq<Order>, next: OrderId)
    requires OrdersWellFormed(orders, next) && |orders'| == |orders|
    requires forall i :: 0 <= i < |orders| ==> orders'[i] == orders[i].(items := orders'[i].items)
    requires forall i :: 0 <= i < |orders| ==> ItemsWellFormed(orders'[i].items)
    ensures OrdersWellFormed(orders', next)
  {
  }

  lemma DropChoicesWellFormed(orders: seq<Order>, ids: set<SlotId>, next: OrderId)
    requires OrdersWellFormed(orders, next)
    ensures OrdersWellFormed(DropChoicesOn(orders, ids), next)
  {
    var d := DropChoicesOn(orders, ids);
    forall i | 0 <= i < |orders| ensures ItemsWellFormed(d[i].items) {
      forall k | 0 <= k < |d[i].items| ensures ItemWellFormed(d[i].items[k]) {
        assert ItemWellFormed(orders[i].items[k]);
        ChoicesOffOnePerSlot(orders[i].items[k].choices, ids);
      }
    }
    SameHeadersWellFormed(orders, d, next);
  }

  lemma DropItemsWellFormed(orders: seq<Order>, pid: ProductId, next: OrderId)
    requires OrdersWellFormed(orders, next)
    ensures OrdersWellFormed(DropItemsOf(orders, pid), next)
  {
    var d := DropItemsOf(orders, pid);
    forall i | 0 <= i < |orders| ensures ItemsWellFormed(d[i].items) {
      forall k | 0 <= k < |d[i].items| ensures ItemWellFormed(d[i].items[k]) {
        var k' := KeptItem(orders[i].items, pid, k);
        assert ItemWellFormed(orders[i].items[k']);
      }
    }
    SameHeadersWellFormed(orders, d, next);
  }

  lemma DeleteProductPreservesValid(db: Db, tenant: TenantId, pid: ProductId)
    requires ValidDb(db)
    ensures ValidDb(DeleteProductSpec(db, tenant, pid).0)
  {
    var r := DeleteProductSpec(db, tenant, pid).0;
    var db1 := if pid in db.combos then DropCombo(db, pid) else db;
    if pid in db.combos {
      DropChoicesWellFormed(db.orders, SlotIds(db.combos[pid]), db.nextOrderId);
    }
    assert OrdersWellFormed(db1.orders, db.nextOrderId);
    DropItemsWellFormed(db1.orders, pid, db.nextOrderId);
    assert OrdersWellFormed(r.orders, db.nextOrderId);
    assert CombosWellFormed(r.combos, db.nextSlotId);
  }

  /** Removing a combo keeps every reference valid: the choices that named
      its slots are removed with it, and slot ids name their slot. */
  lemma DropComboKeepsRefs(db: Db, pid: ProductId)
    requires RefsIntact(db) && pid in db.combos
    ensures RefsIntact(DropCombo(db, pid))
  {
    var ids := SlotIds(db.combos[pid]);
    var d := DropCombo(db, pid);
    forall i, k, j | 0 <= i < |d.orders| && 0 <= k < |d.orders[i].items| && 0 <= j < |d.orders[i].items[k].choices|
      ensures d.orders[i].items[k].choices[j].product in d.products
      ensures SlotExists(d.combos, d.orders[i].items[k].choices[j].slot)
    {
      assert d.orders[i].items[k].choices == ChoicesOff(db.orders[i].items[k].choices, ids);
      var j' := KeptChoice(db.orders[i].items[k].choices, ids, j);
      var c := db.orders[i].items[k].choices[j'];
      assert SlotExists(db.combos, c.slot);
      var p, m :| p in db.combos && 0 <= m < |db.combos[p]| && db.combos[p][m].id == c.slot;
      if p == pid {
        assert false;
      }
      assert p in d.combos && d.combos[p][m].id == c.slot;
    }
  }

  /** Deleting an unreferenced product and its items keeps every reference valid. */
  lemma DropProductKeepsRefs(db: Db, pid: ProductId)
    requires RefsIntact(db) && !Chosen(db.orders, pid) && !InSomeSlot(db.combos, pid)
    ensures RefsIntact(db.(products := db.products - {pid}, orders := DropItemsOf(db.orders, pid)))
  {
    var d := db.(products := db.products - {pid}, orders := DropItemsOf(db.orders, pid));
    forall i, k | 0 <= i < |d.orders| && 0 <= k < |d.orders[i].items|
      ensures d.orders[i].items[k].product in d.products
      ensures forall j :: 0 <= j < |d.orders[i].items[k].choices| ==>
                d.orders[i].items[k].choices[j].product in d.products
                && SlotExists(d.combos, d.orders[i].items[k].choices[j].slot)
    {
      var k' := KeptItem(db.orders[i].items, pid, k);
      assert d.orders[i].items[k] == db.orders[i].items[k'];
      forall j | 0 <= j < |d.orders[i].items[k].choices|
        ensures d.orders[i].items[k].choices[j].product != pid
      {
        assert db.orders[i].items[k'].choices[j] == d.orders[i].items[k].choices[j];
      }
    }
  }

  /** Whatever its outcome, deleting a product leaves no dangling reference. */
  lemma DeleteProductKeepsRefs(db: Db, tenant: TenantId, pid: ProductId)
    requires RefsIntact(db)
    ensures RefsIntact(DeleteProductSpec(db, tenant, pid).0)
  {
    var (r, out) := DeleteProductSpec(db, tenant, pid);
    if out == ProductDeleted || out == ProductRefused(ChosenInOrder) {
      var db1 := if pid in db.combos then DropCombo(db, pid) else db;
      if pid in db.combos {
        DropComboKeepsRefs(db, pid);
      }
      assert RefsIntact(db1);
      if out == ProductDeleted {
        assert !InSomeSlot(db1.combos, pid);
        DropProductKeepsRefs(db1, pid);
      }
    }
  }
}
