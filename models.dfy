/** The tables of the point-of-sale database as values: products,
    categories, orders with their items and combo choices, and combos with
    their slots. Prices are integer cents (`DecimalField(decimal_places=2)`),
    stock-debit amounts integer thousandths (`decimal_places=3`). */
module Models {
  import opened Common
  import opened Numbering

  type TenantId = int
  type ProductId = int
  type CategoryId = int
  type OrderId = int
  type SlotId = int

  /** `Pedido.STATUS_CHOICES`. */
  datatype Status = Pendente | Preparando | Pronto | Entregue | Cancelado

  function StatusName(s: Status): string {
    match s
    case Pendente => "pendente"
    case Preparando => "preparando"
    case Pronto => "pronto"
    case Entregue => "entregue"
    case Cancelado => "cancelado"
  }

  /** Membership in the keys of `dict(Pedido.STATUS_CHOICES)`. */
  function ParseStatus(s: string): (r: Option<Status>)
    ensures r.Some? <==> (s == "pendente" || s == "preparando" || s == "pronto" || s == "entregue" || s == "cancelado")
    ensures r.Some? ==> StatusName(r.value) == s
  {
    if s == "pendente" then Some(Pendente)
    else if s == "preparando" then Some(Preparando)
    else if s == "pronto" then Some(Pronto)
    else if s == "entregue" then Some(Entregue)
    else if s == "cancelado" then Some(Cancelado)
    else None
  }

  /** Orders the kitchen and the cashier still show: pending, preparing, ready. */
  predicate IsActive(s: Status) {
    s == Pendente || s == Preparando || s == Pronto
  }

  datatype Category = Category(tenant: TenantId, name: string, isSystem: bool, active: bool)

  datatype Product = Product(
    tenant: TenantId, name: string, category: Option<CategoryId>,
    price: int, stock: int, active: bool)

  /** `PedidoComboEscolha`: the product chosen for one slot and the debit recorded. */
  datatype Choice = Choice(slot: SlotId, product: ProductId, debit: int)

  /** `ItemPedido`. */
  datatype Item = Item(product: ProductId, quantity: int, unitPrice: int, subtotal: int, choices: seq<Choice>)

  /** `Pedido`. `number` is `numero_pedido`; `kind` is `tipo`. */
  datatype Order = Order(
    id: OrderId, tenant: TenantId, number: string, kind: string, status: Status,
    customer: string, payment: string, items: seq<Item>, total: int)

  /** `ComboSlotItem`: a product selectable in a slot and its stock debit. */
  datatype SlotItem = SlotItem(product: ProductId, debit: int)

  /** `ComboSlot`. */
  datatype Slot = Slot(id: SlotId, name: string, ordem: int, items: seq<SlotItem>)

  /** The whole store. Orders are kept in id (creation) order; `combos` maps a
      combo's product to its slots in creation order. */
  datatype Db = Db(
    products: map<ProductId, Product>,
    categories: map<CategoryId, Category>,
    orders: seq<Order>,
    combos: map<ProductId, seq<Slot>>,
    tenants: set<TenantId>,
    nextOrderId: OrderId,
    nextSlotId: SlotId,
    nextCategoryId: CategoryId)

  // ---------- ItemPedido.save ----------

  /** Saving an item always sets `subtotal = quantidade * preco_unitario`. */
  function SaveItem(product: ProductId, quantity: int, unitPrice: int): Item {
    Item(product, quantity, unitPrice, quantity * unitPrice, [])
  }

  predicate SubtotalRule(it: Item) {
    it.subtotal == it.quantity * it.unitPrice
  }

  function SumSubtotals(items: seq<Item>): int {
    if items == [] then 0 else SumSubtotals(items[..|items| - 1]) + items[|items| - 1].subtotal
  }

  function SumQuantities(items: seq<Item>): int {
    if items == [] then 0 else SumQuantities(items[..|items| - 1]) + items[|items| - 1].quantity
  }

  // ---------- Pedido.save: numbering ----------

  /** The tenant's order with the highest id, if any. */
  function LastOfTenant(orders: seq<Order>, tenant: TenantId): (r: Option<Order>)
    ensures r.Some? ==> r.value.tenant == tenant
    ensures r.Some? ==> exists i :: 0 <= i < |orders| && orders[i] == r.value
                                    && forall j :: i < j < |orders| ==> orders[j].tenant != tenant
    ensures r.None? <==> forall i :: 0 <= i < |orders| ==> orders[i].tenant != tenant
  {
    if orders == [] then None
    else if orders[|orders| - 1].tenant == tenant then Some(orders[|orders| - 1])
    else
      var r := LastOfTenant(orders[..|orders| - 1], tenant);
      assert forall i :: 0 <= i < |orders| - 1 ==> orders[..|orders| - 1][i] == orders[i];
      r
  }

  function NextNumberValue(orders: seq<Order>, tenant: TenantId): nat {
    match LastOfTenant(orders, tenant)
    case Some(o) => if o.number != "" then DigitsValue(o.number) + 1 else 1
    case None => 1
  }

  /** What `Pedido.save` leaves in `numero_pedido`: an empty number gets the
      next one of the tenant, an existing one is kept. */
  function SaveNumber(orders: seq<Order>, tenant: TenantId, current: string): (r: string)
    ensures current != "" ==> r == current
    ensures current == "" ==> AllDigits(r) && |r| >= 4 && DigitsValue(r) == NextNumberValue(orders, tenant)
  {
    if current == "" then FormatNumber(NextNumberValue(orders, tenant)) else current
  }

  /** `numero_pedido` is declared `unique=True`: across all tenants. */
  predicate NumberTaken(orders: seq<Order>, number: string) {
    exists i :: 0 <= i < |orders| && orders[i].number == number
  }

  // ---------- Combo ----------

  predicate SortedByOrdem(s: seq<Slot>) {
    forall i, j :: 0 <= i < j < |s| ==> s[i].ordem <= s[j].ordem
  }

  predicate StrictlyByOrdem(s: seq<Slot>) {
    forall i, j :: 0 <= i < j < |s| ==> s[i].ordem < s[j].ordem
  }

  /** `unique_together = [['combo', 'ordem']]`. */
  predicate OrdemsDistinct(s: seq<Slot>) {
    forall i, j :: 0 <= i < j < |s| ==> s[i].ordem != s[j].ordem
  }

  function InsertSlot(x: Slot, s: seq<Slot>): (r: seq<Slot>)
    requires SortedByOrdem(s)
    ensures SortedByOrdem(r)
    ensures |r| == |s| + 1 && (r[0] == x || (s != [] && r[0] == s[0]))
  {
    if s == [] || x.ordem <= s[0].ordem then
      [x] + s
    else
      var rest := InsertSlot(x, s[1..]);
      assert s[0].ordem <= rest[0].ordem;
      [s[0]] + rest
  }

  /** Inserting adds exactly the one slot. */
  lemma {:induction false} InsertSlotPerm(x: Slot, s: seq<Slot>)
    requires SortedByOrdem(s)
    ensures multiset(InsertSlot(x, s)) == multiset(s) + multiset{x}
  {
    if s != [] && x.ordem > s[0].ordem {
      InsertSlotPerm(x, s[1..]);
      assert s == [s[0]] + s[1..];
    }
  }

  /** `Combo.obter_slots_ordenados`: the slots by ascending `ordem`. */
  function SortSlots(s: seq<Slot>): (r: seq<Slot>)
    ensures SortedByOrdem(r)
    ensures multiset(r) == multiset(s)
    ensures |r| == |s|
  {
    if s == [] then []
    else
      assert s == [s[0]] + s[1..];
      InsertSlotPerm(s[0], SortSlots(s[1..]));
      InsertSlot(s[0], SortSlots(s[1..]))
  }

  lemma {:induction false} InsertSlotStrict(x: Slot, s: seq<Slot>)
    requires StrictlyByOrdem(s)
    requires forall k :: 0 <= k < |s| ==> s[k].ordem != x.ordem
    ensures StrictlyByOrdem(InsertSlot(x, s))
  {
    if s != [] && x.ordem > s[0].ordem {
      var rest := InsertSlot(x, s[1..]);
      InsertSlotStrict(x, s[1..]);
      assert s[0].ordem < rest[0].ordem;
    }
  }

  /** With distinct `ordem` values the sorted slots are strictly ascending. */
  lemma {:induction false} SortSlotsStrict(s: seq<Slot>)
    requires OrdemsDistinct(s)
    ensures StrictlyByOrdem(SortSlots(s))
  {
    if s != [] {
      var rest := SortSlots(s[1..]);
      SortSlotsStrict(s[1..]);
      forall k | 0 <= k < |rest| ensures rest[k].ordem != s[0].ordem {
        assert rest[k] in multiset(s[1..]);
        var m :| 0 <= m < |s[1..]| && s[1..][m] == rest[k];
        assert s[m + 1] == rest[k];
      }
      InsertSlotStrict(s[0], rest);
    }
  }

  /** Slots already posted in strictly ascending `ordem` come back unchanged. */
  lemma {:induction false} SortSlotsOfSorted(s: seq<Slot>)
    requires StrictlyByOrdem(s)
    ensures SortSlots(s) == s
  {
    if s != [] {
      SortSlotsOfSorted(s[1..]);
      assert s == [s[0]] + s[1..];
    }
  }

  /** Result of `Combo.validar_integridade`; the message of an empty slot names it. */
  datatype IntegrityVerdict = ComboValid | NoSlots | EmptySlot(slotName: string)

  /** Slot `name` is the first slot of `s` without items. */
  ghost predicate FirstEmptyIs(s: seq<Slot>, name: string) {
    exists k :: 0 <= k < |s| && s[k].items == [] && s[k].name == name
                && forall j :: 0 <= j < k ==> s[j].items != []
  }

  function FirstEmptySlot(s: seq<Slot>): (r: IntegrityVerdict)
    ensures r == ComboValid <==> forall k :: 0 <= k < |s| ==> s[k].items != []
    ensures r != NoSlots
    ensures r.EmptySlot? ==> FirstEmptyIs(s, r.slotName)
  {
    if s == [] then ComboValid
    else if s[0].items == [] then EmptySlot(s[0].name)
    else
      var r := FirstEmptySlot(s[1..]);
      assert r.EmptySlot? ==> FirstEmptyIs(s, r.slotName) by {
        if r.EmptySlot? {
          var k :| 0 <= k < |s[1..]| && s[1..][k].items == [] && s[1..][k].name == r.slotName
                   && forall j :: 0 <= j < k ==> s[1..][j].items != [];
          assert s[k + 1] == s[1..][k];
          forall j | 0 <= j < k + 1 ensures s[j].items != [] {
            if j > 0 { assert s[j] == s[1..][j - 1]; }
          }
        }
      }
      r
  }

  /** `Combo.validar_integridade`: valid iff there is a slot and every slot has
      an item; otherwise it names the first empty slot in `ordem` order. */
  function ValidateIntegrity(slots: seq<Slot>): (r: IntegrityVerdict)
    ensures r == ComboValid <==> slots != [] && forall k :: 0 <= k < |slots| ==> slots[k].items != []
    ensures r == NoSlots <==> slots == []
    ensures r.EmptySlot? ==> FirstEmptyIs(SortSlots(slots), r.slotName)
  {
    var sorted := SortSlots(slots);
    if sorted == [] then NoSlots
    else
      var r := FirstEmptySlot(sorted);
      assert (forall k :: 0 <= k < |sorted| ==> sorted[k].items != [])
        <==> (forall k :: 0 <= k < |slots| ==> slots[k].items != []) by {
        if forall k :: 0 <= k < |sorted| ==> sorted[k].items != [] {
          forall k | 0 <= k < |slots| ensures slots[k].items != [] {
            assert slots[k] in multiset(sorted);
          }
        }
        if forall k :: 0 <= k < |slots| ==> slots[k].items != [] {
          forall k | 0 <= k < |sorted| ensures sorted[k].items != [] {
            assert sorted[k] in multiset(slots);
          }
        }
      }
      r
  }

  /** `ComboSlotItem.validar_estoque_disponivel`: stock covers the debit
      (`quantidade_estoque >= float(quantidade_abate)`). */
  predicate HasStock(stock: int, debit: int) {
    stock * 1000 >= debit
  }

  /** When the stock check passes for a non-negative debit, one truncated
      debit of that amount leaves the stock non-negative. */
  lemma HasStockCoversOneDebit(stock: int, debit: int)
    requires debit >= 0 && HasStock(stock, debit)
    ensures stock - IntPart(debit) >= 0
  {
  }

  // ---------- Store invariants ----------

  predicate ChoicesOnePerSlot(cs: seq<Choice>) {
    forall i, j :: 0 <= i < j < |cs| ==> cs[i].slot != cs[j].slot
  }

  predicate ItemWellFormed(it: Item) {
    SubtotalRule(it) && ChoicesOnePerSlot(it.choices)
  }

  /** Every order id was handed out before `nextOrderId`. */
  predicate IdsBelow(orders: seq<Order>, nextOrderId: OrderId) {
    forall i :: 0 <= i < |orders| ==> orders[i].id < nextOrderId
  }

  /** Orders are kept in creation order: ids strictly increase. */
  predicate IdsIncreasing(orders: seq<Order>) {
    forall i, j :: 0 <= i < j < |orders| ==> orders[i].id < orders[j].id
  }

  /** `numero_pedido` is unique. */
  predicate NumbersDistinct(orders: seq<Order>) {
    forall i, j :: 0 <= i < j < |orders| ==> orders[i].number != orders[j].number
  }

  /** Every saved order has been given a number. */
  predicate Numbered(orders: seq<Order>) {
    forall i :: 0 <= i < |orders| ==> orders[i].number != []
  }

  predicate OrderWellFormed(o: Order) {
    && AllDigits(o.number)
    && forall k :: 0 <= k < |o.items| ==> ItemWellFormed(o.items[k])
  }

  predicate OrdersWellFormed(orders: seq<Order>, nextOrderId: OrderId) {
    && IdsIncreasing(orders)
    && NumbersDistinct(orders)
    && IdsBelow(orders, nextOrderId)
    && Numbered(orders)
    && forall i :: 0 <= i < |orders| ==> OrderWellFormed(orders[i])
  }

  predicate CombosWellFormed(combos: map<ProductId, seq<Slot>>, nextSlotId: SlotId) {
    && (forall p, k :: p in combos && 0 <= k < |combos[p]| ==> combos[p][k].id < nextSlotId)
    && (forall p :: p in combos ==> OrdemsDistinct(combos[p]))
  }

  /** What the database guarantees about every reachable state. */
  ghost predicate ValidDb(db: Db) {
    && OrdersWellFormed(db.orders, db.nextOrderId)
    && CombosWellFormed(db.combos, db.nextSlotId)
    && (forall c :: c in db.categories ==> c < db.nextCategoryId)
  }
}
