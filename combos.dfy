/** The combo views of the cashier: `configurar_combo` (POST), which
    replaces a combo's slots with the posted ones, and the checks of
    `adicionar_combo_pedido`, which validates the picks for a combo before
    the line goes into the cart. */
module ComboSpec {
  import opened Common
  import opened Models

  // ---------- configurar_combo ----------

  /** One entry of a posted slot's `itens`: `quantidade_abate` in thousandths. */
  datatype SlotItemRequest = SlotItemRequest(product: ProductId, debit: int)

  /** One entry of the posted `slots`. */
  datatype SlotRequest = SlotRequest(name: string, ordem: int, items: seq<SlotItemRequest>)

  datatype ConfigureReason =
    | NoProductId      // `produto_id` absent or falsy
    | NoSuchProduct    // no such product in the user's tenant (`get_object_or_404`)
    | SlotInUse        // an order's combo choice protects an old slot (`on_delete=PROTECT`)
    | DuplicateOrdem   // two posted slots share an `ordem` (`unique_together`)
    | UnknownProduct   // a slot item names a product that does not exist

  datatype ConfigureOutcome = Configured(product: ProductId) | ConfigureFailed(reason: ConfigureReason)

  /** Some order line's combo choice points at slot `id`. */
  predicate SlotChosen(orders: seq<Order>, id: SlotId) {
    exists i, k, m :: 0 <= i < |orders| && 0 <= k < |orders[i].items| && 0 <= m < |orders[i].items[k].choices|
                      && orders[i].items[k].choices[m].slot == id
  }

  predicate AnySlotChosen(orders: seq<Order>, slots: seq<Slot>) {
    exists j :: 0 <= j < |slots| && SlotChosen(orders, slots[j].id)
  }

  /** Where the creation loops stand: the slots written so far and the next slot id. */
  datatype Building = Building(slots: seq<Slot>, next: SlotId)

  /** The inner loop: one `ComboSlotItem` per posted item, stopping at the
      first product that does not exist. */
  function AddItems(products: map<ProductId, Product>, slot: Slot, items: seq<SlotItemRequest>): (r: (Slot, bool))
    ensures r.0.id == slot.id && r.0.name == slot.name && r.0.ordem == slot.ordem
    decreases |items|
  {
    if items == [] then (slot, true)
    else if items[0].product !in products then (slot, false)
    else AddItems(products, slot.(items := slot.items + [SlotItem(items[0].product, items[0].debit)]), items[1..])
  }

  predicate OrdemTaken(slots: seq<Slot>, ordem: int) {
    exists j :: 0 <= j < |slots| && slots[j].ordem == ordem
  }

  /** The outer loop: one `ComboSlot` per posted slot, each written before
      its items; a clashing `ordem` or an unknown product stops it with
      everything written so far kept. */
  function AddSlots(products: map<ProductId, Product>, b: Building, reqs: seq<SlotRequest>): (r: (Building, Option<ConfigureReason>))
    decreases |reqs|
  {
    if reqs == [] then (b, None)
    else if OrdemTaken(b.slots, reqs[0].ordem) then (b, Some(DuplicateOrdem))
    else
      var (slot, ok) := AddItems(products, Slot(b.next, reqs[0].name, reqs[0].ordem, []), reqs[0].items);
      var b1 := Building(b.slots + [slot], b.next + 1);
      if !ok then (b1, Some(UnknownProduct)) else AddSlots(products, b1, reqs[1..])
  }

  /** `configurar_combo` (POST) for the user's tenant. */
  function ConfigureComboSpec(db: Db, tenant: TenantId, productId: Option<ProductId>, reqs: seq<SlotRequest>): (r: (Db, ConfigureOutcome))
    ensures r.0 == db.(combos := r.0.combos, nextSlotId := r.0.nextSlotId)
    ensures productId.None? ==> r == (db, ConfigureFailed(NoProductId))
    ensures productId.Some? && productId.value in r.0.combos ==>
              r.0.combos == db.combos[productId.value := r.0.combos[productId.value]]
    ensures productId.Some? && productId.value !in r.0.combos ==> r.0.combos == db.combos
  {
    if productId.None? then (db, ConfigureFailed(NoProductId))
    else
      var pid := productId.value;
      if pid !in db.products || db.products[pid].tenant != tenant then (db, ConfigureFailed(NoSuchProduct))
      else ConfigureAt(db, pid, reqs)
  }

  /** The combo of product `pid` is fetched or created, its old slots are
      deleted unless an order's choice protects one, and the posted slots
      are written. */
  function ConfigureAt(db: Db, pid: ProductId, reqs: seq<SlotRequest>): (r: (Db, ConfigureOutcome))
    ensures pid in r.0.combos
    ensures r.0 == db.(combos := db.combos[pid := r.0.combos[pid]], nextSlotId := r.0.nextSlotId)
    ensures r.1 == Configured(pid) || r.1.ConfigureFailed?
  {
    var current := if pid in db.combos then db.combos[pid] else [];
    if AnySlotChosen(db.orders, current) then (db.(combos := db.combos[pid := current]), ConfigureFailed(SlotInUse))
    else
      var (b, err) := AddSlots(db.products, Building([], db.nextSlotId), reqs);
      var db' := db.(combos := db.combos[pid := b.slots], nextSlotId := b.next);
      if err.None? then (db', Configured(pid)) else (db', ConfigureFailed(err.value))
  }

  // ---------- what configuration writes, stated independently of the loops ----------

  function PostedItems(items: seq<SlotItemRequest>): (r: seq<SlotItem>)
    ensures |r| == |items|
    decreases |items|
  {
    if items == [] then [] else [SlotItem(items[0].product, items[0].debit)] + PostedItems(items[1..])
  }

  /** The slots the posted list describes, numbered from `first`. */
  function Posted(reqs: seq<SlotRequest>, first: SlotId): (r: seq<Slot>)
    ensures |r| == |reqs|
    decreases |reqs|
  {
    if reqs == [] then []
    else [Slot(first, reqs[0].name, reqs[0].ordem, PostedItems(reqs[0].items))] + Posted(reqs[1..], first + 1)
  }

  /** Each posted item becomes one slot item with its product and debit. */
  lemma {:induction false} PostedItemsAt(items: seq<SlotItemRequest>)
    ensures forall m :: 0 <= m < |items| ==> PostedItems(items)[m] == SlotItem(items[m].product, items[m].debit)
    decreases |items|
  {
    if items != [] {
      PostedItemsAt(items[1..]);
      assert forall m :: 1 <= m < |items| ==> items[1..][m - 1] == items[m];
    }
  }

  /** The k-th posted slot gets id `first + k`, its name, `ordem` and items. */
  lemma {:induction false} PostedAt(reqs: seq<SlotRequest>, first: SlotId)
    ensures forall k :: 0 <= k < |reqs| ==>
              Posted(reqs, first)[k] == Slot(first + k, reqs[k].name, reqs[k].ordem, PostedItems(reqs[k].items))
    decreases |reqs|
  {
    if reqs != [] {
      PostedAt(reqs[1..], first + 1);
      assert forall k :: 1 <= k < |reqs| ==> reqs[1..][k - 1] == reqs[k];
    }
  }

  predicate ItemsKnown(products: map<ProductId, Product>, items: seq<SlotItemRequest>) {
    forall m :: 0 <= m < |items| ==> items[m].product in products
  }

  predicate SlotsKnown(products: map<ProductId, Product>, reqs: seq<SlotRequest>) {
    forall k :: 0 <= k < |reqs| ==> ItemsKnown(products, reqs[k].items)
  }

  predicate OrdemsFresh(reqs: seq<SlotRequest>) {
    forall i, j :: 0 <= i < j < |reqs| ==> reqs[i].ordem != reqs[j].ordem
  }

  lemma {:induction false} AddItemsEffect(products: map<ProductId, Product>, slot: Slot, items: seq<SlotItemRequest>)
    ensures AddItems(products, slot, items).1 <==> ItemsKnown(products, items)
    ensures ItemsKnown(products, items) ==>
              AddItems(products, slot, items).0 == slot.(items := slot.items + PostedItems(items))
    decreases |items|
  {
    if items != [] {
      var slot1 := slot.(items := slot.items + [SlotItem(items[0].product, items[0].debit)]);
      AddItemsEffect(products, slot1, items[1..]);
      assert forall m :: 1 <= m < |items| ==> items[1..][m - 1] == items[m];
      assert PostedItems(items) == [SlotItem(items[0].product, items[0].debit)] + PostedItems(items[1..]);
      assert slot.items + PostedItems(items) == slot1.items + PostedItems(items[1..]);
    }
  }

  /** No posted `ordem` is already among the slots written. */
  predicate Clear(slots: seq<Slot>, reqs: seq<SlotRequest>) {
    forall k :: 0 <= k < |reqs| ==> !OrdemTaken(slots, reqs[k].ordem)
  }

  /** With distinct fresh `ordem` values and known products the slot loop
      runs to the end and writes exactly the posted slots, under
      consecutive ids. */
  lemma {:induction false} AddSlotsComplete(products: map<ProductId, Product>, b: Building, reqs: seq<SlotRequest>)
    requires OrdemsFresh(reqs) && SlotsKnown(products, reqs) && Clear(b.slots, reqs)
    ensures AddSlots(products, b, reqs) == (Building(b.slots + Posted(reqs, b.next), b.next + |reqs|), None)
    decreases |reqs|
  {
    if reqs != [] {
      var r := reqs[0];
      var empty := Slot(b.next, r.name, r.ordem, []);
      AddItemsEffect(products, empty, r.items);
      var slot := AddItems(products, empty, r.items).0;
      assert ItemsKnown(products, r.items) && !OrdemTaken(b.slots, r.ordem);
      assert slot == Slot(b.next, r.name, r.ordem, PostedItems(r.items));
      var b1 := Building(b.slots + [slot], b.next + 1);
      ClearAfterFirst(b.slots, slot, reqs);
      AddSlotsComplete(products, b1, reqs[1..]);
      assert AddItems(products, empty, r.items).1;
      assert AddSlots(products, b, reqs) == AddSlots(products, b1, reqs[1..]);
      assert Posted(reqs, b.next) == [slot] + Posted(reqs[1..], b1.next);
      assert b.slots + Posted(reqs, b.next) == b1.slots + Posted(reqs[1..], b1.next);
    } else {
      assert b.slots + Posted(reqs, b.next) == b.slots;
    }
  }

  lemma ClearAfterFirst(slots: seq<Slot>, slot: Slot, reqs: seq<SlotRequest>)
    requires reqs != [] && OrdemsFresh(reqs) && Clear(slots, reqs) && slot.ordem == reqs[0].ordem
    ensures OrdemsFresh(reqs[1..]) && Clear(slots + [slot], reqs[1..])
  {
    forall k | 0 <= k < |reqs[1..]| ensures !OrdemTaken(slots + [slot], reqs[1..][k].ordem) {
      assert reqs[1..][k] == reqs[k + 1];
      assert !OrdemTaken(slots, reqs[k + 1].ordem);
      forall j | 0 <= j < |slots + [slot]| ensures (slots + [slot])[j].ordem != reqs[k + 1].ordem {
        if j < |slots| {
          assert (slots + [slot])[j] == slots[j];
        }
      }
    }
  }

  /** A slot loop that runs to the end had distinct fresh `ordem` values
      and known products. */
  lemma {:induction false} AddSlotsCompleteOnly(products: map<ProductId, Product>, b: Building, reqs: seq<SlotRequest>)
    requires AddSlots(products, b, reqs).1.None?
    ensures OrdemsFresh(reqs) && SlotsKnown(products, reqs) && Clear(b.slots, reqs)
    decreases |reqs|
  {
    if reqs != [] {
      var r := reqs[0];
      var empty := Slot(b.next, r.name, r.ordem, []);
      AddItemsEffect(products, empty, r.items);
      var slot := AddItems(products, empty, r.items).0;
      var b1 := Building(b.slots + [slot], b.next + 1);
      AddSlotsCompleteOnly(products, b1, reqs[1..]);
      ClearBeforeFirst(b.slots, slot, reqs);
      assert forall k :: 1 <= k < |reqs| ==> reqs[1..][k - 1] == reqs[k];
    }
  }

  lemma ClearBeforeFirst(slots: seq<Slot>, slot: Slot, reqs: seq<SlotRequest>)
    requires reqs != [] && !OrdemTaken(slots, reqs[0].ordem) && slot.ordem == reqs[0].ordem
    requires OrdemsFresh(reqs[1..]) && Clear(slots + [slot], reqs[1..])
    ensures OrdemsFresh(reqs) && Clear(slots, reqs)
  {
    forall k | 1 <= k < |reqs| ensures reqs[0].ordem != reqs[k].ordem && !OrdemTaken(slots, reqs[k].ordem) {
      assert reqs[1..][k - 1] == reqs[k];
      assert (slots + [slot])[|slots|] == slot;
      forall j | 0 <= j < |slots| ensures slots[j].ordem != reqs[k].ordem {
        assert (slots + [slot])[j] == slots[j];
      }
    }
    forall i, j | 0 <= i < j < |reqs| ensures reqs[i].ordem != reqs[j].ordem {
      if i > 0 {
        assert reqs[1..][i - 1] == reqs[i] && reqs[1..][j - 1] == reqs[j];
      }
    }
  }

  /** `configurar_combo` succeeds exactly when a product id is given, the
      product belongs to the tenant, no order choice holds one of the old
      slots, the posted `ordem` values are distinct and every posted item's
      product exists. */
  lemma ConfigureWhen(db: Db, tenant: TenantId, productId: Option<ProductId>, reqs: seq<SlotRequest>)
    ensures ConfigureComboSpec(db, tenant, productId, reqs).1.Configured? <==>
            && productId.Some? && productId.value in db.products && db.products[productId.value].tenant == tenant
            && !AnySlotChosen(db.orders, if productId.value in db.combos then db.combos[productId.value] else [])
            && OrdemsFresh(reqs) && SlotsKnown(db.products, reqs)
  {
    if ConfigureComboSpec(db, tenant, productId, reqs).1.Configured? {
      AddSlotsCompleteOnly(db.products, Building([], db.nextSlotId), reqs);
    } else if OrdemsFresh(reqs) && SlotsKnown(db.products, reqs) {
      AddSlotsComplete(db.products, Building([], db.nextSlotId), reqs);
    }
  }

  /** After a successful configuration the combo's slots are exactly the
      posted ones, under fresh ids; no earlier slot survives. */
  lemma ConfigureResult(db: Db, tenant: TenantId, pid: ProductId, reqs: seq<SlotRequest>)
    requires ConfigureComboSpec(db, tenant, Some(pid), reqs).1.Configured?
    ensures var r := ConfigureComboSpec(db, tenant, Some(pid), reqs);
            && r.1 == Configured(pid)
            && r.0.combos == db.combos[pid := Posted(reqs, db.nextSlotId)]
            && r.0.nextSlotId == db.nextSlotId + |reqs|
  {
    assert ConfigureComboSpec(db, tenant, Some(pid), reqs) == ConfigureAt(db, pid, reqs);
    AddSlotsCompleteOnly(db.products, Building([], db.nextSlotId), reqs);
    AddSlotsComplete(db.products, Building([], db.nextSlotId), reqs);
    assert [] + Posted(reqs, db.nextSlotId) == Posted(reqs, db.nextSlotId);
  }

  /** Every slot of a configured combo carries an id from this request, so
      none of the slots it had before (all below `nextSlotId`) is left. */
  lemma ConfigureReplacesAll(db: Db, tenant: TenantId, pid: ProductId, reqs: seq<SlotRequest>, gone: Slot)
    requires CombosWellFormed(db.combos, db.nextSlotId)
    requires pid in db.combos && gone in db.combos[pid]
    requires ConfigureComboSpec(db, tenant, Some(pid), reqs).1.Configured?
    ensures gone !in ConfigureComboSpec(db, tenant, Some(pid), reqs).0.combos[pid]
  {
    ConfigureResult(db, tenant, pid, reqs);
    var slots := Posted(reqs, db.nextSlotId);
    PostedAt(reqs, db.nextSlotId);
    var k :| 0 <= k < |db.combos[pid]| && db.combos[pid][k] == gone;
    assert gone.id < db.nextSlotId;
    forall j | 0 <= j < |slots| ensures slots[j] != gone {
      assert slots[j].id == db.nextSlotId + j;
    }
  }

  /** A configured combo passes `validar_integridade` exactly when at least
      one slot was posted and every posted slot has items. */
  lemma ConfiguredIntegrity(db: Db, tenant: TenantId, pid: ProductId, reqs: seq<SlotRequest>)
    requires ConfigureComboSpec(db, tenant, Some(pid), reqs).1.Configured?
    ensures var slots := ConfigureComboSpec(db, tenant, Some(pid), reqs).0.combos[pid];
            ValidateIntegrity(slots) == ComboValid <==>
            reqs != [] && forall k :: 0 <= k < |reqs| ==> reqs[k].items != []
  {
    ConfigureResult(db, tenant, pid, reqs);
    var slots := Posted(reqs, db.nextSlotId);
    PostedAt(reqs, db.nextSlotId);
    forall k | 0 <= k < |reqs| ensures slots[k].items == [] <==> reqs[k].items == [] {
      assert |PostedItems(reqs[k].items)| == |reqs[k].items|;
    }
    assert forall k :: 0 <= k < |reqs| ==> (slots[k].items == [] <==> reqs[k].items == []);
  }

  /** Slot ids below `next` and distinct `ordem` values hold for the slots
      the loop writes, whether it runs to the end or stops. */
  lemma {:induction false} AddSlotsWellFormed(products: map<ProductId, Product>, b: Building, reqs: seq<SlotRequest>)
    requires forall j :: 0 <= j < |b.slots| ==> b.slots[j].id < b.next
    requires OrdemsDistinct(b.slots)
    ensures var b' := AddSlots(products, b, reqs).0;
            && b.next <= b'.next
            && (forall j :: 0 <= j < |b'.slots| ==> b'.slots[j].id < b'.next)
            && OrdemsDistinct(b'.slots)
    decreases |reqs|
  {
    if reqs != [] && !OrdemTaken(b.slots, reqs[0].ordem) {
      var slot := AddItems(products, Slot(b.next, reqs[0].name, reqs[0].ordem, []), reqs[0].items).0;
      var b1 := Building(b.slots + [slot], b.next + 1);
      forall i, j | 0 <= i < j < |b1.slots| ensures b1.slots[i].ordem != b1.slots[j].ordem {
        if j == |b.slots| {
          assert b1.slots[i] == b.slots[i];
        } else {
          assert b1.slots[i] == b.slots[i] && b1.slots[j] == b.slots[j];
        }
      }
      AddSlotsWellFormed(products, b1, reqs[1..]);
    }
  }

  /** Configuration, successful or not, keeps every slot id below the
      counter and the `ordem` values of each combo distinct. */
  lemma ConfigurePreservesWellFormed(db: Db, tenant: TenantId, productId: Option<ProductId>, reqs: seq<SlotRequest>)
    requires CombosWellFormed(db.combos, db.nextSlotId)
    ensures var db' := ConfigureComboSpec(db, tenant, productId, reqs).0;
            CombosWellFormed(db'.combos, db'.nextSlotId)
  {
    if productId.Some? && productId.value in db.products && db.products[productId.value].tenant == tenant {
      var pid := productId.value;
      var current := if pid in db.combos then db.combos[pid] else [];
      if !AnySlotChosen(db.orders, current) {
        AddSlotsWellFormed(db.products, Building([], db.nextSlotId), reqs);
      }
    }
  }

  /** Configuration keeps the store well formed, whichever way it ends. */
  lemma ConfigurePreservesValid(db: Db, tenant: TenantId, productId: Option<ProductId>, reqs: seq<SlotRequest>)
    requires ValidDb(db)
    ensures ValidDb(ConfigureComboSpec(db, tenant, productId, reqs).0)
  {
    ConfigurePreservesWellFormed(db, tenant, productId, reqs);
  }

  // ---------- adicionar_combo_pedido ----------

  /** One entry of `escolhas`. */
  datatype Pick = Pick(slot: SlotId, product: ProductId)

  /** One entry of the `escolhas` the response returns. */
  datatype PickDetail = PickDetail(slot: SlotId, slotName: string, product: ProductId, debit: int)

  /** The cart line the response describes: the combo's product, its price
      and the details of every pick. */
  datatype ComboLine = ComboLine(product: ProductId, price: int, picks: seq<PickDetail>)

  datatype AddReason =
    | ComboNotFound       // no combo for that product in the user's tenant
    | SlotsNotFilled      // `len(escolhas)` differs from the combo's slot count
    | SlotNotFound        // no slot with that id
    | SlotItemNotFound    // the slot offers no item for that product
    | SeveralSlotItems    // the slot offers that product more than once (`MultipleObjectsReturned`)
    | OutOfStock(product: ProductId)

  datatype AddOutcome = ComboAdded(line: ComboLine) | AddFailed(reason: AddReason)

  predicate HasSlot(slots: seq<Slot>, id: SlotId) {
    exists k :: 0 <= k < |slots| && slots[k].id == id
  }

  /** The products whose combos hold a slot with id `id`. */
  function SlotOwners(combos: map<ProductId, seq<Slot>>, id: SlotId): set<ProductId> {
    set p | p in combos && HasSlot(combos[p], id)
  }

  lemma {:induction false} LeastOf(s: set<int>, e: int) returns (m: int)
    requires e in s
    ensures m in s && forall x :: x in s ==> m <= x
    decreases |s|
  {
    if forall x :: x in s ==> e <= x {
      m := e;
    } else {
      var y :| y in s && y < e;
      assert |s - {e}| < |s|;
      m := LeastOf(s - {e}, y);
      assert forall x :: x in s ==> x == e || x in s - {e};
    }
  }

  lemma LeastExists(s: set<int>)
    requires exists e :: e in s
    ensures exists m :: m in s && forall x :: x in s ==> m <= x
  {
    var e :| e in s;
    var m := LeastOf(s, e);
  }

  /** The smallest element of a non-empty set of integers. */
  function Least(s: set<int>): (m: int)
    requires exists e :: e in s
    ensures m in s && forall x :: x in s ==> m <= x
  {
    LeastExists(s);
    var m :| m in s && forall x :: x in s ==> m <= x;
    m
  }

  function IndexOfSlot(slots: seq<Slot>, id: SlotId): (r: Option<nat>)
    ensures r.Some? ==> r.value < |slots| && slots[r.value].id == id
    ensures r.None? ==> !HasSlot(slots, id)
    decreases |slots|
  {
    if slots == [] then None
    else if slots[0].id == id then Some(0)
    else match IndexOfSlot(slots[1..], id)
      case Some(k) => Some(k + 1)
      case None =>
        assert forall k :: 1 <= k < |slots| ==> slots[1..][k - 1] == slots[k];
        None
  }

  /** `ComboSlot.objects.get(id=...)`: the slot with that id, in whichever
      combo holds it. Slot ids are unique in the store, so the owner is
      unique; taking the least owner keeps the function total. */
  function FindSlot(combos: map<ProductId, seq<Slot>>, id: SlotId): (r: Option<Slot>)
    ensures r.Some? <==> exists p :: p in combos && HasSlot(combos[p], id)
    ensures r.Some? ==> r.value.id == id && exists p :: p in combos && r.value in combos[p]
  {
    if !exists p :: p in combos && HasSlot(combos[p], id) then None
    else
      var owners := SlotOwners(combos, id);
      assert forall p :: p in combos && HasSlot(combos[p], id) ==> p in owners;
      var p := Least(owners);
      var k := IndexOfSlot(combos[p], id).value;
      assert combos[p][k] in combos[p];
      Some(combos[p][k])
  }

  /** The items of a slot that offer product `pid`, in order. */
  function OffersOf(items: seq<SlotItem>, pid: ProductId): (r: seq<SlotItem>)
    ensures |r| <= |items|
    ensures forall m :: 0 <= m < |r| ==> r[m].product == pid && r[m] in items
    ensures forall m :: 0 <= m < |items| && items[m].product == pid ==> items[m] in r
    decreases |items|
  {
    if items == [] then []
    else
      var rest := OffersOf(items[1..], pid);
      assert forall m :: 1 <= m < |items| ==> items[1..][m - 1] == items[m];
      (if items[0].product == pid then [items[0]] else []) + rest
  }

  /** A pick passes the first loop: its slot exists, offers its product
      exactly once, and the product's stock covers one debit. */
  predicate PickOk(db: Db, pk: Pick) {
    && FindSlot(db.combos, pk.slot).Some?
    && var offers := OffersOf(FindSlot(db.combos, pk.slot).value.items, pk.product);
    && |offers| == 1 && offers[0].product in db.products
    && HasStock(db.products[offers[0].product].stock, offers[0].debit)
  }

  /** The slot a passing pick names. */
  function SlotFor(db: Db, pk: Pick): (r: Slot)
    requires PickOk(db, pk)
    ensures r.id == pk.slot && exists p :: p in db.combos && r in db.combos[p]
  {
    FindSlot(db.combos, pk.slot).value
  }

  /** The slot item a passing pick selects. */
  function OfferFor(db: Db, pk: Pick): (r: SlotItem)
    requires PickOk(db, pk)
    ensures r.product == pk.product && r.product in db.products
    ensures r in SlotFor(db, pk).items
    ensures HasStock(db.products[r.product].stock, r.debit)
  {
    OffersOf(SlotFor(db, pk).items, pk.product)[0]
  }

  /** The first loop of `adicionar_combo_pedido`: the first pick that
      fails, and why. */
  function CheckPicks(db: Db, picks: seq<Pick>): (r: Option<AddReason>)
    ensures r.None? <==> forall k :: 0 <= k < |picks| ==> PickOk(db, picks[k])
    decreases |picks|
  {
    if picks == [] then None
    else
      var pk := picks[0];
      var rest := CheckPicks(db, picks[1..]);
      assert forall k :: 1 <= k < |picks| ==> picks[1..][k - 1] == picks[k];
      match FindSlot(db.combos, pk.slot)
      case None => Some(SlotNotFound)
      case Some(slot) =>
        var offers := OffersOf(slot.items, pk.product);
        if offers == [] then Some(SlotItemNotFound)
        else if |offers| > 1 then Some(SeveralSlotItems)
        else if offers[0].product !in db.products then Some(SlotItemNotFound)
        else if !HasStock(db.products[offers[0].product].stock, offers[0].debit) then Some(OutOfStock(offers[0].product))
        else rest
  }

  /** What the second loop records for one pick: its slot's id and name,
      the product and the debit the slot offers for it. */
  function DetailOf(db: Db, pk: Pick): (r: PickDetail)
    ensures r.product == pk.product
  {
    match FindSlot(db.combos, pk.slot)
    case None => PickDetail(pk.slot, "", pk.product, 0)
    case Some(slot) =>
      var offers := OffersOf(slot.items, pk.product);
      PickDetail(slot.id, slot.name, pk.product, if offers == [] then 0 else offers[0].debit)
  }

  /** The second loop: the details of each pick. */
  function Details(db: Db, picks: seq<Pick>): (r: seq<PickDetail>)
    ensures |r| == |picks|
    decreases |picks|
  {
    if picks == [] then [] else [DetailOf(db, picks[0])] + Details(db, picks[1..])
  }

  /** `adicionar_combo_pedido`: nothing is written; the answer is the cart
      line or the reason it is refused. `combo` is the combo's product. */
  function AddComboSpec(db: Db, tenant: TenantId, combo: ProductId, picks: seq<Pick>): (r: AddOutcome)
    ensures r.ComboAdded? <==>
            && combo in db.combos && combo in db.products && db.products[combo].tenant == tenant
            && |picks| == |db.combos[combo]|
            && forall k :: 0 <= k < |picks| ==> PickOk(db, picks[k])
    ensures r.ComboAdded? ==> r.line.product == combo && r.line.price == db.products[combo].price
    ensures r.ComboAdded? ==> |r.line.picks| == |picks|
  {
    if combo !in db.combos || combo !in db.products || db.products[combo].tenant != tenant then AddFailed(ComboNotFound)
    else if |picks| != |db.combos[combo]| then AddFailed(SlotsNotFilled)
    else match CheckPicks(db, picks)
      case Some(why) => AddFailed(why)
      case None => ComboAdded(ComboLine(combo, db.products[combo].price, Details(db, picks)))
  }

  /** The details name each pick's slot and product and the debit the slot
      offers for it. */
  lemma {:induction false} DetailsAt(db: Db, picks: seq<Pick>)
    requires forall k :: 0 <= k < |picks| ==> PickOk(db, picks[k])
    ensures forall k :: 0 <= k < |picks| ==>
              Details(db, picks)[k] == PickDetail(picks[k].slot, SlotFor(db, picks[k]).name,
                                                  picks[k].product, OfferFor(db, picks[k]).debit)
    decreases |picks|
  {
    if picks != [] {
      DetailsAt(db, picks[1..]);
      assert forall k :: 1 <= k < |picks| ==> picks[1..][k - 1] == picks[k];
    }
  }

  /** The slot-count check compares counts only: a pick list of the right
      length naming another combo's slot passes it. */
  lemma ForeignSlotAccepted(db: Db, tenant: TenantId, combo: ProductId, picks: seq<Pick>, k: nat)
    requires combo in db.combos && combo in db.products && db.products[combo].tenant == tenant
    requires |picks| == |db.combos[combo]|
    requires forall m :: 0 <= m < |picks| ==> PickOk(db, picks[m])
    requires k < |picks| && !HasSlot(db.combos[combo], picks[k].slot)
    ensures AddComboSpec(db, tenant, combo, picks).ComboAdded?
    ensures exists p :: p in db.combos && p != combo && HasSlot(db.combos[p], picks[k].slot)
  {
    assert PickOk(db, picks[k]);
  }

  /** A store where that happens: combo 10 has one slot (id 1) and combo 20
      one slot (id 2), both offering product 30; picking slot 2 for combo 10
      is accepted. */
  lemma ForeignSlotWitness()
    ensures var db := Db(
              map[10 := Product(1, "Combo A", None, 2000, 0, true),
                  20 := Product(1, "Combo B", None, 2500, 0, true),
                  30 := Product(1, "Fries", None, 800, 5, true)],
              map[], [],
              map[10 := [Slot(1, "Side", 1, [SlotItem(30, 1000)])],
                  20 := [Slot(2, "Side", 1, [SlotItem(30, 1000)])]],
              {1}, 1, 3, 1);
            && !HasSlot(db.combos[10], 2)
            && AddComboSpec(db, 1, 10, [Pick(2, 30)]).ComboAdded?
  {
    var db := Db(
      map[10 := Product(1, "Combo A", None, 2000, 0, true),
          20 := Product(1, "Combo B", None, 2500, 0, true),
          30 := Product(1, "Fries", None, 800, 5, true)],
      map[], [],
      map[10 := [Slot(1, "Side", 1, [SlotItem(30, 1000)])],
          20 := [Slot(2, "Side", 1, [SlotItem(30, 1000)])]],
      {1}, 1, 3, 1);
    assert HasSlot(db.combos[20], 2) by {
      assert db.combos[20][0].id == 2;
    }
    var owners := SlotOwners(db.combos, 2);
    assert owners == {20};
    assert FindSlot(db.combos, 2) == Some(db.combos[20][0]);
    assert OffersOf(db.combos[20][0].items, 30) == [SlotItem(30, 1000)];
    assert PickOk(db, Pick(2, 30));
    ForeignSlotAccepted(db, 1, 10, [Pick(2, 30)], 0);
  }

  /** A slot that offers the same product twice (allowed since the
      uniqueness constraint on slot items was dropped) can never be picked
      for that product. */
  lemma DuplicateOfferRejected(db: Db, tenant: TenantId, combo: ProductId, picks: seq<Pick>, k: nat, i: nat, j: nat)
    requires k < |picks| && FindSlot(db.combos, picks[k].slot).Some?
    requires var items := FindSlot(db.combos, picks[k].slot).value.items;
             i < j < |items| && items[i].product == picks[k].product && items[j].product == picks[k].product
    ensures AddComboSpec(db, tenant, combo, picks).AddFailed?
  {
    var items := FindSlot(db.combos, picks[k].slot).value.items;
    var offers := OffersOf(items, picks[k].product);
    OffersOfCounts(items, picks[k].product, i, j);
    assert !PickOk(db, picks[k]);
  }

  /** Two slot items for the same product give two offers. */
  lemma {:induction false} OffersOfCounts(items: seq<SlotItem>, pid: ProductId, i: nat, j: nat)
    requires i < j < |items| && items[i].product == pid && items[j].product == pid
    ensures |OffersOf(items, pid)| >= 2
    decreases |items|
  {
    if i == 0 {
      assert items[1..][j - 1] == items[j];
      assert |OffersOf(items[1..], pid)| >= 1;
    } else {
      assert items[1..][i - 1] == items[i] && items[1..][j - 1] == items[j];
      OffersOfCounts(items[1..], pid, i - 1, j - 1);
    }
  }

  /** Every accepted pick's product has stock for one debit: the line can
      be debited once without driving that stock below zero. */
  lemma AcceptedPicksInStock(db: Db, tenant: TenantId, combo: ProductId, picks: seq<Pick>, k: nat)
    requires AddComboSpec(db, tenant, combo, picks).ComboAdded? && k < |picks|
    ensures var offer := OfferFor(db, picks[k]);
            offer.debit >= 0 ==> db.products[offer.product].stock - IntPart(offer.debit) >= 0
  {
    var offer := OfferFor(db, picks[k]);
    if offer.debit >= 0 {
      HasStockCoversOneDebit(db.products[offer.product].stock, offer.debit);
    }
  }
}
