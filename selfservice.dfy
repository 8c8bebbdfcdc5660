/** `criar_pedido_autoatendimento`: the customer-facing kiosk creates an
    order for a tenant named in the URL. Unlike the cashier's view it does
    not validate its input, catches no exception and never touches stock. */
module SelfServiceSpec {
  import opened Common
  import opened Numbering
  import opened Models
  import opened OrderSpec

  /** `Refused` is the JSON failure for a request that is not a POST;
      `Crashed` is an uncaught exception (unknown tenant, a number already
      taken, a missing product). */
  datatype KioskOutcome = KioskCreated(id: OrderId, number: string) | KioskRefused | KioskCrashed

  /** The order row as `Pedido.objects.create` saves it: numbered, of kind
      'autoatendimento', for 'Cliente' when no name is sent, with no payment
      method. Its total is set only if the item loop completes. */
  function KioskOrder(db: Db, tenant: TenantId, customer: Option<string>, items: seq<Item>, total: int): Order {
    Order(db.nextOrderId, tenant, SaveNumber(db.orders, tenant, ""), "autoatendimento", Pendente,
          customer.GetOr("Cliente"), "", items, total)
  }

  function KioskOrderSpec(db: Db, post: bool, tenant: TenantId, customer: Option<string>, reqs: seq<ItemRequest>)
    : (r: (Db, KioskOutcome))
    ensures r.0.products == db.products
    ensures r.1 == KioskRefused <==> !post
    ensures !post ==> r == (db, KioskRefused)
    ensures r.0 == db.(orders := r.0.orders, nextOrderId := r.0.nextOrderId)
  {
    if !post then (db, KioskRefused)
    else if tenant !in db.tenants then (db, KioskCrashed)
    else
      var number := SaveNumber(db.orders, tenant, "");
      if NumberTaken(db.orders, number) then (db, KioskCrashed)
      else
        var (items, ok) := BuildItems(db.products, [], reqs);
        var o := KioskOrder(db, tenant, customer, items, if ok then SumSubtotals(items) else 0);
        (db.(orders := db.orders + [o], nextOrderId := db.nextOrderId + 1),
         if ok then KioskCreated(o.id, number) else KioskCrashed)
  }

  /** An order is created exactly when the request is a POST for a known
      tenant whose next number is free and every product is found; it then
      holds one item per request at the current price and its total is their
      price sum. An empty list is accepted and gives total 0. */
  lemma KioskCreates(db: Db, post: bool, tenant: TenantId, customer: Option<string>, reqs: seq<ItemRequest>)
    ensures KioskOrderSpec(db, post, tenant, customer, reqs).1.KioskCreated? <==>
            post && tenant in db.tenants && !NumberTaken(db.orders, SaveNumber(db.orders, tenant, ""))
            && AllFound(db.products, reqs)
    ensures KioskOrderSpec(db, post, tenant, customer, reqs).1.KioskCreated? ==>
            var items := ListedItems(db.products, reqs);
            KioskOrderSpec(db, post, tenant, customer, reqs).0.orders ==
            db.orders + [KioskOrder(db, tenant, customer, items, PriceSum(db.products, reqs))]
  {
    BuildItemsEffect(db.products, [], reqs);
    ListedItemsTotal(db.products, reqs);
    assert [] + ListedItems(db.products, reqs) == ListedItems(db.products, reqs);
  }

  /** An empty item list yields an order with no items and total 0. */
  lemma KioskEmptyOrder(db: Db, tenant: TenantId, customer: Option<string>)
    requires tenant in db.tenants && !NumberTaken(db.orders, SaveNumber(db.orders, tenant, ""))
    ensures KioskOrderSpec(db, true, tenant, customer, []) ==
            (db.(orders := db.orders + [KioskOrder(db, tenant, customer, [], 0)], nextOrderId := db.nextOrderId + 1),
             KioskCreated(db.nextOrderId, SaveNumber(db.orders, tenant, "")))
  {
  }

  /** A missing product raises after the order row exists: the order stays
      with the items before it and its default total 0, and the request fails. */
  lemma KioskMissingProduct(db: Db, tenant: TenantId, customer: Option<string>,
                            pre: seq<ItemRequest>, bad: ItemRequest, post: seq<ItemRequest>)
    requires tenant in db.tenants && !NumberTaken(db.orders, SaveNumber(db.orders, tenant, ""))
    requires AllFound(db.products, pre) && bad.product !in db.products
    ensures KioskOrderSpec(db, true, tenant, customer, pre + [bad] + post) ==
            (db.(orders := db.orders + [KioskOrder(db, tenant, customer, ListedItems(db.products, pre), 0)],
                 nextOrderId := db.nextOrderId + 1),
             KioskCrashed)
  {
    BuildItemsStopsAt(db.products, [], pre, bad, post);
    assert [] + ListedItems(db.products, pre) == ListedItems(db.products, pre);
  }

  /** The kiosk order keeps the store well formed, whichever way it ends. */
  lemma KioskPreservesValid(db: Db, post: bool, tenant: TenantId, customer: Option<string>, reqs: seq<ItemRequest>)
    requires ValidDb(db)
    ensures ValidDb(KioskOrderSpec(db, post, tenant, customer, reqs).0)
  {
    var r := KioskOrderSpec(db, post, tenant, customer, reqs).0;
    if post && tenant in db.tenants && !NumberTaken(db.orders, SaveNumber(db.orders, tenant, "")) {
      var (items, ok) := BuildItems(db.products, [], reqs);
      BuildItemsWellFormed(db.products, [], reqs);
      var o := KioskOrder(db, tenant, customer, items, if ok then SumSubtotals(items) else 0);
      AppendOrderWellFormed(db.orders, db.nextOrderId, o);
      assert r == db.(orders := db.orders + [o], nextOrderId := db.nextOrderId + 1);
    }
  }
}
