/** The kitchen views: the status update and the order lists with their
    per-status counts. */
module KitchenSpec {
  import opened Common
  import opened Models
  import opened OrderSpec
  import opened AdminSpec

  /** `Refused` is `{'success': False}`; `NotFound` is the 404 of
      `get_object_or_404`. */
  datatype KitchenOutcome = KitchenUpdated(status: string) | KitchenRefused | KitchenNotFound

  /** `atualizar_status_pedido`: only a POST is served; the order is looked
      up in the tenant before the status is checked, and the status must be a
      key of `STATUS_CHOICES`. */
  function UpdateStatusSpec(db: Db, post: bool, tenant: TenantId, id: OrderId, status: Option<string>)
    : (r: (Db, KitchenOutcome))
    ensures r.1.KitchenUpdated? <==>
            post && FindOrder(db.orders, id, tenant).Some? && status.Some? && ParseStatus(status.value).Some?
    ensures r.1 == KitchenNotFound <==> post && FindOrder(db.orders, id, tenant).None?
    ensures !r.1.KitchenUpdated? ==> r.0 == db
    ensures r.1.KitchenUpdated? ==> r.1.status == status.value
  {
    if !post then (db, KitchenRefused)
    else match FindOrder(db.orders, id, tenant)
      case None => (db, KitchenNotFound)
      case Some(i) =>
        if status.None? || ParseStatus(status.value).None? then (db, KitchenRefused)
        else (SetStatus(db, i, ParseStatus(status.value).value), KitchenUpdated(status.value))
  }

  /** When both succeed, the kitchen's update and the cashier's write the
      same store; any status may follow any other. */
  lemma KitchenAgreesWithCashier(db: Db, tenant: TenantId, id: OrderId, status: Option<string>)
    requires UpdateStatusSpec(db, true, tenant, id, status).1.KitchenUpdated?
    ensures ChangeStatusSpec(db, tenant, Some(id), status).1 == StatusChanged
    ensures UpdateStatusSpec(db, true, tenant, id, status).0 == ChangeStatusSpec(db, tenant, Some(id), status).0
  {
  }

  /** The two views check in opposite orders: for an order the tenant does
      not have and an unknown status, the cashier blames the status and the
      kitchen the order. */
  lemma CheckOrderDiffers(db: Db, tenant: TenantId, id: OrderId, status: string)
    requires FindOrder(db.orders, id, tenant).None? && ParseStatus(status).None?
    ensures ChangeStatusSpec(db, tenant, Some(id), Some(status)).1 == StatusRefused(BadStatus)
    ensures UpdateStatusSpec(db, true, tenant, id, Some(status)).1 == KitchenNotFound
  {
  }

  lemma UpdateStatusPreservesValid(db: Db, post: bool, tenant: TenantId, id: OrderId, status: Option<string>)
    requires ValidDb(db)
    ensures ValidDb(UpdateStatusSpec(db, post, tenant, id, status).0)
  {
    if post && status.Some? && ParseStatus(status.value).Some? {
      var found := FindOrder(db.orders, id, tenant);
      if found.Some? {
        SetStatusPreservesValid(db, found.value, ParseStatus(status.value).value);
      }
    }
  }

  // ---------- the lists ----------

  /** The tenant's orders whose status name is one of `names`, in creation order. */
  function Select(orders: seq<Order>, tenant: TenantId, names: set<string>): (r: seq<Order>)
    ensures |r| <= |orders|
    ensures forall k :: 0 <= k < |r| ==> r[k] in orders && r[k].tenant == tenant && StatusName(r[k].status) in names
    ensures forall k :: 0 <= k < |orders| && orders[k].tenant == tenant && StatusName(orders[k].status) in names
              ==> orders[k] in r
    decreases |orders|
  {
    if orders == [] then []
    else
      var rest := Select(orders[1..], tenant, names);
      assert forall k :: 1 <= k < |orders| ==> orders[1..][k - 1] == orders[k];
      (if orders[0].tenant == tenant && StatusName(orders[0].status) in names then [orders[0]] else []) + rest
  }

  const ActiveNames: set<string> := {"pendente", "preparando", "pronto"}

  /** `pedidos_ativos` of the dashboard and of `api_pedidos_cozinha`. */
  function ActiveOrders(orders: seq<Order>, tenant: TenantId): seq<Order> {
    Select(orders, tenant, ActiveNames)
  }

  lemma ActiveNamesAreActive(s: Status)
    ensures StatusName(s) in ActiveNames <==> IsActive(s)
  {
  }

  /** The active list holds exactly the tenant's pending, preparing and
      ready orders. */
  lemma ActiveOrdersExactly(orders: seq<Order>, tenant: TenantId)
    ensures forall o :: o in ActiveOrders(orders, tenant) <==> o in orders && o.tenant == tenant && IsActive(o.status)
  {
    forall o | o in orders && o.tenant == tenant && IsActive(o.status) ensures o in ActiveOrders(orders, tenant) {
      ActiveNamesAreActive(o.status);
    }
    forall o | o in ActiveOrders(orders, tenant) ensures IsActive(o.status) {
      ActiveNamesAreActive(o.status);
    }
  }

  lemma SelectCons(orders: seq<Order>, tenant: TenantId, names: set<string>)
    requires orders != []
    ensures Select(orders, tenant, names) ==
            (if orders[0].tenant == tenant && StatusName(orders[0].status) in names then [orders[0]] else [])
            + Select(orders[1..], tenant, names)
  {
  }

  /** A bound below every id still holds after a selection. */
  lemma {:induction false} SelectAbove(orders: seq<Order>, tenant: TenantId, names: set<string>, bound: OrderId)
    requires forall k :: 0 <= k < |orders| ==> bound < orders[k].id
    ensures forall k :: 0 <= k < |Select(orders, tenant, names)| ==> bound < Select(orders, tenant, names)[k].id
    decreases |orders|
  {
    if orders != [] {
      assert forall k :: 0 <= k < |orders[1..]| ==> orders[1..][k] == orders[k + 1];
      SelectAbove(orders[1..], tenant, names, bound);
      SelectCons(orders, tenant, names);
    }
  }

  lemma ConsIncreasing(o: Order, rest: seq<Order>)
    requires IdsIncreasing(rest)
    requires forall k :: 0 <= k < |rest| ==> o.id < rest[k].id
    ensures IdsIncreasing([o] + rest)
  {
    var r := [o] + rest;
    forall i, j | 0 <= i < j < |r| ensures r[i].id < r[j].id {
      assert r[j] == rest[j - 1];
      if i > 0 {
        assert r[i] == rest[i - 1];
      }
    }
  }

  /** A selection keeps creation order: ids still increase. */
  lemma {:induction false} SelectKeepsOrder(orders: seq<Order>, tenant: TenantId, names: set<string>)
    requires IdsIncreasing(orders)
    ensures IdsIncreasing(Select(orders, tenant, names))
    decreases |orders|
  {
    if orders != [] {
      SelectKeepsOrder(orders[1..], tenant, names);
      SelectAbove(orders[1..], tenant, names, orders[0].id);
      var rest := Select(orders[1..], tenant, names);
      SelectCons(orders, tenant, names);
      if orders[0].tenant == tenant && StatusName(orders[0].status) in names {
        ConsIncreasing(orders[0], rest);
      }
    }
  }

  /** `listar_pedidos_cozinha`: the tenant's orders of one status, 'pendente'
      when none is given; an unknown status lists nothing. */
  function ListOrders(orders: seq<Order>, tenant: TenantId, status: Option<string>): (r: seq<Order>)
    ensures forall o :: o in r <==>
              o in orders && o.tenant == tenant && ParseStatus(status.GetOr("pendente")) == Some(o.status)
    ensures status.Some? && ParseStatus(status.value).None? ==> r == []
  {
    var wanted := status.GetOr("pendente");
    var r := Select(orders, tenant, {wanted});
    assert ParseStatus(wanted).None? ==> r == [] by {
      if ParseStatus(wanted).None? && r != [] {
        ParseName(r[0].status);
      }
    }
    forall o ensures o in r <==> o in orders && o.tenant == tenant && ParseStatus(wanted) == Some(o.status) {
      ParseName(o.status);
      if o in r {
        var k :| 0 <= k < |r| && r[k] == o;
      }
      if o in orders && o.tenant == tenant && ParseStatus(wanted) == Some(o.status) {
        var k :| 0 <= k < |orders| && orders[k] == o;
      }
    }
    r
  }

  /** Without a status the kitchen sees the pending orders. */
  lemma ListDefaultsToPending(orders: seq<Order>, tenant: TenantId)
    ensures ListOrders(orders, tenant, None) == ListOrders(orders, tenant, Some("pendente"))
    ensures forall o :: o in ListOrders(orders, tenant, None) ==> o.status == Pendente
  {
  }

  function CountStatus(orders: seq<Order>, st: Status): nat
    decreases |orders|
  {
    if orders == [] then 0 else (if orders[0].status == st then 1 else 0) + CountStatus(orders[1..], st)
  }

  /** `estatisticas` of `api_pedidos_cozinha`, without the average time. */
  datatype Stats = Stats(pending: nat, preparing: nat, ready: nat, total: nat)

  function KitchenStats(orders: seq<Order>, tenant: TenantId): Stats {
    var active := ActiveOrders(orders, tenant);
    Stats(CountStatus(active, Pendente), CountStatus(active, Preparando), CountStatus(active, Pronto), |active|)
  }

  /** On a list of active orders the three counts add up to its length. */
  lemma {:induction false} CountsCoverActive(active: seq<Order>)
    requires forall k :: 0 <= k < |active| ==> IsActive(active[k].status)
    ensures CountStatus(active, Pendente) + CountStatus(active, Preparando) + CountStatus(active, Pronto) == |active|
    decreases |active|
  {
    if active != [] {
      assert forall k :: 1 <= k < |active| ==> active[1..][k - 1] == active[k];
      CountsCoverActive(active[1..]);
    }
  }

  /** The three per-status counts sum to `total_pedidos`. */
  lemma StatsAddUp(orders: seq<Order>, tenant: TenantId)
    ensures var s := KitchenStats(orders, tenant);
            s.pending + s.preparing + s.ready == s.total
  {
    var active := ActiveOrders(orders, tenant);
    forall k | 0 <= k < |active| ensures IsActive(active[k].status) {
      ActiveNamesAreActive(active[k].status);
    }
    CountsCoverActive(active);
  }
}
