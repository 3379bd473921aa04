/** Deliveries reported by a driver as made or failed: when does an order that is finished
    stay finished? */
module FinishedOrders {
  import opened Wrappers
  import opened ApprovalRules
  import opened Lifecycle
  import opened LifecycleInvariant
  import opened ExampleRuns

  predicate IsFinished(s: Rows, id: nat) {
    id in s.orders && Finished(s.orders[id].status)
  }

  /** The request sends delivery e back for approval when these are its orders. */
  ghost predicate SendsBack(s: Rows, e: nat, orders: map<nat, Order>, frete: real, rules: TenantRules) {
    e in s.deliveries && s.deliveries[e].status == Iniciado && NeedsApproval(CheckupOf(orders, e, frete, rules))
  }

  ghost predicate UndoneByEdit(s: Rows, e: nat, refs: Option<seq<OrderRef>>, frete: real, rules: TenantRules, id: nat)
    requires e in s.deliveries && id in s.orders
  {
    if s.orders[id].deliveryId == Some(e)
    then (refs.Some? && id !in Listed(refs.value)) || SendsBack(s, e, EditedOrders(s, e, refs), frete, rules)
    else refs.Some? && id in Listed(refs.value)
  }

  /** The request, accepted on these rows, undoes the finished order: an edit of its delivery
      drops it or sends the delivery back, an edit of another one lists it, a remove-order
      names it or sends the delivery back, or the delivery is removed. */
  ghost predicate Undoes(s: Rows, r: Request, id: nat)
    requires id in s.orders
  {
    && Answer(s, r).Ok?
    && match r
       case EditReq(e, _, refs, frete, rules) => e in s.deliveries && UndoneByEdit(s, e, refs, frete, rules, id)
       case RemoveOrderReq(e, k, frete, rules) =>
         s.orders[id].deliveryId == Some(e)
         && (k == id || (k in s.orders && SendsBack(s, e, s.orders[k := Freed(s.orders[k], e)], frete, rules)))
       case RemoveReq(e) => s.orders[id].deliveryId == Some(e)
       case _ => false
  }

  lemma ReassessFinished(s: Rows, e: nat, orders: map<nat, Order>, driver: nat, frete: real, rules: TenantRules,
                         id: nat)
    requires e in s.deliveries && id in orders
    ensures var t := Reassess(s, e, orders, driver, frete, rules);
      && id in t.orders
      && (Finished(t.orders[id].status) <==>
            Finished(orders[id].status) && !(orders[id].deliveryId == Some(e) && SendsBack(s, e, orders, frete, rules)))
  {
  }

  lemma EditFinished(s: Rows, e: nat, driver: Option<nat>, refs: Option<seq<OrderRef>>, frete: real,
                     rules: TenantRules, id: nat)
    requires IsFinished(s, id) && Edit(s, e, driver, refs, frete, rules).Ok?
    ensures IsFinished(Edit(s, e, driver, refs, frete, rules).value, id)
      <==> !UndoneByEdit(s, e, refs, frete, rules, id)
  {
    var orders := EditedOrders(s, e, refs);
    ReassessFinished(s, e, orders, NewDriver(s, e, driver), frete, rules, id);
  }

  lemma RemoveOrderFinished(s: Rows, e: nat, k: nat, frete: real, rules: TenantRules, id: nat)
    requires IsFinished(s, id) && RemoveOrder(s, e, k, frete, rules).Ok?
    ensures IsFinished(RemoveOrder(s, e, k, frete, rules).value, id)
      <==> !Undoes(s, RemoveOrderReq(e, k, frete, rules), id)
  {
    ReassessFinished(s, e, s.orders[k := Freed(s.orders[k], e)], s.deliveries[e].driverId, frete, rules, id);
  }

  lemma CreateFinished(s: Rows, driver: nat, refs: seq<OrderRef>, frete: real, rules: TenantRules, id: nat)
    requires IsFinished(s, id) && Create(s, driver, refs, frete, rules).Ok?
    ensures IsFinished(Create(s, driver, refs, frete, rules).value, id)
  {
  }

  lemma DriverFinished(s: Rows, driver: nat, k: nat, to: OrderStatus, hasReason: bool, id: nat)
    requires IsFinished(s, id) && UpdateOrderStatus(s, driver, k, to, hasReason).Ok?
    ensures IsFinished(UpdateOrderStatus(s, driver, k, to, hasReason).value, id)
  {
  }

  /** A finished order stays finished if and only if the request does not undo it. */
  lemma StaysFinishedIff(s: Rows, r: Request, id: nat)
    requires Inv(s) && IsFinished(s, id)
    ensures IsFinished(Step(s, r), id) <==> !Undoes(s, r, id)
  {
    if Answer(s, r).Ok? {
      match r
      case UploadReq(_, _, _) => assert id < s.nextOrder;
      case CreateReq(driver, refs, frete, rules) => CreateFinished(s, driver, refs, frete, rules, id);
      case DriverReq(driver, k, to, hasReason) => DriverFinished(s, driver, k, to, hasReason, id);
      case EditReq(e, driver, refs, frete, rules) => EditFinished(s, e, driver, refs, frete, rules, id);
      case RemoveOrderReq(e, k, frete, rules) => RemoveOrderFinished(s, e, k, frete, rules, id);
      case _ =>
    }
  }

  ghost predicate FinishedThroughout(s: Rows, rs: seq<Request>, id: nat)
    decreases |rs|
  {
    IsFinished(s, id) && (rs != [] ==> FinishedThroughout(Step(s, rs[0]), rs[1..], id))
  }

  ghost predicate NothingUndoes(s: Rows, rs: seq<Request>, id: nat)
    decreases |rs|
  {
    rs != [] ==> (id in s.orders ==> !Undoes(s, rs[0], id)) && NothingUndoes(Step(s, rs[0]), rs[1..], id)
  }

  /** And so over any further requests. */
  lemma {:induction false} FinishedThroughoutIff(s: Rows, rs: seq<Request>, id: nat)
    requires Inv(s) && IsFinished(s, id)
    ensures FinishedThroughout(s, rs, id) <==> NothingUndoes(s, rs, id)
    decreases |rs|
  {
    if rs != [] {
      StepKeeps(s, rs[0]);
      StaysFinishedIff(s, rs[0], id);
      var t := Step(s, rs[0]);
      assert FinishedThroughout(s, rs, id) <==> FinishedThroughout(t, rs[1..], id);
      if IsFinished(t, id) {
        FinishedThroughoutIff(t, rs[1..], id);
      }
    }
  }

  /** On a finalised delivery only removals undo: of the order or of the whole delivery; and
      another delivery's edit that takes it. */
  lemma FinalisedUndoneBy(s: Rows, r: Request, id: nat, d: nat)
    requires id in s.orders && s.orders[id].deliveryId == Some(d)
    requires d in s.deliveries && s.deliveries[d].status == Finalizado && Undoes(s, r, id)
    ensures r == RemoveReq(d) || (r.RemoveOrderReq? && r.d == d && r.id == id)
            || (r.EditReq? && r.d != d && r.newRefs.Some? && id in Listed(r.newRefs.value))
  {
  }

  // ---- A delivered order that waits again ----

  lemma TwoAreTooFew(s: Rows, orders: map<nat, Order>, frete: real)
    requires orders.Keys == {0, 1} && 0 in s.deliveries && s.deliveries[0].status == Iniciado
    ensures SendsBack(s, 0, orders, frete, AT_LEAST_THREE)
  {
    assert Attached(orders, 0) <= {0, 1};
    SmallerSet(Attached(orders, 0), {0, 1});
    TooFewOrders(CheckupOf(orders, 0, frete, AT_LEAST_THREE));
  }

  lemma SmallerSet(a: set<nat>, b: set<nat>)
    requires a <= b
    ensures |a| <= |b|
  {
    assert b == a + (b - a);
  }

  lemma DeliverFirst(s: Rows, r: Request)
    requires s.orders.Keys == {0, 1} && 0 in s.deliveries && s.deliveries[0].status == Iniciado
    requires forall id :: id in s.orders ==> s.orders[id].deliveryId == Some(0) && s.orders[id].status == EmEntrega
    requires r == DriverReq(s.deliveries[0].driverId, 0, Entregue, false)
    ensures var t := Step(s, r);
      t.orders.Keys == {0, 1} && t.deliveries == s.deliveries && t.orders[0].status == Entregue
    ensures Step(s, r).orders[0].deliveryId == Some(0)
  {
    var orders := s.orders[0 := s.orders[0].(status := Entregue)];
    assert orders[1].deliveryId == Some(0) && !Finished(orders[1].status);
  }

  /** After the first of two orders was delivered, an edit that changes nothing sends the
      delivery back under a stricter rule, and the order is waiting again. */
  lemma DeliveredWaitsAgain(rs: seq<Request>, deliver: Request, edit: Request)
    requires rs == TWO_IN_DELIVERY && deliver == DriverReq(0, 0, Entregue, false)
    requires edit == EditReq(0, None, None, 0.0, AT_LEAST_THREE)
    ensures var s := Run(rs + [deliver]); IsFinished(s, 0) && !IsFinished(Step(s, edit), 0)
  {
    TwoInDeliveryRows(rs);
    RunOneMore(rs, deliver);
    RunKeeps(rs + [deliver]);
    DeliverFirst(Run(rs), deliver);
    var s := Run(rs + [deliver]);
    TwoAreTooFew(s, s.orders, 0.0);
    StaysFinishedIff(s, edit, 0);
  }
}
