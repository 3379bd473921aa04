/** Which requests are refused, with which error, and what becomes of a request sent twice. */
module Refusals {
  import opened Wrappers
  import opened Sums
  import opened ApprovalRules
  import opened Lifecycle
  import opened LifecycleInvariant

  // ---- The driver's steps ----

  /** The order is on a delivery of this driver. */
  predicate OnDeliveryOf(s: Rows, driver: nat, id: nat) {
    && id in s.orders && s.orders[id].deliveryId.Some? && s.orders[id].deliveryId.value in s.deliveries
    && s.deliveries[s.orders[id].deliveryId.value].driverId == driver
  }

  /** Exactly the steps a driver can take: on an order of a started delivery of his, from
      EM_ROTA to EM_ENTREGA and from there to ENTREGUE, or with a reason to NAO_ENTREGUE. */
  lemma DriverStepIff(s: Rows, driver: nat, id: nat, to: OrderStatus, hasReason: bool)
    ensures var answer := UpdateOrderStatus(s, driver, id, to, hasReason);
      && (answer == Err(NotFound) <==> id !in s.orders)
      && (answer == Err(Forbidden) <==> id in s.orders && !OnDeliveryOf(s, driver, id))
      && (answer.Ok? <==>
            && OnDeliveryOf(s, driver, id)
            && s.deliveries[s.orders[id].deliveryId.value].status == Iniciado
            && var from := s.orders[id].status;
            || (from == EmRota && to == EmEntrega)
            || (from == EmEntrega && to == Entregue)
            || (from == EmEntrega && to == NaoEntregue && hasReason))
      && (answer.Err? ==> answer.error in {NotFound, Forbidden, BadRequest})
  {
  }

  /** The step changes the status of the order as asked, and no other order. */
  lemma DriverStepWrites(s: Rows, driver: nat, id: nat, to: OrderStatus, hasReason: bool)
    requires UpdateOrderStatus(s, driver, id, to, hasReason).Ok?
    ensures UpdateOrderStatus(s, driver, id, to, hasReason).value.orders
         == s.orders[id := s.orders[id].(status := to)]
  {
  }

  // ---- Removing a delivery ----

  predicate HasOrderInDelivery(s: Rows, d: nat) {
    exists id :: id in s.orders && s.orders[id].deliveryId == Some(d) && s.orders[id].status == EmEntrega
  }

  /** A delivery can be removed unless a driver is just delivering one of its orders. */
  lemma RemovalIff(s: Rows, d: nat)
    requires Inv(s)
    ensures Remove(s, d).Ok? <==> d in s.deliveries && !HasOrderInDelivery(s, d)
    ensures Remove(s, d) == Err(NotFound) <==> d !in s.deliveries
    ensures Remove(s, d) == Err(BadRequest) <==> d in s.deliveries && HasOrderInDelivery(s, d)
  {
    if HasOrderInDelivery(s, d) {
      var id :| id in s.orders && s.orders[id].deliveryId == Some(d) && s.orders[id].status == EmEntrega;
      assert OrderOk(s.orders[id], s.deliveries);
    }
  }

  /** The delivery and what points at it are gone; its orders are as after an upload, except for
      their weight and value, and nothing else has changed. */
  lemma RemovalFrees(s: Rows, d: nat)
    requires Remove(s, d).Ok?
    ensures var t := Remove(s, d).value;
      && t.deliveries == s.deliveries - {d} && t.payments == s.payments && t.orders.Keys == s.orders.Keys
      && (forall a :: a in t.approvals <==> a in s.approvals && s.approvals[a].deliveryId != d)
      && (forall a :: a in t.approvals ==> t.approvals[a] == s.approvals[a])
      && (forall l :: l in t.links <==> l in s.links && l.deliveryId != d)
      && (forall id :: id in s.orders ==>
            t.orders[id] == if s.orders[id].deliveryId == Some(d)
                            then Order(SemRota, None, s.orders[id].peso, s.orders[id].valor, None)
                            else s.orders[id])
  {
  }

  /** So a list of them can be routed again at once. */
  lemma RemovedCanBeRouted(s: Rows, d: nat, driver: nat, refs: seq<OrderRef>, frete: real, rules: TenantRules)
    requires Remove(s, d).Ok? && DistinctIds(RefIds(refs)) && Listed(refs) <= Attached(s.orders, d)
    ensures Create(Remove(s, d).value, driver, refs, frete, rules).Ok?
  {
    RemovalFrees(s, d);
  }

  // ---- Uploading ----

  lemma SumOfOne(m: map<nat, real>, k: nat, x: real)
    requires m.Keys == {k} && m[k] == x
    ensures Sum(m) == x
  {
    SumTake(m, k);
    assert m - {k} == map[];
  }

  /** An uploaded order is new and free and has the weight, value and sort value given; a
      delivery of it alone has its weight and value for totals. */
  lemma UploadStores(s: Rows, peso: real, valor: real, sorting: Option<int>, driver: nat, frete: real,
                     rules: TenantRules)
    requires Inv(s)
    ensures var t, id := Upload(s, peso, valor, sorting), s.nextOrder;
      var created := Create(t, driver, [OrderRef(id, None)], frete, rules);
      && id !in s.orders && t == s.(orders := t.orders, nextOrder := id + 1) && t.orders - {id} == s.orders
      && id in t.orders && t.orders[id] == Order(SemRota, None, peso, valor, sorting)
      && created.Ok? && t.nextDelivery in created.value.deliveries
      && created.value.deliveries[t.nextDelivery].totalPeso == peso
      && created.value.deliveries[t.nextDelivery].totalValor == valor
  {
    var t, id := Upload(s, peso, valor, sorting), s.nextOrder;
    var refs := [OrderRef(id, None)];
    assert refs[0].id == id;
    assert Listed(refs) == {id};
    SumOfOne(PesosIn(t.orders, {id}), id, peso);
    SumOfOne(ValoresIn(t.orders, {id}), id, valor);
  }

  // ---- The other refusals ----

  /** What is not there is not found. */
  lemma MissingIsNotFound(s: Rows, d: nat, r: Request)
    requires d !in s.deliveries
    requires match r
             case ApproveReq(e) => e == d
             case RejectReq(e) => e == d
             case EditReq(e, _, _, _, _) => e == d
             case RemoveReq(e) => e == d
             case RemoveOrderReq(e, _, _, _) => e == d
             case PayReq(e) => e == d
             case _ => false
    ensures Answer(s, r) == Err(NotFound)
  {
  }

  /** Decisions are for waiting deliveries, edits for waiting and started ones. */
  lemma WrongStatusIsBadRequest(s: Rows, d: nat, driver: Option<nat>, refs: Option<seq<OrderRef>>, frete: real,
                                rules: TenantRules)
    requires d in s.deliveries
    ensures Approve(s, d).Ok? <==> s.deliveries[d].status == ALiberar
    ensures Reject(s, d).Ok? <==> s.deliveries[d].status == ALiberar
    ensures s.deliveries[d].status != ALiberar ==> Approve(s, d) == Err(BadRequest) == Reject(s, d)
    ensures var edit := Edit(s, d, driver, refs, frete, rules);
      && (edit == Err(BadRequest) <==> s.deliveries[d].status == Finalizado || s.deliveries[d].status == Rejeitado)
      && (edit == Err(NotFound) <==>
            && (s.deliveries[d].status == ALiberar || s.deliveries[d].status == Iniciado)
            && refs.Some? && exists r :: r in refs.value && r.id !in s.orders)
      && (edit.Err? ==> edit.error in {BadRequest, NotFound})
  {
    if refs.Some? {
      if r :| r in refs.value && r.id !in s.orders {
        assert r.id in Listed(refs.value);
      }
    }
  }

  /** Only an order that is on the delivery can be removed from it, whatever its status. */
  lemma RemoveOrderIff(s: Rows, d: nat, id: nat, frete: real, rules: TenantRules)
    requires d in s.deliveries
    ensures RemoveOrder(s, d, id, frete, rules).Ok? <==> id in Attached(s.orders, d)
    ensures RemoveOrder(s, d, id, frete, rules).Err? ==> RemoveOrder(s, d, id, frete, rules) == Err(NotFound)
  {
  }

  /** A creation needs every order listed once, there and SEM_ROTA. */
  lemma CreationIff(s: Rows, driver: nat, refs: seq<OrderRef>, frete: real, rules: TenantRules)
    ensures Create(s, driver, refs, frete, rules).Ok? <==>
      && (forall i, j :: 0 <= i < j < |refs| ==> refs[i].id != refs[j].id)
      && (forall i :: 0 <= i < |refs| ==> refs[i].id in s.orders && s.orders[refs[i].id].status == SemRota)
    ensures Create(s, driver, refs, frete, rules).Err? ==> Create(s, driver, refs, frete, rules) == Err(BadRequest)
  {
    assert DistinctIds(RefIds(refs)) <==> forall i, j :: 0 <= i < j < |refs| ==> refs[i].id != refs[j].id by {
      assert forall i :: 0 <= i < |refs| ==> RefIds(refs)[i] == refs[i].id;
    }
    assert forall i :: 0 <= i < |refs| ==> refs[i].id in Listed(refs);
  }

  /** Payments are marked all at once or not at all. */
  lemma MarkingIff(s: Rows, ids: seq<nat>)
    ensures MarkAsPaid(s, ids).Ok? <==>
      && ids != [] && DistinctIds(ids)
      && forall p :: p in ids ==> p in s.payments && s.payments[p].status == Pendente
    ensures MarkAsPaid(s, ids) == Err(NotFound) <==>
      ids != [] && (!DistinctIds(ids) || exists p :: p in ids && p !in s.payments)
    ensures MarkAsPaid(s, ids).Err? ==> MarkAsPaid(s, ids).error in {NotFound, BadRequest}
  {
  }

  /** Any status can be set on a payment that is there; only a PAGO one goes back to pending. */
  lemma PaymentStatusIff(s: Rows, p: nat, status: PaymentStatus)
    ensures UpdatePaymentStatus(s, p, status).Ok? <==> p in s.payments
    ensures RevertPayment(s, p).Ok? <==> p in s.payments && s.payments[p].status == Pago
    ensures p !in s.payments ==> UpdatePaymentStatus(s, p, status) == Err(NotFound) == RevertPayment(s, p)
    ensures p in s.payments && s.payments[p].status != Pago ==> RevertPayment(s, p) == Err(BadRequest)
  {
  }

  /** What marking, setting and reverting write: the status of the payments named, nothing else. */
  lemma StatusIsWritten(s: Rows, r: Request, p: nat)
    requires Answer(s, r).Ok? && (r.MarkAsPaidReq? || r.PaymentStatusReq? || r.RevertReq?) && p in s.payments
    ensures var t := Step(s, r);
      var named := (r.MarkAsPaidReq? && p in r.ids) || (!r.MarkAsPaidReq? && p == r.p);
      var status := if r.MarkAsPaidReq? then Pago else if r.PaymentStatusReq? then r.status else Pendente;
      && t == s.(payments := t.payments) && t.payments.Keys == s.payments.Keys
      && t.payments[p] == if named then s.payments[p].(status := status) else s.payments[p]
  {
  }

  // ---- The same request twice ----

  /** What sending it again is answered with. */
  function SecondAnswer(r: Request): Option<Error> {
    match r
    case CreateReq(_, refs, _, _) => if refs == [] then None else Some(BadRequest)
    case ApproveReq(_) => Some(BadRequest)
    case RejectReq(_) => Some(BadRequest)
    case DriverReq(_, _, _, _) => Some(BadRequest)
    case RemoveReq(_) => Some(NotFound)
    case RemoveOrderReq(_, _, _, _) => Some(NotFound)
    case PayReq(_) => Some(Conflict)
    case MarkAsPaidReq(_) => Some(BadRequest)
    case RevertReq(_) => Some(BadRequest)
    case _ => None
  }

  lemma CreateTwice(s: Rows, driver: nat, refs: seq<OrderRef>, frete: real, rules: TenantRules)
    requires Create(s, driver, refs, frete, rules).Ok? && refs != []
    ensures Create(Create(s, driver, refs, frete, rules).value, driver, refs, frete, rules) == Err(BadRequest)
  {
    assert refs[0].id in Listed(refs);
  }

  lemma DriverTwice(s: Rows, driver: nat, id: nat, to: OrderStatus, hasReason: bool)
    requires UpdateOrderStatus(s, driver, id, to, hasReason).Ok?
    ensures var t := UpdateOrderStatus(s, driver, id, to, hasReason).value;
      UpdateOrderStatus(t, driver, id, to, hasReason) == Err(BadRequest)
  {
  }

  lemma RemoveOrderTwice(s: Rows, d: nat, id: nat, frete: real, rules: TenantRules)
    requires RemoveOrder(s, d, id, frete, rules).Ok?
    ensures RemoveOrder(RemoveOrder(s, d, id, frete, rules).value, d, id, frete, rules) == Err(NotFound)
  {
  }

  /** An accepted request that is not an upload, an edit, a change of payment status or an
      empty creation cannot be accepted twice in a row. */
  lemma TwiceIsRefused(s: Rows, r: Request)
    requires Answer(s, r).Ok? && SecondAnswer(r).Some?
    ensures Answer(Step(s, r), r) == Err(SecondAnswer(r).value)
  {
    match r
    case CreateReq(driver, refs, frete, rules) => CreateTwice(s, driver, refs, frete, rules);
    case DriverReq(driver, id, to, hasReason) => DriverTwice(s, driver, id, to, hasReason);
    case RemoveOrderReq(d, id, frete, rules) => RemoveOrderTwice(s, d, id, frete, rules);
    case PayReq(d) => assert Link(s.nextPayment, d) in Step(s, r).links;
    case MarkAsPaidReq(ids) => assert ids[0] in ids;
    case _ =>
  }
}
