/** What every request keeps: the two status machines stay aligned, nothing points at a
    deleted delivery, and every finalised delivery has exactly one payment link. */
module LifecycleInvariant {
  import opened Wrappers
  import opened ApprovalRules
  import opened Lifecycle

  /** The order statuses a delivery of each status may carry. */
  predicate Fits(o: OrderStatus, d: DeliveryStatus) {
    match d
    case ALiberar => o == EmRotaAguardandoLiberacao
    case Iniciado => o == EmRota || o == EmEntrega || o == Entregue || o == NaoEntregue
    case Finalizado => o == Entregue || o == NaoEntregue
    case Rejeitado => false
  }

  predicate OrderOk(o: Order, deliveries: map<nat, Delivery>) {
    match o.deliveryId
    case None => o.status == SemRota || o.status == EmRotaAguardandoLiberacao
    case Some(d) => d in deliveries && Fits(o.status, deliveries[d].status)
  }

  predicate Aligned(orders: map<nat, Order>, deliveries: map<nat, Delivery>) {
    forall id :: id in orders ==> OrderOk(orders[id], deliveries)
  }

  predicate ApprovalsOk(s: Rows) {
    forall a :: a in s.approvals ==> s.approvals[a].deliveryId in s.deliveries
  }

  predicate OneLinkEach(links: set<Link>) {
    forall l, k :: l in links && k in links && (l.deliveryId == k.deliveryId || l.paymentId == k.paymentId) ==> l == k
  }

  /** Every finalised delivery, but for one that may still be waiting for its payment, has a link. */
  predicate LinksOk(s: Rows, but: Option<nat>) {
    && OneLinkEach(s.links)
    && (forall l :: l in s.links ==> l.deliveryId in s.deliveries && l.paymentId in s.payments)
    && (forall d :: d in s.deliveries && s.deliveries[d].status == Finalizado && Some(d) != but ==> HasLink(s.links, d))
  }

  /** Ids still to be given out are unused. */
  predicate Issued(s: Rows) {
    && (forall id :: id in s.orders ==> id < s.nextOrder)
    && (forall d :: d in s.deliveries ==> d < s.nextDelivery)
    && (forall a :: a in s.approvals ==> a < s.nextApproval)
    && (forall p :: p in s.payments ==> p < s.nextPayment)
  }

  predicate InvBut(s: Rows, but: Option<nat>) {
    Aligned(s.orders, s.deliveries) && ApprovalsOk(s) && LinksOk(s, but) && Issued(s)
  }

  predicate Inv(s: Rows) {
    InvBut(s, None)
  }

  lemma CreateKeeps(s: Rows, driver: nat, refs: seq<OrderRef>, frete: real, rules: TenantRules)
    requires Inv(s) && Create(s, driver, refs, frete, rules).Ok?
    ensures Inv(Create(s, driver, refs, frete, rules).value)
  {
  }

  lemma ApproveKeeps(s: Rows, d: nat)
    requires Inv(s) && Approve(s, d).Ok?
    ensures Inv(Approve(s, d).value)
  {
  }

  lemma RejectKeeps(s: Rows, d: nat)
    requires Inv(s) && Reject(s, d).Ok?
    ensures Inv(Reject(s, d).value)
  {
  }

  lemma PayKeeps(s: Rows, d: nat)
    requires Inv(s) && Pay(s, d).Ok?
    ensures Inv(Pay(s, d).value)
  {
  }

  /** Finalising keeps links exact: the automatic payment is skipped only when one exists. */
  lemma FinaliseKeeps(s: Rows, d: nat)
    requires Inv(s) && d in s.deliveries && s.deliveries[d].status == Iniciado
    requires AllFinished(s.orders, d)
    ensures Inv(Finalise(s, d))
  {
  }

  lemma UpdateOrderStatusKeeps(s: Rows, driver: nat, id: nat, to: OrderStatus, hasReason: bool)
    requires Inv(s) && UpdateOrderStatus(s, driver, id, to, hasReason).Ok?
    ensures Inv(UpdateOrderStatus(s, driver, id, to, hasReason).value)
  {
    var d := s.orders[id].deliveryId.value;
    var t := s.(orders := s.orders[id := s.orders[id].(status := to)]);
    assert Inv(t);
    if AllFinished(t.orders, d) {
      FinaliseKeeps(t, d);
    }
  }

  /** The shared tail of edit and remove-order, on any order rows that fit. */
  lemma ReassessKeeps(s: Rows, d: nat, orders: map<nat, Order>, driver: nat, frete: real, rules: TenantRules)
    requires Inv(s) && d in s.deliveries && orders.Keys == s.orders.Keys
    requires Aligned(orders, s.deliveries)
    ensures Inv(Reassess(s, d, orders, driver, frete, rules))
  {
  }

  lemma PlacedFits(o: Order, id: nat, d: nat, refs: seq<OrderRef>, deliveries: map<nat, Delivery>)
    requires d in deliveries && deliveries[d].status != Finalizado && deliveries[d].status != Rejeitado
    requires OrderOk(o, deliveries)
    ensures OrderOk(Placed(o, id, d, refs, EntryStatus(deliveries[d].status)), deliveries)
  {
  }

  lemma EditKeeps(s: Rows, d: nat, driver: Option<nat>, refs: Option<seq<OrderRef>>, frete: real, rules: TenantRules)
    requires Inv(s) && Edit(s, d, driver, refs, frete, rules).Ok?
    ensures Inv(Edit(s, d, driver, refs, frete, rules).value)
  {
    var orders := EditedOrders(s, d, refs);
    forall id | id in orders ensures OrderOk(orders[id], s.deliveries) {
      assert OrderOk(s.orders[id], s.deliveries);
      if refs.Some? {
        PlacedFits(s.orders[id], id, d, refs.value, s.deliveries);
      }
    }
    ReassessKeeps(s, d, orders, NewDriver(s, d, driver), frete, rules);
  }

  lemma RemoveOrderKeeps(s: Rows, d: nat, id: nat, frete: real, rules: TenantRules)
    requires Inv(s) && RemoveOrder(s, d, id, frete, rules).Ok?
    ensures Inv(RemoveOrder(s, d, id, frete, rules).value)
  {
    var orders := s.orders[id := Freed(s.orders[id], d)];
    forall k | k in orders ensures OrderOk(orders[k], s.deliveries) {
      assert OrderOk(s.orders[k], s.deliveries);
    }
    ReassessKeeps(s, d, orders, s.deliveries[d].driverId, frete, rules);
  }

  lemma RemoveKeeps(s: Rows, d: nat)
    requires Inv(s) && Remove(s, d).Ok?
    ensures Inv(Remove(s, d).value)
  {
  }

  /** Every request keeps the invariant, accepted or not. */
  lemma StepKeeps(s: Rows, r: Request)
    requires Inv(s)
    ensures Inv(Step(s, r))
  {
    if Answer(s, r).Ok? {
      match r
      case UploadReq(_, _, _) =>
      case CreateReq(driver, refs, frete, rules) => CreateKeeps(s, driver, refs, frete, rules);
      case ApproveReq(d) => ApproveKeeps(s, d);
      case RejectReq(d) => RejectKeeps(s, d);
      case DriverReq(driver, id, to, hasReason) => UpdateOrderStatusKeeps(s, driver, id, to, hasReason);
      case EditReq(d, driver, refs, frete, rules) => EditKeeps(s, d, driver, refs, frete, rules);
      case RemoveReq(d) => RemoveKeeps(s, d);
      case RemoveOrderReq(d, id, frete, rules) => RemoveOrderKeeps(s, d, id, frete, rules);
      case PayReq(d) => PayKeeps(s, d);
      case MarkAsPaidReq(_) =>
      case PaymentStatusReq(_, _) =>
      case RevertReq(_) =>
    }
  }

  /** The invariant holds in every state any run of requests can reach. */
  lemma {:induction false} RunKeeps(rs: seq<Request>)
    ensures Inv(Run(rs))
  {
    if rs != [] {
      RunKeeps(rs[..|rs| - 1]);
      StepKeeps(Run(rs[..|rs| - 1]), rs[|rs| - 1]);
    }
  }

  /** No delivery has more than one payment link; a finalised one has exactly one. */
  lemma ExactLinks(s: Rows, d: nat)
    requires Inv(s)
    ensures |LinksOf(s, d)| <= 1
    ensures d in s.deliveries && s.deliveries[d].status == Finalizado ==> |LinksOf(s, d)| == 1
    ensures d !in s.deliveries ==> LinksOf(s, d) == {}
  {
    if l :| l in s.links && l.deliveryId == d {
      assert LinksOf(s, d) == {l};
    } else {
      assert LinksOf(s, d) == {};
    }
  }
}
