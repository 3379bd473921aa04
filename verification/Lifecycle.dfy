/** The rows of one tenant and the net effect of every request on them.

    Each request is a function from the rows before to the rows after, or an error
    that leaves the rows alone. Effects on orders are written per row, without the
    statement order of the service; TenantStore runs the statements one by one and is
    proved to arrive at the same rows. */
module Lifecycle {
  import opened Wrappers
  import opened Sums
  import opened ApprovalRules

  datatype OrderStatus =
    | SemRota
    | EmRotaAguardandoLiberacao
    | EmRota
    | EmEntrega
    | Entregue
    | NaoEntregue

  datatype DeliveryStatus = ALiberar | Iniciado | Finalizado | Rejeitado

  datatype PaymentStatus = Pendente | Pago | Cancelado

  datatype ApprovalAction = Approved | Rejected

  datatype Order = Order(
    status: OrderStatus,
    deliveryId: Option<nat>,
    peso: real,
    valor: real,
    sorting: Option<int>)

  datatype Delivery = Delivery(
    driverId: nat,
    valorFrete: real,
    totalPeso: real,
    totalValor: real,
    status: DeliveryStatus)

  datatype Approval = Approval(deliveryId: nat, action: ApprovalAction)

  datatype Payment = Payment(amount: real, driverId: nat, status: PaymentStatus)

  datatype Link = Link(paymentId: nat, deliveryId: nat)

  /** An entry of the order list of a create or edit request. */
  datatype OrderRef = OrderRef(id: nat, sorting: Option<int>)

  /** The next* counters stand for the database's supply of unused ids. */
  datatype Rows = Rows(
    orders: map<nat, Order>,
    deliveries: map<nat, Delivery>,
    approvals: map<nat, Approval>,
    payments: map<nat, Payment>,
    links: set<Link>,
    nextOrder: nat,
    nextDelivery: nat,
    nextApproval: nat,
    nextPayment: nat)

  const NO_ROWS := Rows(map[], map[], map[], map[], {}, 0, 0, 0, 0)

  // ---- Reading the rows ----

  function Attached(orders: map<nat, Order>, d: nat): set<nat> {
    set id | id in orders && orders[id].deliveryId == Some(d)
  }

  function PesosOf(orders: map<nat, Order>, d: nat): map<nat, real> {
    map id | id in orders && orders[id].deliveryId == Some(d) :: orders[id].peso
  }

  function ValoresOf(orders: map<nat, Order>, d: nat): map<nat, real> {
    map id | id in orders && orders[id].deliveryId == Some(d) :: orders[id].valor
  }

  function PesosIn(orders: map<nat, Order>, ids: set<nat>): map<nat, real> {
    map id | id in orders && id in ids :: orders[id].peso
  }

  function ValoresIn(orders: map<nat, Order>, ids: set<nat>): map<nat, real> {
    map id | id in orders && id in ids :: orders[id].valor
  }

  predicate Finished(s: OrderStatus) {
    s == Entregue || s == NaoEntregue
  }

  predicate AllFinished(orders: map<nat, Order>, d: nat) {
    forall id :: id in orders && orders[id].deliveryId == Some(d) ==> Finished(orders[id].status)
  }

  predicate HasLink(links: set<Link>, d: nat) {
    exists l :: l in links && l.deliveryId == d
  }

  function LinksOf(s: Rows, d: nat): set<Link> {
    set l | l in s.links && l.deliveryId == d
  }

  function Listed(refs: seq<OrderRef>): set<nat> {
    set r | r in refs :: r.id
  }

  predicate DistinctIds(ids: seq<nat>) {
    forall i, j :: 0 <= i < j < |ids| ==> ids[i] != ids[j]
  }

  function RefIds(refs: seq<OrderRef>): seq<nat> {
    seq(|refs|, i requires 0 <= i < |refs| => refs[i].id)
  }

  /** The sorting an order ends with: the last one listed for it, or the one it had. */
  function LastSorting(refs: seq<OrderRef>, id: nat, before: Option<int>): Option<int> {
    if refs == [] then before
    else
      var last := refs[|refs| - 1];
      if last.id == id && last.sorting.Some? then last.sorting
      else LastSorting(refs[..|refs| - 1], id, before)
  }

  /** The rule check made on a delivery's orders as they now stand. */
  ghost function CheckupOf(orders: map<nat, Order>, d: nat, frete: real, rules: TenantRules): Checkup {
    Checkup(rules, Sum(ValoresOf(orders, d)), Sum(PesosOf(orders, d)), |Attached(orders, d)|, frete)
  }

  // ---- Creating a delivery ----

  function EntryStatus(s: DeliveryStatus): OrderStatus {
    if s == ALiberar then EmRotaAguardandoLiberacao else EmRota
  }

  function Routed(o: Order, id: nat, d: nat, refs: seq<OrderRef>, status: OrderStatus): Order {
    if id in Listed(refs)
    then o.(status := status, deliveryId := Some(d), sorting := LastSorting(refs, id, o.sorting))
    else o
  }

  predicate Routable(s: Rows, refs: seq<OrderRef>) {
    && DistinctIds(RefIds(refs))
    && forall id :: id in Listed(refs) ==> id in s.orders && s.orders[id].status == SemRota
  }

  ghost function CreationCheckup(s: Rows, refs: seq<OrderRef>, frete: real, rules: TenantRules): Checkup {
    var ids := Listed(refs);
    Checkup(rules, Sum(ValoresIn(s.orders, ids)), Sum(PesosIn(s.orders, ids)), |refs|, frete)
  }

  ghost function Create(s: Rows, driver: nat, refs: seq<OrderRef>, frete: real, rules: TenantRules): Result<Rows> {
    if !Routable(s, refs) then Err(BadRequest)
    else
      var c := CreationCheckup(s, refs, frete, rules);
      var status := if NeedsApproval(c) then ALiberar else Iniciado;
      var d := s.nextDelivery;
      Ok(s.(
        orders := map id | id in s.orders :: Routed(s.orders[id], id, d, refs, EntryStatus(status)),
        deliveries := s.deliveries[d := Delivery(driver, frete, c.totalPeso, c.totalValor, status)],
        nextDelivery := d + 1))
  }

  // ---- Approving and rejecting ----

  function Released(o: Order, d: nat): Order {
    if o.deliveryId == Some(d) && o.status == EmRotaAguardandoLiberacao then o.(status := EmRota) else o
  }

  function AddApproval(s: Rows, d: nat, action: ApprovalAction): Rows {
    s.(approvals := s.approvals[s.nextApproval := Approval(d, action)],
       nextApproval := s.nextApproval + 1)
  }

  function Approve(s: Rows, d: nat): Result<Rows> {
    if d !in s.deliveries then Err(NotFound)
    else if s.deliveries[d].status != ALiberar then Err(BadRequest)
    else
      Ok(AddApproval(
           s.(orders := map id | id in s.orders :: Released(s.orders[id], d),
              deliveries := s.deliveries[d := s.deliveries[d].(status := Iniciado)]),
           d, Approved))
  }

  /** Only the link to the delivery is cut: status and sorting stay as they were. */
  function CutLoose(o: Order, d: nat): Order {
    if o.deliveryId == Some(d) then o.(deliveryId := None) else o
  }

  function Reject(s: Rows, d: nat): Result<Rows> {
    if d !in s.deliveries then Err(NotFound)
    else if s.deliveries[d].status != ALiberar then Err(BadRequest)
    else
      Ok(AddApproval(
           s.(orders := map id | id in s.orders :: CutLoose(s.orders[id], d),
              deliveries := s.deliveries[d := s.deliveries[d].(status := Rejeitado)]),
           d, Rejected))
  }

  // ---- Payments ----

  /** A pending payment of the delivery's freight, and its link. */
  function InsertLink(s: Rows, d: nat): Rows
    requires d in s.deliveries
  {
    var p := s.nextPayment;
    s.(payments := s.payments[p := Payment(s.deliveries[d].valorFrete, s.deliveries[d].driverId, Pendente)],
       links := s.links + {Link(p, d)},
       nextPayment := p + 1)
  }

  function Pay(s: Rows, d: nat): Result<Rows> {
    if d !in s.deliveries then Err(NotFound)
    else if HasLink(s.links, d) then Err(Conflict)
    else Ok(InsertLink(s, d))
  }

  function IdSet(ids: seq<nat>): set<nat> {
    set p | p in ids
  }

  function WithStatus(s: Rows, ids: set<nat>, status: PaymentStatus): Rows {
    s.(payments := map p | p in s.payments ::
         if p in ids then s.payments[p].(status := status) else s.payments[p])
  }

  function MarkAsPaid(s: Rows, ids: seq<nat>): Result<Rows> {
    if ids == [] then Err(BadRequest)
    else if !DistinctIds(ids) || exists p :: p in ids && p !in s.payments then Err(NotFound)
    else if exists p :: p in ids && s.payments[p].status != Pendente then Err(BadRequest)
    else Ok(WithStatus(s, IdSet(ids), Pago))
  }

  function UpdatePaymentStatus(s: Rows, p: nat, status: PaymentStatus): Result<Rows> {
    if p !in s.payments then Err(NotFound) else Ok(WithStatus(s, {p}, status))
  }

  function RevertPayment(s: Rows, p: nat): Result<Rows> {
    if p !in s.payments then Err(NotFound)
    else if s.payments[p].status != Pago then Err(BadRequest)
    else Ok(WithStatus(s, {p}, Pendente))
  }

  // ---- The driver's steps ----

  predicate ValidTransition(from: OrderStatus, to: OrderStatus) {
    match from
    case EmRota => to == EmEntrega
    case EmEntrega => to == Entregue || to == NaoEntregue
    case _ => false
  }

  /** Finalising pays the driver unless the delivery was paid by hand before. */
  function Finalise(s: Rows, d: nat): Rows
    requires d in s.deliveries
  {
    var t := s.(deliveries := s.deliveries[d := s.deliveries[d].(status := Finalizado)]);
    match Pay(t, d)
    case Ok(paid) => paid
    case Err(_) => t
  }

  function UpdateOrderStatus(s: Rows, driver: nat, id: nat, to: OrderStatus, hasReason: bool): Result<Rows> {
    if id !in s.orders then Err(NotFound)
    else
      var o := s.orders[id];
      if o.deliveryId.None? || o.deliveryId.value !in s.deliveries
         || s.deliveries[o.deliveryId.value].driverId != driver then Err(Forbidden)
      else if s.deliveries[o.deliveryId.value].status != Iniciado then Err(BadRequest)
      else if !ValidTransition(o.status, to) then Err(BadRequest)
      else if to == NaoEntregue && !hasReason then Err(BadRequest)
      else
        var t := s.(orders := s.orders[id := o.(status := to)]);
        var d := o.deliveryId.value;
        Ok(if AllFinished(t.orders, d) then Finalise(t, d) else t)
  }

  // ---- Editing and removing ----

  /** An order of the delivery that goes back to SEM_ROTA. */
  function Freed(o: Order, d: nat): Order {
    if o.deliveryId == Some(d) then o.(status := SemRota, deliveryId := None, sorting := None) else o
  }

  /** Plain replacement of the delivery's order list. */
  function Placed(o: Order, id: nat, d: nat, refs: seq<OrderRef>, entry: OrderStatus): Order {
    if id in Listed(refs) then
      o.(deliveryId := Some(d),
         status := if o.deliveryId == Some(d) then o.status else entry,
         sorting := LastSorting(refs, id, o.sorting))
    else Freed(o, d)
  }

  /** Every order of a delivery sent back for approval waits again. */
  function Recalled(o: Order, d: nat): Order {
    if o.deliveryId == Some(d) then o.(status := EmRotaAguardandoLiberacao) else o
  }

  /** The tail shared by edit and remove-order: totals, freight, rule check and, for a
      started delivery that now breaks a rule, the way back to approval. */
  ghost function Reassess(s: Rows, d: nat, orders: map<nat, Order>, driver: nat,
                          frete: real, rules: TenantRules): Rows
    requires d in s.deliveries
  {
    var before := s.deliveries[d].status;
    var c := CheckupOf(orders, d, frete, rules);
    var recall := before == Iniciado && NeedsApproval(c);
    s.(orders := if recall then map id | id in orders :: Recalled(orders[id], d) else orders,
       deliveries := s.deliveries[d := Delivery(driver, frete, c.totalPeso, c.totalValor,
                                                if recall then ALiberar else before)])
  }

  function EditedOrders(s: Rows, d: nat, refs: Option<seq<OrderRef>>): map<nat, Order>
    requires d in s.deliveries
  {
    if refs.None? then s.orders
    else map id | id in s.orders ::
           Placed(s.orders[id], id, d, refs.value, EntryStatus(s.deliveries[d].status))
  }

  /** An edit without a driver keeps the one there is. */
  function NewDriver(s: Rows, d: nat, driver: Option<nat>): nat
    requires d in s.deliveries
  {
    if driver.Some? then driver.value else s.deliveries[d].driverId
  }

  ghost function Edit(s: Rows, d: nat, driver: Option<nat>, refs: Option<seq<OrderRef>>,
                      frete: real, rules: TenantRules): Result<Rows>
  {
    if d !in s.deliveries then Err(NotFound)
    else if s.deliveries[d].status in {Finalizado, Rejeitado} then Err(BadRequest)
    else if refs.Some? && !(Listed(refs.value) <= s.orders.Keys) then Err(NotFound)
    else
      Ok(Reassess(s, d, EditedOrders(s, d, refs), NewDriver(s, d, driver), frete, rules))
  }

  ghost function RemoveOrder(s: Rows, d: nat, id: nat, frete: real, rules: TenantRules): Result<Rows> {
    if d !in s.deliveries then Err(NotFound)
    else if id !in s.orders || s.orders[id].deliveryId != Some(d) then Err(NotFound)
    else
      Ok(Reassess(s, d, s.orders[id := Freed(s.orders[id], d)], s.deliveries[d].driverId, frete, rules))
  }

  function ApprovalsWithout(approvals: map<nat, Approval>, d: nat): map<nat, Approval> {
    map a | a in approvals && approvals[a].deliveryId != d :: approvals[a]
  }

  function LinksWithout(links: set<Link>, d: nat): set<Link> {
    set l | l in links && l.deliveryId != d
  }

  function Remove(s: Rows, d: nat): Result<Rows> {
    if d !in s.deliveries then Err(NotFound)
    else if s.deliveries[d].status == Iniciado
         && exists id :: id in s.orders && s.orders[id].deliveryId == Some(d) && s.orders[id].status == EmEntrega
    then Err(BadRequest)
    else
      Ok(s.(orders := map id | id in s.orders :: Freed(s.orders[id], d),
            deliveries := s.deliveries - {d},
            approvals := ApprovalsWithout(s.approvals, d),
            links := LinksWithout(s.links, d)))
  }

  // ---- Order upload ----

  function Upload(s: Rows, peso: real, valor: real, sorting: Option<int>): Rows {
    s.(orders := s.orders[s.nextOrder := Order(SemRota, None, peso, valor, sorting)],
       nextOrder := s.nextOrder + 1)
  }

  // ---- Runs ----

  /** Freight and rules are what the calculator and the tenant row gave when the request
      ran; any value is allowed. */
  datatype Request =
    | UploadReq(peso: real, valor: real, sorting: Option<int>)
    | CreateReq(driver: nat, refs: seq<OrderRef>, frete: real, rules: TenantRules)
    | ApproveReq(d: nat)
    | RejectReq(d: nat)
    | DriverReq(driver: nat, id: nat, to: OrderStatus, hasReason: bool)
    | EditReq(d: nat, newDriver: Option<nat>, newRefs: Option<seq<OrderRef>>, frete: real, rules: TenantRules)
    | RemoveReq(d: nat)
    | RemoveOrderReq(d: nat, id: nat, frete: real, rules: TenantRules)
    | PayReq(d: nat)
    | MarkAsPaidReq(ids: seq<nat>)
    | PaymentStatusReq(p: nat, status: PaymentStatus)
    | RevertReq(p: nat)

  ghost function Answer(s: Rows, r: Request): Result<Rows> {
    match r
    case UploadReq(peso, valor, sorting) => Ok(Upload(s, peso, valor, sorting))
    case CreateReq(driver, refs, frete, rules) => Create(s, driver, refs, frete, rules)
    case ApproveReq(d) => Approve(s, d)
    case RejectReq(d) => Reject(s, d)
    case DriverReq(driver, id, to, hasReason) => UpdateOrderStatus(s, driver, id, to, hasReason)
    case EditReq(d, driver, refs, frete, rules) => Edit(s, d, driver, refs, frete, rules)
    case RemoveReq(d) => Remove(s, d)
    case RemoveOrderReq(d, id, frete, rules) => RemoveOrder(s, d, id, frete, rules)
    case PayReq(d) => Pay(s, d)
    case MarkAsPaidReq(ids) => MarkAsPaid(s, ids)
    case PaymentStatusReq(p, status) => UpdatePaymentStatus(s, p, status)
    case RevertReq(p) => RevertPayment(s, p)
  }

  ghost function Step(s: Rows, r: Request): Rows {
    match Answer(s, r)
    case Ok(t) => t
    case Err(_) => s
  }

  /** The rows after a run of requests, starting from an empty tenant. */
  ghost function Run(rs: seq<Request>): Rows {
    if rs == [] then NO_ROWS else Step(Run(rs[..|rs| - 1]), rs[|rs| - 1])
  }
}
