/** Shared parts of the concrete runs that show a property fail. */
module ExampleRuns {
  import opened Wrappers
  import opened ApprovalRules
  import opened Lifecycle

  const NO_RULES := TenantRules(None, None, None, None)

  /** A delivery of fewer than three orders must be approved. */
  const AT_LEAST_THREE := TenantRules(None, None, None, Some(3))

  /** An order as UPLOAD leaves it. */
  const FREE := Order(SemRota, None, 1.0, 1.0, None)

  const UPLOAD := UploadReq(1.0, 1.0, None)

  function OneOrder(id: nat, frete: real, rules: TenantRules): Request {
    CreateReq(0, [OrderRef(id, None)], frete, rules)
  }

  lemma NoRulesNoApproval(c: Checkup)
    requires c.rules == NO_RULES
    ensures !NeedsApproval(c)
  {
  }

  lemma TooFewOrders(c: Checkup)
    requires c.rules == AT_LEAST_THREE && c.ordersCount < 3
    ensures NeedsApproval(c)
  {
    assert Violated(c, FewOrders);
  }

  lemma RunOneMore(rs: seq<Request>, r: Request)
    ensures Run(rs + [r]) == Step(Run(rs), r)
  {
  }

  lemma TwoUploads(rs: seq<Request>)
    requires rs == [UPLOAD, UPLOAD]
    ensures var s := Run(rs);
      s.orders == map[0 := FREE, 1 := FREE] && s.deliveries == map[] && s.nextDelivery == 0 && s.links == {}
  {
    RunOneMore([], rs[0]);
    RunOneMore([rs[0]], rs[1]);
    assert rs == [rs[0]] + [rs[1]];
    assert [] + [rs[0]] == [rs[0]];
  }

  lemma Created(s: Rows, r: Request, status: DeliveryStatus)
    requires r.CreateReq? && Routable(s, r.refs)
    requires status == if NeedsApproval(CreationCheckup(s, r.refs, r.frete, r.rules)) then ALiberar else Iniciado
    ensures var t, d := Step(s, r), s.nextDelivery;
      && t.orders == (map id | id in s.orders :: Routed(s.orders[id], id, d, r.refs, EntryStatus(status)))
      && t.deliveries.Keys == s.deliveries.Keys + {d} && t.nextDelivery == d + 1 && t.links == s.links
      && t.deliveries[d].status == status
      && t.deliveries[d].driverId == r.driver && t.deliveries[d].valorFrete == r.frete
  {
  }

  lemma RefsOfOne(s: Rows, refs: seq<OrderRef>, id: nat)
    requires refs == [OrderRef(id, None)]
    ensures Listed(refs) == {id} && LastSorting(refs, id, None) == None
    ensures id in s.orders && s.orders[id].status == SemRota ==> Routable(s, refs)
  {
    assert refs[0].id == id;
    assert refs[..|refs| - 1] == [];
  }

  lemma CreateOne(s: Rows, r: Request, id: nat, frete: real, rules: TenantRules)
    requires r == OneOrder(id, frete, rules) && (rules == NO_RULES || rules == AT_LEAST_THREE)
    requires id in s.orders && s.orders[id] == FREE
    ensures var t, d := Step(s, r), s.nextDelivery;
      var status := if rules == NO_RULES then Iniciado else ALiberar;
      && t.orders == s.orders[id := FREE.(status := EntryStatus(status), deliveryId := Some(d))]
      && t.deliveries.Keys == s.deliveries.Keys + {d} && t.nextDelivery == d + 1 && t.links == s.links
      && t.deliveries[d].status == status && t.deliveries[d].driverId == 0 && t.deliveries[d].valorFrete == frete
  {
    var c := CreationCheckup(s, r.refs, frete, rules);
    RefsOfOne(s, r.refs, id);
    if rules == NO_RULES {
      NoRulesNoApproval(c);
    } else {
      TooFewOrders(c);
    }
    Created(s, r, if rules == NO_RULES then Iniciado else ALiberar);
  }

  lemma OneDelivery(s: Rows, r: Request, frete: real, rules: TenantRules)
    requires r == OneOrder(0, frete, rules) && (rules == NO_RULES || rules == AT_LEAST_THREE)
    requires s.orders == map[0 := FREE, 1 := FREE] && s.deliveries == map[] && s.nextDelivery == 0
    ensures var t := Step(s, r);
      var status := if rules == NO_RULES then Iniciado else ALiberar;
      && t.orders.Keys == {0, 1} && t.orders[1] == FREE
      && t.orders[0] == FREE.(status := EntryStatus(status), deliveryId := Some(0))
      && t.deliveries.Keys == {0} && t.nextDelivery == 1 && t.links == s.links
      && t.deliveries[0].status == status && t.deliveries[0].driverId == 0 && t.deliveries[0].valorFrete == frete
  {
    CreateOne(s, r, 0, frete, rules);
  }

  lemma OneDeliveryRows(rs: seq<Request>, r: Request, frete: real, rules: TenantRules)
    requires rs == [UPLOAD, UPLOAD] && r == OneOrder(0, frete, rules) && (rules == NO_RULES || rules == AT_LEAST_THREE)
    ensures var s := Run(rs + [r]);
      var status := if rules == NO_RULES then Iniciado else ALiberar;
      && s.orders.Keys == {0, 1} && s.orders[1] == FREE
      && s.orders[0] == FREE.(status := EntryStatus(status), deliveryId := Some(0))
      && s.deliveries.Keys == {0} && s.nextDelivery == 1 && s.links == {}
      && s.deliveries[0].status == status && s.deliveries[0].driverId == 0 && s.deliveries[0].valorFrete == frete
  {
    TwoUploads(rs);
    RunOneMore(rs, r);
    OneDelivery(Run(rs), r, frete, rules);
  }

  // ---- Two orders in delivery ----

  const CREATE_BOTH := CreateReq(0, [OrderRef(0, None), OrderRef(1, None)], 0.0, NO_RULES)

  /** A run that leaves two orders in delivery on a started delivery without a payment. */
  const TWO_IN_DELIVERY: seq<Request> := [
    UPLOAD, UPLOAD,
    CREATE_BOTH,
    DriverReq(0, 0, EmEntrega, false), DriverReq(0, 1, EmEntrega, false)]

  lemma RefsOfTwo(s: Rows, refs: seq<OrderRef>)
    requires s.orders == map[0 := FREE, 1 := FREE] && refs == [OrderRef(0, None), OrderRef(1, None)]
    ensures Listed(refs) == s.orders.Keys && Routable(s, refs)
  {
    assert refs[0].id == 0 && refs[1].id == 1;
  }

  lemma CreateAll(s: Rows, r: Request)
    requires s.orders.Keys == {0, 1} && s.deliveries == map[] && s.nextDelivery == 0
    requires r.CreateReq? && r.rules == NO_RULES && Listed(r.refs) == s.orders.Keys && Routable(s, r.refs)
    ensures var t := Step(s, r);
      && t.orders.Keys == {0, 1} && t.deliveries.Keys == {0} && t.links == s.links
      && t.deliveries[0].status == Iniciado && t.deliveries[0].driverId == r.driver
      && forall id :: id in t.orders ==> t.orders[id].deliveryId == Some(0) && t.orders[id].status == EmRota
  {
    NoRulesNoApproval(CreationCheckup(s, r.refs, r.frete, r.rules));
    Created(s, r, Iniciado);
  }

  lemma CreateTwo(s: Rows, r: Request)
    requires s.orders == map[0 := FREE, 1 := FREE] && s.deliveries == map[] && s.nextDelivery == 0
    requires r == CREATE_BOTH
    ensures var t := Step(s, r);
      && t.orders.Keys == {0, 1} && t.deliveries.Keys == {0} && t.links == s.links
      && t.deliveries[0].status == Iniciado && t.deliveries[0].driverId == 0
      && forall id :: id in t.orders ==> t.orders[id].deliveryId == Some(0) && t.orders[id].status == EmRota
  {
    RefsOfTwo(s, r.refs);
    CreateAll(s, r);
  }

  lemma DriveOne(s: Rows, id: nat)
    requires id in s.orders && s.orders[id].deliveryId == Some(0) && s.orders[id].status == EmRota
    requires 0 in s.deliveries && s.deliveries[0].status == Iniciado && s.deliveries[0].driverId == 0
    ensures Step(s, DriverReq(0, id, EmEntrega, false))
      == s.(orders := s.orders[id := s.orders[id].(status := EmEntrega)])
  {
    var t := s.orders[id := s.orders[id].(status := EmEntrega)];
    assert !Finished(t[id].status) && t[id].deliveryId == Some(0);
  }

  lemma TwoOnRoute(rs: seq<Request>, r: Request)
    requires rs == [UPLOAD, UPLOAD] && r == CREATE_BOTH
    ensures var t := Run(rs + [r]);
      && t.orders.Keys == {0, 1} && t.deliveries.Keys == {0} && t.links == {}
      && t.deliveries[0].status == Iniciado && t.deliveries[0].driverId == 0
      && forall id :: id in t.orders ==> t.orders[id].deliveryId == Some(0) && t.orders[id].status == EmRota
  {
    TwoUploads(rs);
    RunOneMore(rs, r);
    CreateTwo(Run(rs), r);
  }

  lemma TwoInDeliveryRows(rs: seq<Request>)
    requires rs == TWO_IN_DELIVERY
    ensures var s := Run(rs);
      && s.orders.Keys == {0, 1} && s.deliveries.Keys == {0} && s.links == {}
      && s.deliveries[0].status == Iniciado && s.deliveries[0].driverId == 0
      && forall id :: id in s.orders ==> s.orders[id].deliveryId == Some(0) && s.orders[id].status == EmEntrega
  {
    TwoOnRoute(rs[..2], rs[2]);
    var three := rs[..2] + [rs[2]];
    var four := three + [rs[3]];
    assert rs == four + [rs[4]];
    RunOneMore(three, rs[3]);
    RunOneMore(four, rs[4]);
    DriveOne(Run(three), 0);
    DriveOne(Run(four), 1);
  }
}
