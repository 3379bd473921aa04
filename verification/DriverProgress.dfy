/** The driver's steps bring a started delivery to its end, one rank at a time. */
module DriverProgress {
  import opened Wrappers
  import opened ApprovalRules
  import opened Lifecycle
  import opened LifecycleInvariant

  function WithOrderStatus(orders: map<nat, Order>, d: nat, status: OrderStatus): set<nat> {
    set id | id in orders && orders[id].deliveryId == Some(d) && orders[id].status == status
  }

  /** EM_ROTA counts 2, EM_ENTREGA counts 1, a finished order counts 0. */
  function RankSum(orders: map<nat, Order>, d: nat): nat {
    2 * |WithOrderStatus(orders, d, EmRota)| + |WithOrderStatus(orders, d, EmEntrega)|
  }

  lemma NoneLeft(s: Rows, d: nat)
    requires Aligned(s.orders, s.deliveries) && d in s.deliveries && s.deliveries[d].status == Iniciado
    ensures RankSum(s.orders, d) == 0 <==> AllFinished(s.orders, d)
  {
    if AllFinished(s.orders, d) {
      assert WithOrderStatus(s.orders, d, EmRota) == {} && WithOrderStatus(s.orders, d, EmEntrega) == {};
    } else {
      var id :| id in s.orders && s.orders[id].deliveryId == Some(d) && !Finished(s.orders[id].status);
      assert OrderOk(s.orders[id], s.deliveries);
      assert id in WithOrderStatus(s.orders, d, EmRota) || id in WithOrderStatus(s.orders, d, EmEntrega);
    }
  }

  lemma RankDrops(orders: map<nat, Order>, d: nat, id: nat, to: OrderStatus)
    requires id in orders && orders[id].deliveryId == Some(d) && ValidTransition(orders[id].status, to)
    ensures RankSum(orders[id := orders[id].(status := to)], d) == RankSum(orders, d) - 1
  {
    var after := orders[id := orders[id].(status := to)];
    var onRoute, inDelivery := WithOrderStatus(orders, d, EmRota), WithOrderStatus(orders, d, EmEntrega);
    if orders[id].status == EmRota {
      assert WithOrderStatus(after, d, EmRota) == onRoute - {id};
      assert WithOrderStatus(after, d, EmEntrega) == inDelivery + {id};
    } else {
      assert WithOrderStatus(after, d, EmRota) == onRoute;
      assert WithOrderStatus(after, d, EmEntrega) == inDelivery - {id};
    }
  }

  /** A step on an order of d lowers its rank sum by exactly one and finalises d in the very
      step that brings it to zero. */
  lemma DriverStep(s: Rows, driver: nat, id: nat, to: OrderStatus, hasReason: bool)
    requires Inv(s) && UpdateOrderStatus(s, driver, id, to, hasReason).Ok?
    ensures var t, d := UpdateOrderStatus(s, driver, id, to, hasReason).value, s.orders[id].deliveryId.value;
      && d in s.deliveries && s.deliveries[d].status == Iniciado && d in t.deliveries
      && RankSum(t.orders, d) == RankSum(s.orders, d) - 1
      && t.deliveries[d].status == (if RankSum(t.orders, d) == 0 then Finalizado else Iniciado)
  {
    var d := s.orders[id].deliveryId.value;
    var moved := s.(orders := s.orders[id := s.orders[id].(status := to)]);
    RankDrops(s.orders, d, id, to);
    assert Aligned(moved.orders, moved.deliveries) by {
      assert OrderOk(s.orders[id], s.deliveries);
    }
    NoneLeft(moved, d);
  }

  /** No other delivery is changed by it. */
  lemma DriverStepElsewhere(s: Rows, driver: nat, id: nat, to: OrderStatus, hasReason: bool, e: nat)
    requires UpdateOrderStatus(s, driver, id, to, hasReason).Ok?
    requires e in s.deliveries && s.orders[id].deliveryId != Some(e)
    ensures var t := UpdateOrderStatus(s, driver, id, to, hasReason).value;
      e in t.deliveries && t.deliveries[e] == s.deliveries[e] && RankSum(t.orders, e) == RankSum(s.orders, e)
  {
    var t := UpdateOrderStatus(s, driver, id, to, hasReason).value;
    assert WithOrderStatus(t.orders, e, EmRota) == WithOrderStatus(s.orders, e, EmRota);
    assert WithOrderStatus(t.orders, e, EmEntrega) == WithOrderStatus(s.orders, e, EmEntrega);
  }

  /** While anything is left to do, the delivery's driver has a step that is accepted. */
  lemma SomeStepAccepted(s: Rows, d: nat) returns (id: nat, to: OrderStatus)
    requires Inv(s) && d in s.deliveries && s.deliveries[d].status == Iniciado && RankSum(s.orders, d) > 0
    ensures id in s.orders && s.orders[id].deliveryId == Some(d)
    ensures UpdateOrderStatus(s, s.deliveries[d].driverId, id, to, false).Ok?
  {
    NoneLeft(s, d);
    id :| id in s.orders && s.orders[id].deliveryId == Some(d) && !Finished(s.orders[id].status);
    assert OrderOk(s.orders[id], s.deliveries);
    to := if s.orders[id].status == EmRota then EmEntrega else Entregue;
  }

  /** A step of the driver on an order of d that was accepted. */
  ghost predicate AcceptedOn(s: Rows, r: Request, d: nat) {
    && r.DriverReq? && r.id in s.orders && s.orders[r.id].deliveryId == Some(d)
    && UpdateOrderStatus(s, r.driver, r.id, r.to, r.hasReason).Ok?
  }

  lemma NoStepAfterTheEnd(s: Rows, d: nat)
    requires d in s.deliveries && s.deliveries[d].status != Iniciado
    ensures forall r :: !AcceptedOn(s, r, d)
  {
  }

  /** The rows after a list of requests, from any rows. */
  ghost function After(s: Rows, rs: seq<Request>): Rows
    decreases |rs|
  {
    if rs == [] then s else After(Step(s, rs[0]), rs[1..])
  }

  ghost predicate AllAcceptedOn(s: Rows, rs: seq<Request>, d: nat)
    decreases |rs|
  {
    rs != [] ==> AcceptedOn(s, rs[0], d) && AllAcceptedOn(Step(s, rs[0]), rs[1..], d)
  }

  /** However the driver works, a delivery is finalised after exactly RankSum accepted steps:
      never earlier, and never more steps are accepted. */
  lemma {:induction false} ExactlyRankSumSteps(s: Rows, rs: seq<Request>, d: nat)
    requires Inv(s) && d in s.deliveries && s.deliveries[d].status == Iniciado && RankSum(s.orders, d) > 0
    requires AllAcceptedOn(s, rs, d)
    ensures |rs| <= RankSum(s.orders, d)
    ensures d in After(s, rs).deliveries
    ensures After(s, rs).deliveries[d].status == (if |rs| == RankSum(s.orders, d) then Finalizado else Iniciado)
    decreases |rs|
  {
    if rs != [] {
      var r, t := rs[0], Step(s, rs[0]);
      assert t == UpdateOrderStatus(s, r.driver, r.id, r.to, r.hasReason).value;
      DriverStep(s, r.driver, r.id, r.to, r.hasReason);
      StepKeeps(s, r);
      if RankSum(t.orders, d) > 0 {
        ExactlyRankSumSteps(t, rs[1..], d);
      } else {
        NoStepAfterTheEnd(t, d);
      }
    }
  }

  /** And such a list of steps always exists. */
  lemma {:induction false} DriverCanFinish(s: Rows, d: nat) returns (rs: seq<Request>)
    requires Inv(s) && d in s.deliveries && s.deliveries[d].status == Iniciado
    ensures |rs| == RankSum(s.orders, d) && AllAcceptedOn(s, rs, d)
    ensures RankSum(s.orders, d) > 0 ==> d in After(s, rs).deliveries && After(s, rs).deliveries[d].status == Finalizado
    decreases RankSum(s.orders, d)
  {
    if RankSum(s.orders, d) == 0 {
      rs := [];
    } else {
      var id, to := SomeStepAccepted(s, d);
      var r := DriverReq(s.deliveries[d].driverId, id, to, false);
      var t := Step(s, r);
      assert t == UpdateOrderStatus(s, r.driver, r.id, r.to, r.hasReason).value;
      DriverStep(s, r.driver, id, to, false);
      StepKeeps(s, r);
      if RankSum(t.orders, d) == 0 {
        rs := [r];
      } else {
        var rest := DriverCanFinish(t, d);
        rs := [r] + rest;
        assert rs[1..] == rest;
      }
      ExactlyRankSumSteps(s, rs, d);
    }
  }

  // ---- Where the driver's work begins ----

  lemma AllOnRoute(orders: map<nat, Order>, d: nat)
    requires forall id :: id in Attached(orders, d) ==> orders[id].status == EmRota
    ensures RankSum(orders, d) == 2 * |Attached(orders, d)|
  {
    assert WithOrderStatus(orders, d, EmRota) == Attached(orders, d);
    assert WithOrderStatus(orders, d, EmEntrega) == {};
  }

  /** All work is still to be done: every order of d has both its steps ahead of it. */
  ghost predicate ReadyToGo(s: Rows, d: nat) {
    && d in s.deliveries && s.deliveries[d].status == Iniciado
    && RankSum(s.orders, d) == 2 * |Attached(s.orders, d)|
    && (forall id :: id in Attached(s.orders, d) ==>
          UpdateOrderStatus(s, s.deliveries[d].driverId, id, EmEntrega, false).Ok?)
    && Remove(s, d).Ok?
  }

  lemma OnRouteIsReady(s: Rows, d: nat)
    requires d in s.deliveries && s.deliveries[d].status == Iniciado
    requires forall id :: id in Attached(s.orders, d) ==> s.orders[id].status == EmRota
    ensures ReadyToGo(s, d)
  {
    AllOnRoute(s.orders, d);
    forall id | id in s.orders && s.orders[id].deliveryId == Some(d) ensures s.orders[id].status == EmRota {
      assert id in Attached(s.orders, d);
    }
  }

  /** An approved delivery starts with all its work ahead; only the status of its own orders changes. */
  lemma ApprovalStarts(s: Rows, d: nat)
    requires Inv(s) && Approve(s, d).Ok?
    ensures var t := Approve(s, d).value;
      && ReadyToGo(t, d) && Attached(t.orders, d) == Attached(s.orders, d) && t.orders.Keys == s.orders.Keys
      && forall id :: id in s.orders ==>
           && t.orders[id] == s.orders[id].(status := t.orders[id].status)
           && (s.orders[id].deliveryId != Some(d) ==> t.orders[id] == s.orders[id])
  {
    var t := Approve(s, d).value;
    forall id | id in s.orders
      ensures t.orders[id].deliveryId == s.orders[id].deliveryId
      ensures s.orders[id].deliveryId == Some(d) ==> t.orders[id].status == EmRota
    {
      assert OrderOk(s.orders[id], s.deliveries);
    }
    OnRouteIsReady(t, d);
  }

  lemma CreationAttaches(s: Rows, driver: nat, refs: seq<OrderRef>, frete: real, rules: TenantRules, id: nat)
    requires Inv(s) && Create(s, driver, refs, frete, rules).Ok? && id in s.orders
    ensures var t, d := Create(s, driver, refs, frete, rules).value, s.nextDelivery;
      && (t.orders[id].deliveryId == Some(d) <==> id in Listed(refs))
      && (id in Listed(refs) ==> t.orders[id].status == EntryStatus(t.deliveries[d].status))
  {
    assert OrderOk(s.orders[id], s.deliveries);
  }

  /** So does a new delivery, at once or as soon as it is approved; its orders are the listed ones. */
  lemma CreationStarts(s: Rows, driver: nat, refs: seq<OrderRef>, frete: real, rules: TenantRules)
    requires Inv(s) && Create(s, driver, refs, frete, rules).Ok?
    ensures var t, d := Create(s, driver, refs, frete, rules).value, s.nextDelivery;
      && Attached(t.orders, d) == Listed(refs) && d in t.deliveries && t.deliveries[d].driverId == driver
      && if t.deliveries[d].status == Iniciado then ReadyToGo(t, d)
         else Approve(t, d).Ok? && ReadyToGo(Approve(t, d).value, d)
  {
    var t, d := Create(s, driver, refs, frete, rules).value, s.nextDelivery;
    forall id | id in s.orders
      ensures t.orders[id].deliveryId == Some(d) <==> id in Listed(refs)
      ensures id in Listed(refs) ==> t.orders[id].status == EntryStatus(t.deliveries[d].status)
    {
      CreationAttaches(s, driver, refs, frete, rules, id);
    }
    if t.deliveries[d].status == Iniciado {
      OnRouteIsReady(t, d);
    } else {
      CreateKeeps(s, driver, refs, frete, rules);
      ApprovalStarts(t, d);
    }
  }
}
