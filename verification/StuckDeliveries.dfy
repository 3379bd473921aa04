/** Started deliveries that no step of a driver can finish: finalisation is only tried when an
    order is finished, so a delivery that loses its last unfinished order in another way is
    not finalised, until an edit gives it a new order or it is sent back or removed. */
module StuckDeliveries {
  import opened Wrappers
  import opened ApprovalRules
  import opened Lifecycle
  import opened LifecycleInvariant
  import opened DriverProgress
  import opened ExampleRuns

  predicate Started(s: Rows, d: nat) {
    d in s.deliveries && s.deliveries[d].status == Iniciado
  }

  predicate Stuck(s: Rows, d: nat) {
    Started(s, d) && AllFinished(s.orders, d)
  }

  /** The delivery is stuck exactly when it is started and its driver has no step left. */
  lemma StuckMeansNoStep(s: Rows, d: nat)
    requires Inv(s) && Started(s, d)
    ensures Stuck(s, d) <==> forall r :: !AcceptedOn(s, r, d)
  {
    if !Stuck(s, d) {
      NoneLeft(s, d);
      var id, to := SomeStepAccepted(s, d);
      assert AcceptedOn(s, DriverReq(s.deliveries[d].driverId, id, to, false), d);
    }
  }

  /** Every listed order is on the delivery already and finished. */
  predicate ListsOnlyFinished(s: Rows, d: nat, refs: seq<OrderRef>) {
    forall id :: id in Listed(refs) ==>
      id in s.orders && s.orders[id].deliveryId == Some(d) && Finished(s.orders[id].status)
  }

  predicate ListsAllUnfinished(s: Rows, d: nat, refs: seq<OrderRef>) {
    forall id :: id in s.orders && s.orders[id].deliveryId == Some(d) && !Finished(s.orders[id].status) ==>
      id in Listed(refs)
  }

  predicate LastUnfinished(s: Rows, d: nat, id: nat) {
    forall k :: k in s.orders && s.orders[k].deliveryId == Some(d) && k != id ==> Finished(s.orders[k].status)
  }

  ghost predicate StuckByEdit(s: Rows, e: nat, refs: Option<seq<OrderRef>>, frete: real, rules: TenantRules, d: nat)
    requires e in s.deliveries
  {
    && refs.Some? && Started(s, d)
    && if d == e
       then ListsOnlyFinished(s, d, refs.value) && !NeedsApproval(CheckupOf(EditedOrders(s, d, refs), d, frete, rules))
       else ListsAllUnfinished(s, d, refs.value)
  }

  ghost predicate StuckByRemoval(s: Rows, id: nat, frete: real, rules: TenantRules, d: nat)
    requires id in s.orders
  {
    && Started(s, d) && LastUnfinished(s, d, id)
    && !NeedsApproval(CheckupOf(s.orders[id := Freed(s.orders[id], d)], d, frete, rules))
  }

  /** The request, accepted on these rows, leaves d started with nothing to do. */
  ghost predicate GetsStuck(s: Rows, r: Request, d: nat) {
    && Answer(s, r).Ok?
    && match r
       case CreateReq(_, refs, frete, rules) =>
         d == s.nextDelivery && refs == [] && !NeedsApproval(CreationCheckup(s, refs, frete, rules))
       case ApproveReq(e) => d == e && Attached(s.orders, d) == {}
       case EditReq(e, _, refs, frete, rules) => e in s.deliveries && StuckByEdit(s, e, refs, frete, rules, d)
       case RemoveOrderReq(e, id, frete, rules) => d == e && id in s.orders && StuckByRemoval(s, id, frete, rules, d)
       case _ => false
  }

  lemma CreateSticks(s: Rows, driver: nat, refs: seq<OrderRef>, frete: real, rules: TenantRules, d: nat)
    requires Inv(s) && !Stuck(s, d) && Create(s, driver, refs, frete, rules).Ok?
    ensures Stuck(Create(s, driver, refs, frete, rules).value, d)
            <==> d == s.nextDelivery && refs == [] && !NeedsApproval(CreationCheckup(s, refs, frete, rules))
  {
    var t := Create(s, driver, refs, frete, rules).value;
    if d == s.nextDelivery {
      if refs != [] {
        var id := refs[0].id;
        assert id in Listed(refs);
        assert t.orders[id].deliveryId == Some(d) && !Finished(t.orders[id].status);
      } else {
        assert Listed(refs) == {};
        forall id | id in s.orders ensures t.orders[id] == s.orders[id] && s.orders[id].deliveryId != Some(d) {
          assert OrderOk(s.orders[id], s.deliveries);
        }
      }
    } else if Started(s, d) {
      var id :| id in s.orders && s.orders[id].deliveryId == Some(d) && !Finished(s.orders[id].status);
      assert OrderOk(s.orders[id], s.deliveries);
      assert t.orders[id] == s.orders[id];
    }
  }

  lemma ApproveSticks(s: Rows, e: nat, d: nat)
    requires Inv(s) && !Stuck(s, d) && Approve(s, e).Ok?
    ensures Stuck(Approve(s, e).value, d) <==> d == e && Attached(s.orders, d) == {}
  {
    var t := Approve(s, e).value;
    if d == e {
      forall id | id in s.orders && s.orders[id].deliveryId == Some(d) ensures !Finished(t.orders[id].status) {
        assert OrderOk(s.orders[id], s.deliveries);
      }
      if Attached(s.orders, d) != {} {
        var id :| id in Attached(s.orders, d);
        assert t.orders[id].deliveryId == Some(d);
      } else {
        forall id | id in s.orders ensures t.orders[id].deliveryId != Some(d) {
          assert id !in Attached(s.orders, d);
        }
      }
    } else if Started(s, d) {
      var id :| id in s.orders && s.orders[id].deliveryId == Some(d) && !Finished(s.orders[id].status);
      assert t.orders[id] == s.orders[id];
    }
  }

  lemma DriverNeverSticks(s: Rows, driver: nat, id: nat, to: OrderStatus, hasReason: bool, d: nat)
    requires Inv(s) && !Stuck(s, d) && UpdateOrderStatus(s, driver, id, to, hasReason).Ok?
    ensures !Stuck(UpdateOrderStatus(s, driver, id, to, hasReason).value, d)
  {
    var e := s.orders[id].deliveryId.value;
    var t := UpdateOrderStatus(s, driver, id, to, hasReason).value;
    if d != e && Started(s, d) {
      var k :| k in s.orders && s.orders[k].deliveryId == Some(d) && !Finished(s.orders[k].status);
      assert t.orders[k] == s.orders[k];
    }
  }

  predicate Unfinished(orders: map<nat, Order>, d: nat, id: nat) {
    id in orders && orders[id].deliveryId == Some(d) && !Finished(orders[id].status)
  }

  lemma NoneUnfinished(orders: map<nat, Order>, d: nat)
    ensures AllFinished(orders, d) <==> forall id :: !Unfinished(orders, d, id)
  {
    if !AllFinished(orders, d) {
      var id :| id in orders && orders[id].deliveryId == Some(d) && !Finished(orders[id].status);
      assert Unfinished(orders, d, id);
    }
  }

  lemma AllFinishedBoth(a: map<nat, Order>, b: map<nat, Order>, d: nat)
    requires forall id :: Unfinished(a, d, id) <==> Unfinished(b, d, id)
    ensures AllFinished(a, d) <==> AllFinished(b, d)
  {
    NoneUnfinished(a, d);
    NoneUnfinished(b, d);
  }

  /** The shared tail leaves d stuck exactly when it was started, passes the check and has
      nothing unfinished on the new order rows. */
  lemma ReassessSticks(s: Rows, e: nat, orders: map<nat, Order>, driver: nat, frete: real, rules: TenantRules, d: nat)
    requires e in s.deliveries
    ensures Stuck(Reassess(s, e, orders, driver, frete, rules), d)
            <==> (Started(s, d) && AllFinished(orders, d)
                  && (d == e ==> !NeedsApproval(CheckupOf(orders, d, frete, rules))))
  {
    var t := Reassess(s, e, orders, driver, frete, rules);
    if d != e {
      AllFinishedBoth(t.orders, orders, d);
    }
  }

  lemma EditLeaves(s: Rows, e: nat, refs: Option<seq<OrderRef>>, d: nat)
    requires e in s.deliveries && Started(s, d) && !Stuck(s, d)
    requires refs.Some? ==> Listed(refs.value) <= s.orders.Keys
    ensures AllFinished(EditedOrders(s, e, refs), d)
            <==> refs.Some?
                 && if d == e then ListsOnlyFinished(s, d, refs.value) else ListsAllUnfinished(s, d, refs.value)
  {
    var orders := EditedOrders(s, e, refs);
    if refs.Some? {
      if d == e {
        forall id | id in s.orders
          ensures orders[id].deliveryId == Some(d) && !Finished(orders[id].status)
                  <==> id in Listed(refs.value)
                       && !(s.orders[id].deliveryId == Some(d) && Finished(s.orders[id].status))
        {
          PlacedUnfinished(s.orders[id], id, d, refs.value, EntryStatus(s.deliveries[d].status));
        }
      } else {
        forall id | id in s.orders
          ensures orders[id].deliveryId == Some(d) <==> s.orders[id].deliveryId == Some(d) && id !in Listed(refs.value)
          ensures orders[id].deliveryId == Some(d) ==> orders[id].status == s.orders[id].status
        {
        }
      }
    }
  }

  lemma PlacedUnfinished(o: Order, id: nat, d: nat, refs: seq<OrderRef>, entry: OrderStatus)
    requires !Finished(entry)
    ensures var p := Placed(o, id, d, refs, entry);
      p.deliveryId == Some(d) && !Finished(p.status) <==>
        id in Listed(refs) && !(o.deliveryId == Some(d) && Finished(o.status))
  {
  }

  lemma EditSticks(s: Rows, e: nat, driver: Option<nat>, refs: Option<seq<OrderRef>>, frete: real,
                   rules: TenantRules, d: nat)
    requires !Stuck(s, d) && Edit(s, e, driver, refs, frete, rules).Ok?
    ensures Stuck(Edit(s, e, driver, refs, frete, rules).value, d) <==> StuckByEdit(s, e, refs, frete, rules, d)
  {
    ReassessSticks(s, e, EditedOrders(s, e, refs), NewDriver(s, e, driver), frete, rules, d);
    if Started(s, d) {
      EditLeaves(s, e, refs, d);
    }
  }

  lemma RemoveOrderSticks(s: Rows, e: nat, id: nat, frete: real, rules: TenantRules, d: nat)
    requires !Stuck(s, d) && RemoveOrder(s, e, id, frete, rules).Ok?
    ensures Stuck(RemoveOrder(s, e, id, frete, rules).value, d) <==> d == e && StuckByRemoval(s, id, frete, rules, d)
  {
    var orders := s.orders[id := Freed(s.orders[id], e)];
    ReassessSticks(s, e, orders, s.deliveries[e].driverId, frete, rules, d);
    if d == e {
      forall k | k in s.orders ensures orders[k] == if k == id then Freed(s.orders[id], d) else s.orders[k] {}
      if AllFinished(orders, d) {
        forall k | k in s.orders && s.orders[k].deliveryId == Some(d) && k != id ensures Finished(s.orders[k].status) {
          assert orders[k] == s.orders[k];
        }
      }
    } else {
      AllFinishedBoth(orders, s.orders, d);
    }
  }

  lemma OthersNeverStick(s: Rows, r: Request, d: nat)
    requires Inv(s) && !Stuck(s, d) && Answer(s, r).Ok?
    requires !r.CreateReq? && !r.ApproveReq? && !r.DriverReq? && !r.EditReq? && !r.RemoveOrderReq?
    ensures !Stuck(Step(s, r), d)
  {
    if Started(s, d) {
      var id :| id in s.orders && s.orders[id].deliveryId == Some(d) && !Finished(s.orders[id].status);
      if d in Step(s, r).deliveries {
        assert (r.RejectReq? && r.d == d) || Step(s, r).orders[id] == s.orders[id];
      }
    }
  }

  /** Exactly which requests leave a delivery stuck that was not: an accepted creation without
      orders, which request validation refuses beforehand, an approval of a delivery without
      orders, an edit that keeps only finished orders, another delivery's edit that takes all
      unfinished ones, and the removal of the last unfinished order; where the delivery's own
      rules are checked, only if no approval is needed. */
  lemma StuckIff(s: Rows, r: Request, d: nat)
    requires Inv(s) && !Stuck(s, d)
    ensures Stuck(Step(s, r), d) <==> GetsStuck(s, r, d)
  {
    if Answer(s, r).Ok? {
      match r
      case CreateReq(driver, refs, frete, rules) => CreateSticks(s, driver, refs, frete, rules, d);
      case ApproveReq(e) => ApproveSticks(s, e, d);
      case DriverReq(driver, id, to, hasReason) => DriverNeverSticks(s, driver, id, to, hasReason, d);
      case EditReq(e, driver, refs, frete, rules) => EditSticks(s, e, driver, refs, frete, rules, d);
      case RemoveOrderReq(e, id, frete, rules) => RemoveOrderSticks(s, e, id, frete, rules, d);
      case _ => OthersNeverStick(s, r, d);
    }
  }

  // ---- The way out ----

  predicate ListsAnother(s: Rows, d: nat, refs: seq<OrderRef>) {
    exists id :: id in Listed(refs) && id in s.orders && s.orders[id].deliveryId != Some(d)
  }

  /** The request, accepted on these rows, gives d something to do again, or ends its being started. */
  ghost predicate Unsticks(s: Rows, r: Request, d: nat) {
    && Answer(s, r).Ok?
    && match r
       case EditReq(e, _, refs, frete, rules) =>
         && d == e && e in s.deliveries
         && (|| NeedsApproval(CheckupOf(EditedOrders(s, d, refs), d, frete, rules))
             || (refs.Some? && ListsAnother(s, d, refs.value)))
       case RemoveOrderReq(e, id, frete, rules) =>
         d == e && id in s.orders && NeedsApproval(CheckupOf(s.orders[id := Freed(s.orders[id], d)], d, frete, rules))
       case RemoveReq(e) => d == e
       case _ => false
  }

  lemma EditKeepsFinished(s: Rows, e: nat, refs: Option<seq<OrderRef>>, d: nat)
    requires e in s.deliveries && Stuck(s, d)
    requires refs.Some? ==> Listed(refs.value) <= s.orders.Keys
    ensures AllFinished(EditedOrders(s, e, refs), d) <==> !(d == e && refs.Some? && ListsAnother(s, d, refs.value))
  {
    var orders := EditedOrders(s, e, refs);
    if refs.Some? {
      forall id | id in s.orders
        ensures Unfinished(orders, d, id) <==> d == e && id in Listed(refs.value) && s.orders[id].deliveryId != Some(d)
      {
        PlacedUnfinished(s.orders[id], id, d, refs.value, EntryStatus(s.deliveries[e].status));
      }
      NoneUnfinished(orders, d);
    }
  }

  lemma EditUnsticks(s: Rows, e: nat, driver: Option<nat>, refs: Option<seq<OrderRef>>, frete: real,
                     rules: TenantRules, d: nat)
    requires Stuck(s, d) && Edit(s, e, driver, refs, frete, rules).Ok?
    ensures Stuck(Edit(s, e, driver, refs, frete, rules).value, d)
            <==> !(d == e && (NeedsApproval(CheckupOf(EditedOrders(s, d, refs), d, frete, rules))
                              || (refs.Some? && ListsAnother(s, d, refs.value))))
  {
    ReassessSticks(s, e, EditedOrders(s, e, refs), NewDriver(s, e, driver), frete, rules, d);
    EditKeepsFinished(s, e, refs, d);
  }

  lemma RemoveOrderUnsticks(s: Rows, e: nat, id: nat, frete: real, rules: TenantRules, d: nat)
    requires Stuck(s, d) && RemoveOrder(s, e, id, frete, rules).Ok?
    ensures Stuck(RemoveOrder(s, e, id, frete, rules).value, d)
            <==> !(d == e && NeedsApproval(CheckupOf(s.orders[id := Freed(s.orders[id], d)], d, frete, rules)))
  {
    var orders := s.orders[id := Freed(s.orders[id], e)];
    ReassessSticks(s, e, orders, s.deliveries[e].driverId, frete, rules, d);
    forall k ensures !Unfinished(orders, d, k) {
      assert k in s.orders && k != id ==> orders[k] == s.orders[k];
    }
    NoneUnfinished(orders, d);
  }

  lemma DriverStaysStuck(s: Rows, driver: nat, id: nat, to: OrderStatus, hasReason: bool, d: nat)
    requires Stuck(s, d) && UpdateOrderStatus(s, driver, id, to, hasReason).Ok?
    ensures Stuck(UpdateOrderStatus(s, driver, id, to, hasReason).value, d)
  {
    assert s.orders[id].deliveryId != Some(d);
    DriverStepElsewhere(s, driver, id, to, hasReason, d);
  }

  lemma CreateStaysStuck(s: Rows, driver: nat, refs: seq<OrderRef>, frete: real, rules: TenantRules, d: nat)
    requires Inv(s) && Stuck(s, d) && Create(s, driver, refs, frete, rules).Ok?
    ensures Stuck(Create(s, driver, refs, frete, rules).value, d)
  {
    assert d != s.nextDelivery;
  }

  lemma OthersStayStuck(s: Rows, r: Request, d: nat)
    requires Inv(s) && Stuck(s, d) && Answer(s, r).Ok?
    requires !r.CreateReq? && !r.DriverReq? && !r.EditReq? && !r.RemoveOrderReq? && r != RemoveReq(d)
    ensures Stuck(Step(s, r), d)
  {
  }

  /** Exactly which requests free a stuck delivery: an edit that lists an order from elsewhere,
      an edit or remove-order that sends it back for approval, and its removal. */
  lemma UnstuckIff(s: Rows, r: Request, d: nat)
    requires Inv(s) && Stuck(s, d)
    ensures Stuck(Step(s, r), d) <==> !Unsticks(s, r, d)
  {
    if Answer(s, r).Ok? && r != RemoveReq(d) {
      match r
      case CreateReq(driver, refs, frete, rules) => CreateStaysStuck(s, driver, refs, frete, rules, d);
      case DriverReq(driver, id, to, hasReason) => DriverStaysStuck(s, driver, id, to, hasReason, d);
      case EditReq(e, driver, refs, frete, rules) => EditUnsticks(s, e, driver, refs, frete, rules, d);
      case RemoveOrderReq(e, id, frete, rules) => RemoveOrderUnsticks(s, e, id, frete, rules, d);
      case _ => OthersStayStuck(s, r, d);
    }
  }

  // ---- A run that ends with a stuck delivery ----

  lemma RemovingTheLastSticks(s: Rows, d: nat, id: nat, frete: real)
    requires Inv(s) && Started(s, d) && !Stuck(s, d) && LastUnfinished(s, d, id)
    requires id in s.orders && s.orders[id].deliveryId == Some(d)
    ensures var r := RemoveOrderReq(d, id, frete, NO_RULES); Answer(s, r).Ok? && Stuck(Step(s, r), d)
  {
    NoRulesNoApproval(CheckupOf(s.orders[id := Freed(s.orders[id], d)], d, frete, NO_RULES));
    RemoveOrderSticks(s, d, id, frete, NO_RULES, d);
  }

  /** The only order of a started delivery is removed. */
  lemma RemovalSticks(rs: seq<Request>, create: Request, remove: Request)
    requires rs == [UPLOAD, UPLOAD] && create == OneOrder(0, 0.0, NO_RULES)
      && remove == RemoveOrderReq(0, 0, 0.0, NO_RULES)
    ensures var s := Run(rs + [create]); Answer(s, remove).Ok? && !Stuck(s, 0) && Stuck(Step(s, remove), 0)
  {
    OneDeliveryRows(rs, create, 0.0, NO_RULES);
    var s := Run(rs + [create]);
    RunKeeps(rs + [create]);
    assert s.orders[0].deliveryId == Some(0) && s.orders[0].status == EmRota;
    RemovingTheLastSticks(s, 0, 0, 0.0);
  }
}
