/** Orders a rejection leaves behind: waiting for the release of a delivery they are no longer on. */
module StrandedOrders {
  import opened Wrappers
  import opened ApprovalRules
  import opened Lifecycle
  import opened LifecycleInvariant
  import opened LifecycleHistory
  import opened ExampleRuns

  predicate Stranded(s: Rows, id: nat) {
    id in s.orders && s.orders[id].deliveryId == None && s.orders[id].status != SemRota
  }

  /** No request but a rejection strands an order or touches a stranded one. */
  predicate KeepsStranded(s: Rows, t: Rows, id: nat) {
    Stranded(t, id) ==> Stranded(s, id) && t.orders[id] == s.orders[id]
  }

  lemma CreateStrands(s: Rows, driver: nat, refs: seq<OrderRef>, frete: real, rules: TenantRules, id: nat)
    requires Create(s, driver, refs, frete, rules).Ok?
    ensures KeepsStranded(s, Create(s, driver, refs, frete, rules).value, id)
  {
  }

  lemma DriverStrands(s: Rows, driver: nat, o: nat, to: OrderStatus, hasReason: bool, id: nat)
    requires UpdateOrderStatus(s, driver, o, to, hasReason).Ok?
    ensures KeepsStranded(s, UpdateOrderStatus(s, driver, o, to, hasReason).value, id)
  {
  }

  lemma EditStrands(s: Rows, d: nat, driver: Option<nat>, refs: Option<seq<OrderRef>>, frete: real,
                    rules: TenantRules, id: nat)
    requires Edit(s, d, driver, refs, frete, rules).Ok?
    ensures KeepsStranded(s, Edit(s, d, driver, refs, frete, rules).value, id)
  {
    if id in s.orders {
      assert EditedOrders(s, d, refs)[id]
          == if refs.None? then s.orders[id]
             else Placed(s.orders[id], id, d, refs.value, EntryStatus(s.deliveries[d].status));
    }
  }

  lemma RemoveOrderStrands(s: Rows, d: nat, o: nat, frete: real, rules: TenantRules, id: nat)
    requires RemoveOrder(s, d, o, frete, rules).Ok?
    ensures KeepsStranded(s, RemoveOrder(s, d, o, frete, rules).value, id)
  {
  }

  lemma RejectStrands(s: Rows, d: nat, id: nat)
    requires Inv(s) && Reject(s, d).Ok?
    ensures var t := Reject(s, d).value;
      && StatusOf(t, d) == Some(Rejeitado)
      && (KeepsStranded(s, t, id) || (id in s.orders && s.orders[id].deliveryId == Some(d)))
  {
  }

  lemma StepStrands(s: Rows, r: Request, id: nat)
    requires Inv(s)
    ensures KeepsStranded(s, Step(s, r), id)
            || (r.RejectReq? && id in s.orders && s.orders[id].deliveryId == Some(r.d)
                && StatusOf(Step(s, r), r.d) == Some(Rejeitado))
  {
    if Answer(s, r).Ok? {
      match r
      case CreateReq(driver, refs, frete, rules) => CreateStrands(s, driver, refs, frete, rules, id);
      case RejectReq(d) => RejectStrands(s, d, id);
      case DriverReq(driver, o, to, hasReason) => DriverStrands(s, driver, o, to, hasReason, id);
      case EditReq(d, driver, refs, frete, rules) => EditStrands(s, d, driver, refs, frete, rules, id);
      case RemoveOrderReq(d, o, frete, rules) => RemoveOrderStrands(s, d, o, frete, rules, id);
      case _ =>
    }
  }

  lemma StrandedWaits(s: Rows, id: nat)
    requires Inv(s) && Stranded(s, id)
    ensures s.orders[id].status == EmRotaAguardandoLiberacao
  {
    assert OrderOk(s.orders[id], s.deliveries);
  }

  /** After every request since the i-th the order has been this one. */
  ghost predicate UnchangedSince(rs: seq<Request>, i: nat, id: nat, o: Order) {
    forall j :: i < j <= |rs| ==> id in Run(rs[..j]).orders && Run(rs[..j]).orders[id] == o
  }

  lemma UnchangedOneMore(rs: seq<Request>, front: seq<Request>, i: nat, id: nat, o: Order)
    requires |rs| == |front| + 1 && front == rs[..|front|] && UnchangedSince(front, i, id, o)
    requires id in Run(rs).orders && Run(rs).orders[id] == o
    ensures UnchangedSince(rs, i, id, o)
  {
    forall j | i < j <= |rs| ensures id in Run(rs[..j]).orders && Run(rs[..j]).orders[id] == o {
      if j <= |front| {
        assert rs[..j] == front[..j];
      } else {
        assert rs[..j] == rs;
      }
    }
  }

  lemma LeftByLast(rs: seq<Request>, front: seq<Request>, id: nat)
    requires |rs| == |front| + 1 && front == rs[..|front|] && id in Run(rs).orders
    ensures UnchangedSince(rs, |front|, id, Run(rs).orders[id])
  {
    assert rs[..|rs|] == rs;
  }

  /** An order without a delivery that is not free again was left waiting by a rejection of
      the delivery it was on, and nothing has touched it since. */
  lemma {:induction false} StrandedByRejection(rs: seq<Request>, id: nat) returns (i: nat)
    requires Stranded(Run(rs), id)
    ensures i < |rs| && rs[i].RejectReq?
    ensures id in Run(rs[..i]).orders && Run(rs[..i]).orders[id].deliveryId == Some(rs[i].d)
    ensures StatusOf(Run(rs[..i + 1]), rs[i].d) == Some(Rejeitado)
    ensures Run(rs).orders[id].status == EmRotaAguardandoLiberacao
    ensures UnchangedSince(rs, i, id, Run(rs).orders[id])
  {
    var n := |rs| - 1;
    var front := rs[..n];
    RunKeeps(front);
    StepStrands(Run(front), rs[n], id);
    RunKeeps(rs);
    StrandedWaits(Run(rs), id);
    if Stranded(Run(front), id) && Run(rs).orders[id] == Run(front).orders[id] {
      i := StrandedByRejection(front, id);
      assert front[..i] == rs[..i] && front[..i + 1] == rs[..i + 1];
      UnchangedOneMore(rs, front, i, id, Run(rs).orders[id]);
    } else {
      i := n;
      assert rs[..n + 1] == rs;
      LeftByLast(rs, front, id);
    }
  }

  // ---- Exactly when an order is stranded, and when it is not any more ----

  /** Rejecting a delivery strands every order it has. */
  lemma RejectionStrandsAll(s: Rows, d: nat, id: nat)
    requires Inv(s) && Reject(s, d).Ok? && id in s.orders && s.orders[id].deliveryId == Some(d)
    ensures Stranded(Reject(s, d).value, id)
    ensures Reject(s, d).value.orders[id].sorting == s.orders[id].sorting
  {
  }

  /** A stranded order cannot be routed by a new delivery. */
  lemma StrandedIsNotRoutable(s: Rows, driver: nat, refs: seq<OrderRef>, frete: real, rules: TenantRules, id: nat)
    requires Stranded(s, id) && id in Listed(refs)
    ensures Create(s, driver, refs, frete, rules) == Err(BadRequest)
  {
  }

  /** An accepted rejection of the delivery the order is on. */
  ghost predicate Strands(s: Rows, r: Request, id: nat) {
    r.RejectReq? && Answer(s, r).Ok? && id in s.orders && s.orders[id].deliveryId == Some(r.d)
  }

  /** Exactly the rejections of its delivery strand an order. */
  lemma StrandedIff(s: Rows, r: Request, id: nat)
    requires Inv(s) && !Stranded(s, id)
    ensures Stranded(Step(s, r), id) <==> Strands(s, r, id)
  {
    StepStrands(s, r, id);
    if Strands(s, r, id) {
      RejectionStrandsAll(s, r.d, id);
    }
  }

  /** An accepted edit that lists the order. */
  ghost predicate Rescues(s: Rows, r: Request, id: nat) {
    r.EditReq? && Answer(s, r).Ok? && r.newRefs.Some? && id in Listed(r.newRefs.value)
  }

  lemma EditRescues(s: Rows, d: nat, driver: Option<nat>, refs: Option<seq<OrderRef>>, frete: real,
                    rules: TenantRules, id: nat)
    requires Stranded(s, id) && Edit(s, d, driver, refs, frete, rules).Ok?
    ensures Stranded(Edit(s, d, driver, refs, frete, rules).value, id) <==> !(refs.Some? && id in Listed(refs.value))
  {
    assert EditedOrders(s, d, refs)[id]
        == if refs.None? then s.orders[id]
           else Placed(s.orders[id], id, d, refs.value, EntryStatus(s.deliveries[d].status));
  }

  lemma CreateLeaves(s: Rows, driver: nat, refs: seq<OrderRef>, frete: real, rules: TenantRules, id: nat)
    requires Stranded(s, id) && Create(s, driver, refs, frete, rules).Ok?
    ensures Stranded(Create(s, driver, refs, frete, rules).value, id)
  {
  }

  lemma DriverLeaves(s: Rows, driver: nat, o: nat, to: OrderStatus, hasReason: bool, id: nat)
    requires Stranded(s, id) && UpdateOrderStatus(s, driver, o, to, hasReason).Ok?
    ensures Stranded(UpdateOrderStatus(s, driver, o, to, hasReason).value, id)
  {
  }

  lemma OthersLeave(s: Rows, r: Request, id: nat)
    requires Inv(s) && Stranded(s, id) && Answer(s, r).Ok?
    requires !r.EditReq? && !r.CreateReq? && !r.DriverReq?
    ensures Stranded(Step(s, r), id)
  {
    assert id < s.nextOrder;
  }

  /** Exactly the edits that list it, whatever delivery they are of, bring a stranded order back. */
  lemma RescuedIff(s: Rows, r: Request, id: nat)
    requires Inv(s) && Stranded(s, id)
    ensures Stranded(Step(s, r), id) <==> !Rescues(s, r, id)
  {
    if Answer(s, r).Ok? {
      match r
      case EditReq(d, driver, refs, frete, rules) => EditRescues(s, d, driver, refs, frete, rules, id);
      case CreateReq(driver, refs, frete, rules) => CreateLeaves(s, driver, refs, frete, rules, id);
      case DriverReq(driver, o, to, hasReason) => DriverLeaves(s, driver, o, to, hasReason, id);
      case _ => OthersLeave(s, r, id);
    }
  }

  // ---- A run that strands an order ----

  /** A delivery created under a failing rule and rejected. */
  lemma RejectedRun(rs: seq<Request>, create: Request, reject: Request)
    requires rs == [UPLOAD, UPLOAD] && create == OneOrder(0, 0.0, AT_LEAST_THREE) && reject == RejectReq(0)
    ensures Stranded(Run(rs + [create] + [reject]), 0)
  {
    var s := Run(rs + [create]);
    OneDeliveryRows(rs, create, 0.0, AT_LEAST_THREE);
    RunOneMore(rs + [create], reject);
    RunKeeps(rs + [create]);
    assert 0 in s.orders && s.orders[0].deliveryId == Some(0);
    StrandedIff(s, reject, 0);
  }
}
