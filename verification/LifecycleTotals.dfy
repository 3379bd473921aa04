/** Conservation of totals: the weight and value stored on a delivery are the sums over
    the orders that point at it. */
module LifecycleTotals {
  import opened Wrappers
  import opened Sums
  import opened ApprovalRules
  import opened Lifecycle
  import opened LifecycleInvariant
  import opened ExampleRuns

  ghost predicate ConservedAt(s: Rows, d: nat)
    requires d in s.deliveries
  {
    s.deliveries[d].status != Rejeitado ==>
      && s.deliveries[d].totalPeso == Sum(PesosOf(s.orders, d))
      && s.deliveries[d].totalValor == Sum(ValoresOf(s.orders, d))
  }

  ghost predicate Conserved(s: Rows) {
    forall d :: d in s.deliveries ==> ConservedAt(s, d)
  }

  /** The order counts for d with the same weight and value, or for neither. */
  predicate SameWeight(a: Option<Order>, b: Option<Order>, d: nat) {
    var inA, inB := a.Some? && a.value.deliveryId == Some(d), b.Some? && b.value.deliveryId == Some(d);
    inA == inB && (inA ==> a.value.peso == b.value.peso && a.value.valor == b.value.valor)
  }

  function At(orders: map<nat, Order>, id: nat): Option<Order> {
    if id in orders then Some(orders[id]) else None
  }

  lemma SameLoad(a: map<nat, Order>, b: map<nat, Order>, d: nat)
    requires forall id :: SameWeight(At(a, id), At(b, id), d)
    ensures PesosOf(a, d) == PesosOf(b, d)
    ensures ValoresOf(a, d) == ValoresOf(b, d)
  {
    forall id
      ensures id in PesosOf(a, d) <==> id in PesosOf(b, d)
      ensures id in PesosOf(a, d) ==>
        PesosOf(a, d)[id] == PesosOf(b, d)[id] && ValoresOf(a, d)[id] == ValoresOf(b, d)[id]
    {
      assert SameWeight(At(a, id), At(b, id), d);
    }
  }

  /** A delivery whose stored totals and load are unchanged stays conserved. */
  lemma ConservedCarries(s: Rows, t: Rows, d: nat)
    requires d in s.deliveries && d in t.deliveries && ConservedAt(s, d)
    requires t.deliveries[d].totalPeso == s.deliveries[d].totalPeso
    requires t.deliveries[d].totalValor == s.deliveries[d].totalValor
    requires t.deliveries[d].status != Rejeitado ==>
      s.deliveries[d].status != Rejeitado && forall id :: SameWeight(At(t.orders, id), At(s.orders, id), d)
    ensures ConservedAt(t, d)
  {
    if t.deliveries[d].status != Rejeitado {
      SameLoad(t.orders, s.orders, d);
    }
  }

  lemma CreateLoad(s: Rows, driver: nat, refs: seq<OrderRef>, frete: real, rules: TenantRules)
    requires Inv(s) && Create(s, driver, refs, frete, rules).Ok?
    ensures PesosOf(Create(s, driver, refs, frete, rules).value.orders, s.nextDelivery)
      == PesosIn(s.orders, Listed(refs))
    ensures ValoresOf(Create(s, driver, refs, frete, rules).value.orders, s.nextDelivery)
      == ValoresIn(s.orders, Listed(refs))
  {
    var d, ids := s.nextDelivery, Listed(refs);
    var t := Create(s, driver, refs, frete, rules).value;
    forall id | id in s.orders
      ensures t.orders[id].deliveryId == Some(d) <==> id in ids
      ensures t.orders[id].peso == s.orders[id].peso && t.orders[id].valor == s.orders[id].valor
    {
      assert OrderOk(s.orders[id], s.deliveries);
    }
  }

  lemma CreateConserves(s: Rows, driver: nat, refs: seq<OrderRef>, frete: real, rules: TenantRules)
    requires Inv(s) && Conserved(s) && Create(s, driver, refs, frete, rules).Ok?
    ensures Conserved(Create(s, driver, refs, frete, rules).value)
  {
    var t := Create(s, driver, refs, frete, rules).value;
    CreateLoad(s, driver, refs, frete, rules);
    forall e | e in t.deliveries ensures ConservedAt(t, e) {
      if e != s.nextDelivery {
        assert ConservedAt(s, e);
        forall id ensures SameWeight(At(t.orders, id), At(s.orders, id), e) {
          if id in s.orders {
            assert OrderOk(s.orders[id], s.deliveries);
          }
        }
        ConservedCarries(s, t, e);
      }
    }
  }

  /** Requests that only relabel orders, or move none of a live delivery, keep every load. */
  lemma RelabelConserves(s: Rows, t: Rows)
    requires Conserved(s) && t.deliveries.Keys <= s.deliveries.Keys
    requires forall d :: d in t.deliveries ==>
      && t.deliveries[d].totalPeso == s.deliveries[d].totalPeso
      && t.deliveries[d].totalValor == s.deliveries[d].totalValor
      && (s.deliveries[d].status == Rejeitado ==> t.deliveries[d].status == Rejeitado)
    requires forall d, id :: d in t.deliveries && t.deliveries[d].status != Rejeitado ==>
      SameWeight(At(t.orders, id), At(s.orders, id), d)
    ensures Conserved(t)
  {
    forall d | d in t.deliveries ensures ConservedAt(t, d) {
      assert ConservedAt(s, d);
      ConservedCarries(s, t, d);
    }
  }

  lemma ReassessConserves(s: Rows, d: nat, orders: map<nat, Order>, driver: nat, frete: real, rules: TenantRules)
    requires d in s.deliveries
    ensures ConservedAt(Reassess(s, d, orders, driver, frete, rules), d)
  {
    var t := Reassess(s, d, orders, driver, frete, rules);
    forall id ensures SameWeight(At(t.orders, id), At(orders, id), d) {}
    SameLoad(t.orders, orders, d);
  }

  lemma ReassessConservesOthers(s: Rows, d: nat, orders: map<nat, Order>, driver: nat, frete: real,
                                rules: TenantRules, e: nat)
    requires d in s.deliveries && e in s.deliveries && e != d
    ensures var t := Reassess(s, d, orders, driver, frete, rules);
      ConservedAt(t, e) <==> (s.deliveries[e].status != Rejeitado ==>
        s.deliveries[e].totalPeso == Sum(PesosOf(orders, e)) && s.deliveries[e].totalValor == Sum(ValoresOf(orders, e)))
  {
    var t := Reassess(s, d, orders, driver, frete, rules);
    forall id ensures SameWeight(At(t.orders, id), At(orders, id), e) {}
    SameLoad(t.orders, orders, e);
  }

  lemma RemoveOrderConserves(s: Rows, d: nat, id: nat, frete: real, rules: TenantRules)
    requires Conserved(s) && RemoveOrder(s, d, id, frete, rules).Ok?
    ensures Conserved(RemoveOrder(s, d, id, frete, rules).value)
  {
    var orders := s.orders[id := Freed(s.orders[id], d)];
    var t := RemoveOrder(s, d, id, frete, rules).value;
    ReassessConserves(s, d, orders, s.deliveries[d].driverId, frete, rules);
    forall e | e in t.deliveries ensures ConservedAt(t, e) {
      if e != d {
        assert ConservedAt(s, e);
        forall k ensures SameWeight(At(orders, k), At(s.orders, k), e) {}
        SameLoad(orders, s.orders, e);
        ReassessConservesOthers(s, d, orders, s.deliveries[d].driverId, frete, rules, e);
      }
    }
  }

  // ---- The edit, which does not look where an added order comes from ----

  /** The listed orders that an edit of another delivery takes away from e. */
  function Taken(s: Rows, refs: Option<seq<OrderRef>>, e: nat): set<nat> {
    set id | id in s.orders && refs.Some? && id in Listed(refs.value) && s.orders[id].deliveryId == Some(e)
  }

  ghost predicate TakesNothing(s: Rows, refs: Option<seq<OrderRef>>, e: nat) {
    && Sum(PesosIn(s.orders, Taken(s, refs, e))) == 0.0
    && Sum(ValoresIn(s.orders, Taken(s, refs, e))) == 0.0
  }

  lemma TakenOrder(s: Rows, d: nat, refs: Option<seq<OrderRef>>, e: nat, id: nat)
    requires d in s.deliveries && e != d && id in s.orders
    ensures var after := EditedOrders(s, d, refs)[id];
      && (s.orders[id].deliveryId == Some(e) <==> after.deliveryId == Some(e) || id in Taken(s, refs, e))
      && (after.deliveryId == Some(e) ==> id !in Taken(s, refs, e))
      && after.peso == s.orders[id].peso && after.valor == s.orders[id].valor
  {
  }

  lemma TakenLoad(s: Rows, d: nat, refs: Option<seq<OrderRef>>, e: nat)
    requires d in s.deliveries && e != d
    ensures Sum(PesosOf(s.orders, e))
         == Sum(PesosOf(EditedOrders(s, d, refs), e)) + Sum(PesosIn(s.orders, Taken(s, refs, e)))
    ensures Sum(ValoresOf(s.orders, e))
         == Sum(ValoresOf(EditedOrders(s, d, refs), e)) + Sum(ValoresIn(s.orders, Taken(s, refs, e)))
  {
    forall id | id in s.orders
      ensures var after := EditedOrders(s, d, refs)[id];
        && (s.orders[id].deliveryId == Some(e) <==> after.deliveryId == Some(e) || id in Taken(s, refs, e))
        && (after.deliveryId == Some(e) ==> id !in Taken(s, refs, e))
        && after.peso == s.orders[id].peso && after.valor == s.orders[id].valor
    {
      TakenOrder(s, d, refs, e, id);
    }
    SplitLoad(s.orders, EditedOrders(s, d, refs), Taken(s, refs, e), e);
  }

  /** A load splits into what stays and what is taken away. */
  lemma SplitLoad(before: map<nat, Order>, after: map<nat, Order>, taken: set<nat>, e: nat)
    requires after.Keys == before.Keys && taken <= before.Keys
    requires forall id :: id in before ==>
      && (before[id].deliveryId == Some(e) <==> after[id].deliveryId == Some(e) || id in taken)
      && (after[id].deliveryId == Some(e) ==> id !in taken)
      && after[id].peso == before[id].peso && after[id].valor == before[id].valor
    ensures Sum(PesosOf(before, e)) == Sum(PesosOf(after, e)) + Sum(PesosIn(before, taken))
    ensures Sum(ValoresOf(before, e)) == Sum(ValoresOf(after, e)) + Sum(ValoresIn(before, taken))
  {
    SumParts(PesosOf(before, e), PesosOf(after, e), PesosIn(before, taken));
    SumParts(ValoresOf(before, e), ValoresOf(after, e), ValoresIn(before, taken));
  }

  /** A rejected delivery has no orders to take. */
  lemma RejectedHasNone(s: Rows, refs: Option<seq<OrderRef>>, e: nat)
    requires Inv(s) && e in s.deliveries && s.deliveries[e].status == Rejeitado
    ensures TakesNothing(s, refs, e)
  {
  }

  /** A delivery that loses part of its load stays conserved only if that part weighs nothing. */
  lemma LostLoad(s: Rows, d: nat, orders: map<nat, Order>, driver: nat, frete: real, rules: TenantRules, e: nat,
                 peso: real, valor: real)
    requires d in s.deliveries && e in s.deliveries && e != d && ConservedAt(s, e)
    requires Sum(PesosOf(s.orders, e)) == Sum(PesosOf(orders, e)) + peso
    requires Sum(ValoresOf(s.orders, e)) == Sum(ValoresOf(orders, e)) + valor
    ensures ConservedAt(Reassess(s, d, orders, driver, frete, rules), e)
            <==> s.deliveries[e].status == Rejeitado || (peso == 0.0 && valor == 0.0)
  {
    ReassessConservesOthers(s, d, orders, driver, frete, rules, e);
  }

  lemma EditConservesAt(s: Rows, d: nat, driver: nat, refs: Option<seq<OrderRef>>, frete: real, rules: TenantRules,
                        e: nat)
    requires Inv(s) && d in s.deliveries && e in s.deliveries && e != d && ConservedAt(s, e)
    ensures ConservedAt(Reassess(s, d, EditedOrders(s, d, refs), driver, frete, rules), e) <==> TakesNothing(s, refs, e)
  {
    TakenLoad(s, d, refs, e);
    LostLoad(s, d, EditedOrders(s, d, refs), driver, frete, rules, e,
             Sum(PesosIn(s.orders, Taken(s, refs, e))), Sum(ValoresIn(s.orders, Taken(s, refs, e))));
    if s.deliveries[e].status == Rejeitado {
      RejectedHasNone(s, refs, e);
    }
  }

  /** Exactly when an accepted edit keeps all totals: the orders it takes from every other
      delivery weigh nothing and are worth nothing in sum. */
  lemma EditConservesIff(s: Rows, d: nat, driver: Option<nat>, refs: Option<seq<OrderRef>>, frete: real,
                         rules: TenantRules)
    requires Inv(s) && Conserved(s) && Edit(s, d, driver, refs, frete, rules).Ok?
    ensures Conserved(Edit(s, d, driver, refs, frete, rules).value) <==>
            forall e :: e in s.deliveries && e != d ==> TakesNothing(s, refs, e)
  {
    var t := Edit(s, d, driver, refs, frete, rules).value;
    ReassessConserves(s, d, EditedOrders(s, d, refs), t.deliveries[d].driverId, frete, rules);
    forall e | e in s.deliveries && e != d
      ensures ConservedAt(t, e) <==> TakesNothing(s, refs, e)
    {
      EditConservesAt(s, d, t.deliveries[d].driverId, refs, frete, rules, e);
    }
    assert t.deliveries.Keys == s.deliveries.Keys;
  }

  /** Every listed order is free or already on the edited delivery. */
  predicate AddsFreeOrders(s: Rows, d: nat, refs: Option<seq<OrderRef>>) {
    forall id :: id in s.orders && refs.Some? && id in Listed(refs.value) ==>
      s.orders[id].deliveryId == None || s.orders[id].deliveryId == Some(d)
  }

  lemma FreeOrdersTakeNothing(s: Rows, d: nat, refs: Option<seq<OrderRef>>, e: nat)
    requires AddsFreeOrders(s, d, refs) && e != d
    ensures TakesNothing(s, refs, e)
  {
  }

  /** When orders have weight, that is exactly the rule "only add orders no other delivery has". */
  lemma EditConservesIffFree(s: Rows, d: nat, driver: Option<nat>, refs: Option<seq<OrderRef>>, frete: real,
                             rules: TenantRules)
    requires Inv(s) && Conserved(s) && Edit(s, d, driver, refs, frete, rules).Ok?
    requires forall id :: id in s.orders ==> s.orders[id].peso > 0.0
    ensures Conserved(Edit(s, d, driver, refs, frete, rules).value) <==> AddsFreeOrders(s, d, refs)
  {
    EditConservesIff(s, d, driver, refs, frete, rules);
    if AddsFreeOrders(s, d, refs) {
      forall e | e != d ensures TakesNothing(s, refs, e) {
        FreeOrdersTakeNothing(s, d, refs, e);
      }
    } else {
      var id :| id in s.orders && refs.Some? && id in Listed(refs.value)
                && s.orders[id].deliveryId != None && s.orders[id].deliveryId != Some(d);
      var e := s.orders[id].deliveryId.value;
      assert OrderOk(s.orders[id], s.deliveries);
      assert id in PesosIn(s.orders, Taken(s, refs, e));
      SumPositive(PesosIn(s.orders, Taken(s, refs, e)));
    }
  }

  // ---- Whole runs ----

  lemma UploadConserves(s: Rows, peso: real, valor: real, sorting: Option<int>)
    requires Inv(s) && Conserved(s)
    ensures Conserved(Upload(s, peso, valor, sorting))
  {
    RelabelConserves(s, Upload(s, peso, valor, sorting));
  }

  lemma ApproveConserves(s: Rows, d: nat)
    requires Conserved(s) && Approve(s, d).Ok?
    ensures Conserved(Approve(s, d).value)
  {
    RelabelConserves(s, Approve(s, d).value);
  }

  lemma RejectConserves(s: Rows, d: nat)
    requires Conserved(s) && Reject(s, d).Ok?
    ensures Conserved(Reject(s, d).value)
  {
    RelabelConserves(s, Reject(s, d).value);
  }

  lemma FinaliseTotals(s: Rows, d: nat)
    requires d in s.deliveries
    ensures Finalise(s, d).orders == s.orders && Finalise(s, d).deliveries.Keys == s.deliveries.Keys
    ensures forall e :: e in s.deliveries && s.deliveries[e].status != Rejeitado ==>
      && Finalise(s, d).deliveries[e].totalPeso == s.deliveries[e].totalPeso
      && Finalise(s, d).deliveries[e].totalValor == s.deliveries[e].totalValor
    ensures forall e :: e in s.deliveries && e != d ==> Finalise(s, d).deliveries[e] == s.deliveries[e]
  {
  }

  lemma UpdateOrderStatusConserves(s: Rows, driver: nat, id: nat, to: OrderStatus, hasReason: bool)
    requires Conserved(s) && UpdateOrderStatus(s, driver, id, to, hasReason).Ok?
    ensures Conserved(UpdateOrderStatus(s, driver, id, to, hasReason).value)
  {
    var d := s.orders[id].deliveryId.value;
    var moved := s.(orders := s.orders[id := s.orders[id].(status := to)]);
    RelabelConserves(s, moved);
    if AllFinished(moved.orders, d) {
      FinaliseTotals(moved, d);
      RelabelConserves(moved, Finalise(moved, d));
    }
  }

  lemma RemoveConserves(s: Rows, d: nat)
    requires Conserved(s) && Remove(s, d).Ok?
    ensures Conserved(Remove(s, d).value)
  {
    RelabelConserves(s, Remove(s, d).value);
  }

  lemma PaymentsConserve(s: Rows, t: Rows)
    requires Conserved(s) && t.orders == s.orders && t.deliveries == s.deliveries
    ensures Conserved(t)
  {
  }

  lemma OtherRequestConserves(s: Rows, r: Request)
    requires Inv(s) && Conserved(s) && Answer(s, r).Ok? && !r.EditReq?
    ensures Conserved(Step(s, r))
  {
    match r
    case UploadReq(peso, valor, sorting) => UploadConserves(s, peso, valor, sorting);
    case CreateReq(driver, refs, frete, rules) => CreateConserves(s, driver, refs, frete, rules);
    case ApproveReq(d) => ApproveConserves(s, d);
    case RejectReq(d) => RejectConserves(s, d);
    case DriverReq(driver, id, to, hasReason) => UpdateOrderStatusConserves(s, driver, id, to, hasReason);
    case RemoveReq(d) => RemoveConserves(s, d);
    case RemoveOrderReq(d, id, frete, rules) => RemoveOrderConserves(s, d, id, frete, rules);
    case _ => PaymentsConserve(s, Step(s, r));
  }

  /** If the request is an edit that is accepted, it takes nothing from any other delivery. */
  ghost predicate LeavesOthers(s: Rows, r: Request) {
    r.EditReq? && Answer(s, r).Ok? ==> forall e :: e in s.deliveries && e != r.d ==> TakesNothing(s, r.newRefs, e)
  }

  lemma StepConservesIff(s: Rows, r: Request)
    requires Inv(s) && Conserved(s)
    ensures Conserved(Step(s, r)) <==> LeavesOthers(s, r)
  {
    if Answer(s, r).Ok? {
      if r.EditReq? {
        EditConservesIff(s, r.d, r.newDriver, r.newRefs, r.frete, r.rules);
      } else {
        OtherRequestConserves(s, r);
      }
    }
  }

  /** The totals are right now and were after every shorter part of the run. */
  ghost predicate ConservedThroughout(rs: seq<Request>) {
    Conserved(Run(rs)) && (rs != [] ==> ConservedThroughout(rs[..|rs| - 1]))
  }

  ghost predicate EditsLeaveOthers(rs: seq<Request>) {
    rs != [] ==> EditsLeaveOthers(rs[..|rs| - 1]) && LeavesOthers(Run(rs[..|rs| - 1]), rs[|rs| - 1])
  }

  /** The totals are right after every request of a run if and only if no accepted edit takes
      weight or value from another delivery. */
  lemma {:induction false} RunConservesIff(rs: seq<Request>)
    ensures ConservedThroughout(rs) <==> EditsLeaveOthers(rs)
  {
    if rs != [] {
      var n := |rs| - 1;
      RunConservesIff(rs[..n]);
      RunKeeps(rs[..n]);
      if ConservedThroughout(rs[..n]) {
        StepConservesIff(Run(rs[..n]), rs[n]);
      }
    }
  }

  /** Every accepted edit of the run lists only orders that are free or already its own. */
  ghost predicate EditsAddFreeOrders(rs: seq<Request>) {
    rs != [] ==>
      var s, r := Run(rs[..|rs| - 1]), rs[|rs| - 1];
      EditsAddFreeOrders(rs[..|rs| - 1]) && (r.EditReq? && Answer(s, r).Ok? ==> AddsFreeOrders(s, r.d, r.newRefs))
  }

  lemma FreeOrdersLeaveOthers(s: Rows, r: Request)
    requires r.EditReq? && Answer(s, r).Ok? ==> AddsFreeOrders(s, r.d, r.newRefs)
    ensures LeavesOthers(s, r)
  {
    if r.EditReq? && Answer(s, r).Ok? {
      forall e | e != r.d ensures TakesNothing(s, r.newRefs, e) {
        FreeOrdersTakeNothing(s, r.d, r.newRefs, e);
      }
    }
  }

  lemma {:induction false} FreeEditsLeaveOthers(rs: seq<Request>)
    requires EditsAddFreeOrders(rs)
    ensures EditsLeaveOthers(rs)
  {
    if rs != [] {
      FreeEditsLeaveOthers(rs[..|rs| - 1]);
      FreeOrdersLeaveOthers(Run(rs[..|rs| - 1]), rs[|rs| - 1]);
    }
  }

  lemma RunConserves(rs: seq<Request>)
    requires EditsAddFreeOrders(rs)
    ensures ConservedThroughout(rs)
  {
    FreeEditsLeaveOthers(rs);
    RunConservesIff(rs);
  }

  lemma {:induction false} NoEditsAtAll(rs: seq<Request>)
    requires forall i :: 0 <= i < |rs| ==> !rs[i].EditReq?
    ensures EditsAddFreeOrders(rs)
  {
    if rs != [] {
      NoEditsAtAll(rs[..|rs| - 1]);
    }
  }

  // ---- A run that breaks the totals ----

  /** Two orders, each alone on a started delivery. */
  const TWO_DELIVERIES: seq<Request> := [UPLOAD, UPLOAD, OneOrder(0, 0.0, NO_RULES), OneOrder(1, 0.0, NO_RULES)]

  /** An edit of delivery 1 that also lists the order of delivery 0. */
  const TAKING_EDIT := EditReq(1, None, Some([OrderRef(1, None), OrderRef(0, None)]), 0.0, NO_RULES)

  lemma TwoDeliveriesRows(rs: seq<Request>)
    requires rs == TWO_DELIVERIES
    ensures var s := Run(rs);
      && s.orders.Keys == {0, 1} && s.deliveries.Keys == {0, 1} && s.deliveries[1].status == Iniciado
      && s.orders[0].deliveryId == Some(0) && s.orders[1].deliveryId == Some(1)
      && s.orders[0].peso == 1.0 && s.orders[1].peso == 1.0
  {
    var three := rs[..2] + [rs[2]];
    assert rs == three + [rs[3]];
    OneDeliveryRows(rs[..2], rs[2], 0.0, NO_RULES);
    RunOneMore(three, rs[3]);
    CreateOne(Run(three), rs[3], 1, 0.0, NO_RULES);
  }

  lemma TakingEditTakes(s: Rows, refs: seq<OrderRef>)
    requires refs == [OrderRef(1, None), OrderRef(0, None)]
    requires s.orders.Keys == {0, 1} && s.orders[0].deliveryId == Some(0)
    ensures Listed(refs) == s.orders.Keys
    ensures !AddsFreeOrders(s, 1, Some(refs))
  {
  }

  lemma EditIsAccepted(s: Rows, d: nat, refs: seq<OrderRef>, frete: real, rules: TenantRules)
    requires d in s.deliveries && s.deliveries[d].status == Iniciado && Listed(refs) == s.orders.Keys
    ensures Edit(s, d, None, Some(refs), frete, rules).Ok?
  {
  }

  lemma TakingEditBreaks(s: Rows, refs: seq<OrderRef>)
    requires Inv(s) && Conserved(s) && s.orders.Keys == {0, 1}
    requires 1 in s.deliveries && s.deliveries[1].status == Iniciado
    requires s.orders[0].deliveryId == Some(0)
    requires s.orders[0].peso == 1.0 && s.orders[1].peso == 1.0
    requires refs == [OrderRef(1, None), OrderRef(0, None)]
    ensures Edit(s, 1, None, Some(refs), 0.0, NO_RULES).Ok?
    ensures !Conserved(Edit(s, 1, None, Some(refs), 0.0, NO_RULES).value)
  {
    TakingEditTakes(s, refs);
    EditIsAccepted(s, 1, refs, 0.0, NO_RULES);
    assert forall id :: id in s.orders ==> s.orders[id].peso > 0.0;
    EditConservesIffFree(s, 1, None, Some(refs), 0.0, NO_RULES);
  }

  lemma TwoDeliveriesConserve(rs: seq<Request>)
    requires rs == TWO_DELIVERIES
    ensures Inv(Run(rs)) && Conserved(Run(rs))
  {
    RunKeeps(rs);
    NoEditsAtAll(rs);
    RunConserves(rs);
  }

  lemma AcceptedEditStep(s: Rows, e: Request)
    requires e.EditReq? && Edit(s, e.d, e.newDriver, e.newRefs, e.frete, e.rules).Ok?
    ensures Step(s, e) == Edit(s, e.d, e.newDriver, e.newRefs, e.frete, e.rules).value
  {
  }

  /** The totals are right after TWO_DELIVERIES; the edit is accepted and makes them wrong. */
  lemma TakingEditBreaksTotals(rs: seq<Request>, edit: Request)
    requires rs == TWO_DELIVERIES && edit == TAKING_EDIT
    ensures Conserved(Run(rs)) && Answer(Run(rs), edit).Ok? && !Conserved(Run(rs + [edit]))
  {
    TwoDeliveriesRows(rs);
    TwoDeliveriesConserve(rs);
    var refs := edit.newRefs.value;
    TakingEditBreaks(Run(rs), refs);
    AcceptedEditStep(Run(rs), edit);
    RunOneMore(rs, edit);
  }
}
