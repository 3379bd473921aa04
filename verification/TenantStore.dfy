/** The services as they run: each request executes its statements one by one on the
    tenant's tables and is proved to give exactly the net effect stated in Lifecycle. */
module TenantStore {
  import opened Wrappers
  import opened Sums
  import opened ApprovalRules
  import opened Lifecycle

  /** The outcome a request's answer stands for. */
  ghost function OutcomeOf(a: Result<Rows>): Outcome {
    match a
    case Ok(_) => Done
    case Err(e) => Failed(e)
  }

  /** reduce over one column of the rows a query returned, in whatever order they came. */
  method SumColumn(column: map<nat, real>) returns (total: real)
    ensures total == Sum(column)
  {
    total := 0.0;
    var rest := column;
    while rest != map[]
      invariant Sum(column) == total + Sum(rest)
      decreases |rest|
    {
      var k :| k in rest;
      SumTake(rest, k);
      total := total + rest[k];
      rest := rest - {k};
    }
  }

  /** Comparing the number of rows found with the number of ids asked for tests exactly that
      the ids are distinct and every one was found. */
  lemma {:induction false} CountMatches(ids: seq<nat>, found: set<nat>)
    requires forall id :: id in found ==> id in ids
    ensures |found| <= |ids|
    ensures |found| == |ids| <==> DistinctIds(ids) && forall id :: id in ids ==> id in found
  {
    if ids == [] {
      assert found == {};
    } else {
      var n := |ids| - 1;
      var front, last := ids[..n], ids[n];
      LastId(ids);
      if last in front {
        CountMatches(front, found);
      } else {
        CountMatches(front, found - {last});
        if last !in found {
          assert found - {last} == found;
        }
      }
    }
  }

  lemma LastId(ids: seq<nat>)
    requires ids != []
    ensures var front, last := ids[..|ids| - 1], ids[|ids| - 1];
      && (forall id :: id in ids <==> id in front || id == last)
      && (DistinctIds(ids) <==> DistinctIds(front) && last !in front)
  {
  }

  class Store {
    var orders: map<nat, Order>
    var deliveries: map<nat, Delivery>
    var approvals: map<nat, Approval>
    var payments: map<nat, Payment>
    var links: set<Link>
    var nextOrder: nat
    var nextDelivery: nat
    var nextApproval: nat
    var nextPayment: nat
    /** Every request served so far, accepted or not. */
    ghost var served: seq<Request>

    ghost function View(): Rows
      reads this
    {
      Rows(orders, deliveries, approvals, payments, links, nextOrder, nextDelivery, nextApproval, nextPayment)
    }

    /** The tables are those of the run of all requests served. */
    ghost predicate Valid()
      reads this
    {
      View() == Run(served)
    }

    constructor ()
      ensures Valid() && View() == NO_ROWS && served == []
    {
      orders, deliveries, approvals, payments, links := map[], map[], map[], map[], {};
      nextOrder, nextDelivery, nextApproval, nextPayment := 0, 0, 0, 0;
      served := [];
    }

    ghost method Serve(before: Rows, req: Request)
      requires before == Run(served) && View() == Step(before, req)
      modifies this`served
      ensures Valid() && served == old(served) + [req]
    {
      served := served + [req];
      assert served[..|served| - 1] == old(served);
    }

    // ---- PaymentsService ----

    method CreatePayment(d: nat) returns (r: Outcome)
      requires Valid()
      modifies this
      ensures Valid() && served == old(served) + [PayReq(d)]
      ensures View() == Step(old(View()), PayReq(d)) && r == OutcomeOf(Pay(old(View()), d))
    {
      r := InsertPayment(d);
      Serve(old(View()), PayReq(d));
    }

    /** The body of the payment request, also run by the finalising driver step. */
    method InsertPayment(d: nat) returns (r: Outcome)
      modifies this`payments, this`links, this`nextPayment
      ensures r == OutcomeOf(Pay(old(View()), d))
      ensures View() == if r.Done? then Pay(old(View()), d).value else old(View())
    {
      if d !in deliveries {
        return Failed(NotFound);
      }
      var existing := set l | l in links && l.deliveryId == d;
      if existing != {} {
        assert HasLink(links, d);
        return Failed(Conflict);
      }
      assert forall l :: l in links && l.deliveryId == d ==> l in existing;
      var p := nextPayment;
      nextPayment := nextPayment + 1;
      payments := payments[p := Payment(deliveries[d].valorFrete, deliveries[d].driverId, Pendente)];
      links := links + {Link(p, d)};
      r := Done;
    }

    method MarkAsPaid(ids: seq<nat>) returns (r: Outcome)
      requires Valid()
      modifies this
      ensures Valid() && served == old(served) + [MarkAsPaidReq(ids)]
      ensures View() == Step(old(View()), MarkAsPaidReq(ids)) && r == OutcomeOf(Lifecycle.MarkAsPaid(old(View()), ids))
    {
      var found := set p | p in payments && p in ids;
      var nonPending := set p | p in found && payments[p].status != Pendente;
      CountMatches(ids, found);
      if ids == [] {
        r := Failed(BadRequest);
      } else if |found| != |ids| {
        assert !DistinctIds(ids) || exists p :: p in ids && p !in payments;
        r := Failed(NotFound);
      } else if nonPending != {} {
        var p :| p in nonPending;
        assert p in ids && payments[p].status != Pendente;
        r := Failed(BadRequest);
      } else {
        assert forall p :: p in ids ==> p in found && p !in nonPending;
        payments := map p | p in payments ::
          if p in ids then payments[p].(status := Pago) else payments[p];
        assert payments == WithStatus(old(View()), IdSet(ids), Pago).payments;
        r := Done;
      }
      Serve(old(View()), MarkAsPaidReq(ids));
    }

    method UpdateStatus(p: nat, status: PaymentStatus) returns (r: Outcome)
      requires Valid()
      modifies this
      ensures Valid() && served == old(served) + [PaymentStatusReq(p, status)]
      ensures View() == Step(old(View()), PaymentStatusReq(p, status))
      ensures r == OutcomeOf(UpdatePaymentStatus(old(View()), p, status))
    {
      if p !in payments {
        r := Failed(NotFound);
      } else {
        r := Done;
        if payments[p].status != status {
          payments := payments[p := payments[p].(status := status)];
        }
        assert payments == WithStatus(old(View()), {p}, status).payments;
      }
      Serve(old(View()), PaymentStatusReq(p, status));
    }

    method RevertPaymentToPending(p: nat) returns (r: Outcome)
      requires Valid()
      modifies this
      ensures Valid() && served == old(served) + [RevertReq(p)]
      ensures View() == Step(old(View()), RevertReq(p)) && r == OutcomeOf(RevertPayment(old(View()), p))
    {
      if p !in payments {
        r := Failed(NotFound);
      } else if payments[p].status != Pago {
        r := Failed(BadRequest);
      } else {
        payments := payments[p := payments[p].(status := Pendente)];
        assert payments == WithStatus(old(View()), {p}, Pendente).payments;
        r := Done;
      }
      Serve(old(View()), RevertReq(p));
    }

    // ---- OrdersService ----

    method UploadOrder(peso: real, valor: real, sorting: Option<int>)
      requires Valid()
      modifies this
      ensures Valid() && served == old(served) + [UploadReq(peso, valor, sorting)]
      ensures View() == Step(old(View()), UploadReq(peso, valor, sorting))
    {
      orders := orders[nextOrder := Order(SemRota, None, peso, valor, sorting)];
      nextOrder := nextOrder + 1;
      Serve(old(View()), UploadReq(peso, valor, sorting));
    }

    // ---- DeliveryService ----

    method CreateDelivery(driver: nat, refs: seq<OrderRef>, frete: real, rules: TenantRules) returns (r: Outcome)
      requires Valid()
      modifies this
      ensures Valid() && served == old(served) + [CreateReq(driver, refs, frete, rules)]
      ensures View() == Step(old(View()), CreateReq(driver, refs, frete, rules))
      ensures r == OutcomeOf(Create(old(View()), driver, refs, frete, rules))
    {
      r := InsertDelivery(driver, refs, frete, rules);
      Serve(old(View()), CreateReq(driver, refs, frete, rules));
    }

    method InsertDelivery(driver: nat, refs: seq<OrderRef>, frete: real, rules: TenantRules) returns (r: Outcome)
      modifies this`orders, this`deliveries, this`nextDelivery
      ensures r == OutcomeOf(Create(old(View()), driver, refs, frete, rules))
      ensures View() == if r.Done? then Create(old(View()), driver, refs, frete, rules).value else old(View())
    {
      var orderIds := RefIds(refs);
      var found := set id | id in orders && id in orderIds && orders[id].status == SemRota;
      CountMatches(orderIds, found);
      ListedIsRefIds(refs);
      if |found| != |orderIds| {
        assert !Routable(View(), refs);
        return Failed(BadRequest);
      }
      assert Routable(View(), refs);
      assert found == Listed(refs);
      var totalPeso := SumColumn(PesosIn(orders, found));
      var totalValor := SumColumn(ValoresIn(orders, found));
      var checkup := Checkup(rules, totalValor, totalPeso, |found|, frete);
      assert checkup == CreationCheckup(old(View()), refs, frete, rules);
      var needsApproval, _ := Validate(checkup);
      var deliveryStatus := if needsApproval then ALiberar else Iniciado;
      var orderStatus := if needsApproval then EmRotaAguardandoLiberacao else EmRota;
      var d := nextDelivery;
      nextDelivery := nextDelivery + 1;
      deliveries := deliveries[d := Delivery(driver, frete, totalPeso, totalValor, deliveryStatus)];
      RouteOrders(d, refs, orderStatus);
      r := Done;
    }

    /** The write loop of the creation transaction. */
    method RouteOrders(d: nat, refs: seq<OrderRef>, status: OrderStatus)
      requires Listed(refs) <= orders.Keys
      modifies this`orders
      ensures orders == map id | id in old(orders) :: Routed(old(orders)[id], id, d, refs, status)
    {
      for i := 0 to |refs|
        invariant orders.Keys == old(orders).Keys
        invariant forall id :: id in orders ==> orders[id] == Routed(old(orders)[id], id, d, refs[..i], status)
      {
        var ref := refs[i];
        ListedStep(refs, i);
        var o := orders[ref.id];
        UnlistedKeepsSorting(refs[..i], ref.id, old(orders)[ref.id].sorting);
        orders := orders[ref.id := o.(status := status, deliveryId := Some(d),
                                      sorting := if ref.sorting.Some? then ref.sorting else o.sorting)];
      }
      assert refs[..|refs|] == refs;
    }

    method LiberarRoteiro(d: nat) returns (r: Outcome)
      requires Valid()
      modifies this
      ensures Valid() && served == old(served) + [ApproveReq(d)]
      ensures View() == Step(old(View()), ApproveReq(d)) && r == OutcomeOf(Approve(old(View()), d))
    {
      if d !in deliveries {
        r := Failed(NotFound);
      } else if deliveries[d].status != ALiberar {
        r := Failed(BadRequest);
      } else {
        deliveries := deliveries[d := deliveries[d].(status := Iniciado)];
        orders := map id | id in orders ::
          if orders[id].deliveryId == Some(d) && orders[id].status == EmRotaAguardandoLiberacao
          then orders[id].(status := EmRota) else orders[id];
        InsertApproval(d, Approved);
        r := Done;
        assert orders == Approve(old(View()), d).value.orders;
      }
      Serve(old(View()), ApproveReq(d));
    }

    method InsertApproval(d: nat, action: ApprovalAction)
      modifies this`approvals, this`nextApproval
      ensures View() == AddApproval(old(View()), d, action)
    {
      approvals := approvals[nextApproval := Approval(d, action)];
      nextApproval := nextApproval + 1;
    }

    /** The second statement looks for the orders the first one has just cut loose, so it
        changes nothing. */
    method RejeitarRoteiro(d: nat) returns (r: Outcome)
      requires Valid()
      modifies this
      ensures Valid() && served == old(served) + [RejectReq(d)]
      ensures View() == Step(old(View()), RejectReq(d)) && r == OutcomeOf(Reject(old(View()), d))
    {
      if d !in deliveries {
        r := Failed(NotFound);
      } else if deliveries[d].status != ALiberar {
        r := Failed(BadRequest);
      } else {
        deliveries := deliveries[d := deliveries[d].(status := Rejeitado)];
        orders := map id | id in orders ::
          if orders[id].deliveryId == Some(d) then orders[id].(deliveryId := None) else orders[id];
        ghost var cut := orders;
        assert cut == map id | id in old(orders) :: CutLoose(old(orders)[id], d);
        FreeOrders(d);
        assert orders == cut;
        InsertApproval(d, Rejected);
        r := Done;
      }
      Serve(old(View()), RejectReq(d));
    }

    /** The count after the write and, when it finds no unfinished order, the finalisation and
        the automatic payment, whose failure is swallowed. */
    method FinaliseWhenDone(d: nat)
      requires d in deliveries
      modifies this`deliveries, this`payments, this`links, this`nextPayment
      ensures View() == if AllFinished(old(orders), d) then Finalise(old(View()), d) else old(View())
    {
      var unfinished := set k | k in orders && orders[k].deliveryId == Some(d) && !Finished(orders[k].status);
      if |unfinished| == 0 {
        assert forall k :: k in orders && orders[k].deliveryId == Some(d) && !Finished(orders[k].status) ==>
          k in unfinished;
        deliveries := deliveries[d := deliveries[d].(status := Finalizado)];
        var _ := InsertPayment(d);
      } else {
        var k :| k in unfinished;
        assert !AllFinished(orders, d);
      }
    }

    method UpdateOrderStatus(driver: nat, id: nat, to: OrderStatus, hasReason: bool) returns (r: Outcome)
      requires Valid()
      modifies this
      ensures Valid() && served == old(served) + [DriverReq(driver, id, to, hasReason)]
      ensures View() == Step(old(View()), DriverReq(driver, id, to, hasReason))
      ensures r == OutcomeOf(Lifecycle.UpdateOrderStatus(old(View()), driver, id, to, hasReason))
    {
      if id !in orders {
        r := Failed(NotFound);
      } else {
        var o := orders[id];
        if o.deliveryId.None? || o.deliveryId.value !in deliveries
           || deliveries[o.deliveryId.value].driverId != driver {
          r := Failed(Forbidden);
        } else if deliveries[o.deliveryId.value].status != Iniciado || !ValidTransition(o.status, to)
                  || (to == NaoEntregue && !hasReason) {
          r := Failed(BadRequest);
        } else {
          var d := o.deliveryId.value;
          orders := orders[id := o.(status := to)];
          FinaliseWhenDone(d);
          r := Done;
        }
      }
      Serve(old(View()), DriverReq(driver, id, to, hasReason));
    }

    method Update(d: nat, driver: Option<nat>, refs: Option<seq<OrderRef>>, frete: real, rules: TenantRules)
      returns (r: Outcome)
      requires Valid()
      modifies this
      ensures Valid() && served == old(served) + [EditReq(d, driver, refs, frete, rules)]
      ensures View() == Step(old(View()), EditReq(d, driver, refs, frete, rules))
      ensures r == OutcomeOf(Edit(old(View()), d, driver, refs, frete, rules))
    {
      if d !in deliveries {
        r := Failed(NotFound);
      } else if deliveries[d].status == Finalizado || deliveries[d].status == Rejeitado {
        r := Failed(BadRequest);
      } else {
        var committed := true;
        if refs.Some? {
          committed := ReplaceOrders(d, refs.value);
        }
        if committed {
          var newDriver := if driver.Some? then driver.value else deliveries[d].driverId;
          assert orders == EditedOrders(old(View()), d, refs);
          var totalPeso := SumColumn(PesosOf(orders, d));
          var totalValor := SumColumn(ValoresOf(orders, d));
          StoreAssessment(d, newDriver, Checkup(rules, totalValor, totalPeso, |Attached(orders, d)|, frete));
          r := Done;
        } else {
          r := Failed(NotFound);
        }
      }
      Serve(old(View()), EditReq(d, driver, refs, frete, rules));
    }

    /** The edit's transaction: the diff against the current list, two bulk updates and the
        sorting loop, rolled back when a listed order does not exist. */
    method ReplaceOrders(d: nat, refs: seq<OrderRef>) returns (committed: bool)
      requires d in deliveries
      modifies this`orders
      ensures committed == (Listed(refs) <= old(orders).Keys)
      ensures orders == if committed then EditedOrders(old(View()), d, Some(refs)) else old(orders)
    {
      var begun := orders;
      var entry := if deliveries[d].status == ALiberar then EmRotaAguardandoLiberacao else EmRota;
      ApplyDiff(d, refs, entry);
      committed := WriteSortings(refs);
      if committed {
        forall id | id in orders ensures orders[id] == Placed(begun[id], id, d, refs, entry) {
          DiffThenSortIsPlaced(begun[id], id, d, refs, entry);
        }
      } else {
        orders := begun;
      }
    }

    /** Which ids to add and which to remove, and the bulk update of each group. */
    method ApplyDiff(d: nat, refs: seq<OrderRef>, entry: OrderStatus)
      modifies this`orders
      ensures orders.Keys == old(orders).Keys
      ensures forall id :: id in orders ==> orders[id] == Diffed(old(orders)[id], id, d, refs, entry)
    {
      var currentOrderIds := Attached(orders, d);
      var newOrderIds := Listed(refs);
      FreeThese(currentOrderIds - newOrderIds, d);
      AttachThese(newOrderIds - currentOrderIds, d, entry);
    }

    method FreeThese(idsToRemove: set<nat>, d: nat)
      modifies this`orders
      ensures orders.Keys == old(orders).Keys
      ensures forall id :: id in orders ==>
        orders[id] == if id in idsToRemove then Freed(old(orders)[id], d) else old(orders)[id]
    {
      orders := map id | id in orders :: if id in idsToRemove then Freed(orders[id], d) else orders[id];
    }

    method AttachThese(idsToAdd: set<nat>, d: nat, entry: OrderStatus)
      modifies this`orders
      ensures orders.Keys == old(orders).Keys
      ensures forall id :: id in orders ==>
        orders[id] == if id in idsToAdd
                      then old(orders)[id].(deliveryId := Some(d), status := entry) else old(orders)[id]
    {
      orders := map id | id in orders ::
        if id in idsToAdd then orders[id].(deliveryId := Some(d), status := entry) else orders[id];
    }

    /** The sorting loop; it stops at the first listed order that does not exist. */
    method WriteSortings(refs: seq<OrderRef>) returns (complete: bool)
      modifies this`orders
      ensures complete == (Listed(refs) <= old(orders).Keys)
      ensures orders.Keys == old(orders).Keys
      ensures complete ==> forall id :: id in orders ==>
        orders[id] == old(orders)[id].(sorting := LastSorting(refs, id, old(orders)[id].sorting))
    {
      for i := 0 to |refs|
        invariant orders.Keys == old(orders).Keys && Listed(refs[..i]) <= orders.Keys
        invariant forall id :: id in orders ==>
          orders[id] == old(orders)[id].(sorting := LastSorting(refs[..i], id, old(orders)[id].sorting))
      {
        var ref := refs[i];
        ListedStep(refs, i);
        if ref.id !in orders {
          return false;
        }
        var o := orders[ref.id];
        orders := orders[ref.id := o.(sorting := if ref.sorting.Some? then ref.sorting else o.sorting)];
      }
      assert refs[..|refs|] == refs;
      complete := true;
    }

    /** The rule check on the new numbers and the update of the delivery row. */
    method StoreAssessment(d: nat, driver: nat, checkup: Checkup)
      requires d in deliveries
      requires checkup == CheckupOf(orders, d, checkup.valorFrete, checkup.rules)
      modifies this`orders, this`deliveries
      ensures View() == Reassess(old(View()), d, old(orders), driver, checkup.valorFrete, checkup.rules)
    {
      var needsApproval, _ := Validate(checkup);
      var status := deliveries[d].status;
      if status == Iniciado && needsApproval {
        status := ALiberar;
        orders := map id | id in orders ::
          if orders[id].deliveryId == Some(d) then orders[id].(status := EmRotaAguardandoLiberacao) else orders[id];
      }
      deliveries :=
        deliveries[d := Delivery(driver, checkup.valorFrete, checkup.totalPeso, checkup.totalValor, status)];
    }

    /** The totals are taken over the orders read before the write, without the removed one. */
    method RemoveOrderFromDelivery(d: nat, id: nat, frete: real, rules: TenantRules) returns (r: Outcome)
      requires Valid()
      modifies this
      ensures Valid() && served == old(served) + [RemoveOrderReq(d, id, frete, rules)]
      ensures View() == Step(old(View()), RemoveOrderReq(d, id, frete, rules))
      ensures r == OutcomeOf(RemoveOrder(old(View()), d, id, frete, rules))
    {
      if d !in deliveries || id !in Attached(orders, d) {
        r := Failed(NotFound);
      } else {
        var read := orders;
        orders := orders[id := Freed(orders[id], d)];
        var remaining := Attached(read, d) - {id};
        assert remaining == Attached(orders, d);
        assert PesosIn(read, remaining) == PesosOf(orders, d);
        assert ValoresIn(read, remaining) == ValoresOf(orders, d);
        var totalPeso := SumColumn(PesosIn(read, remaining));
        var totalValor := SumColumn(ValoresIn(read, remaining));
        StoreAssessment(d, deliveries[d].driverId, Checkup(rules, totalValor, totalPeso, |remaining|, frete));
        r := Done;
      }
      Serve(old(View()), RemoveOrderReq(d, id, frete, rules));
    }

    /** The bulk update that sends every order of a delivery back to SEM_ROTA. */
    method FreeOrders(d: nat)
      modifies this`orders
      ensures orders == map id | id in old(orders) :: Freed(old(orders)[id], d)
    {
      orders := map id | id in orders :: Freed(orders[id], d);
    }

    method RemoveDelivery(d: nat) returns (r: Outcome)
      requires Valid()
      modifies this
      ensures Valid() && served == old(served) + [RemoveReq(d)]
      ensures View() == Step(old(View()), RemoveReq(d)) && r == OutcomeOf(Lifecycle.Remove(old(View()), d))
    {
      r := DeleteDelivery(d);
      Serve(old(View()), RemoveReq(d));
    }

    method AnyInDelivery(d: nat) returns (found: bool)
      ensures found <==> exists id :: id in orders && orders[id].deliveryId == Some(d) && orders[id].status == EmEntrega
    {
      found := exists id :: id in orders && orders[id].deliveryId == Some(d) && orders[id].status == EmEntrega;
    }

    method DeleteDelivery(d: nat) returns (r: Outcome)
      modifies this`orders, this`deliveries, this`approvals, this`links
      ensures r == OutcomeOf(Lifecycle.Remove(old(View()), d))
      ensures View() == if r.Done? then Lifecycle.Remove(old(View()), d).value else old(View())
    {
      if d !in deliveries {
        return Failed(NotFound);
      }
      var inDelivery := AnyInDelivery(d);
      if deliveries[d].status == Iniciado && inDelivery {
        return Failed(BadRequest);
      }
      FreeOrders(d);
      links := LinksWithout(links, d);
      approvals := ApprovalsWithout(approvals, d);
      deliveries := deliveries - {d};
      r := Done;
    }
  }

  lemma ListedIsRefIds(refs: seq<OrderRef>)
    ensures forall id :: id in Listed(refs) <==> id in RefIds(refs)
  {
    forall id | id in Listed(refs) ensures id in RefIds(refs) {
      var i :| 0 <= i < |refs| && refs[i].id == id;
      assert RefIds(refs)[i] == id;
    }
    forall id | id in RefIds(refs) ensures id in Listed(refs) {
      var i :| 0 <= i < |refs| && RefIds(refs)[i] == id;
      assert refs[i] in refs;
    }
  }

  lemma ListedStep(refs: seq<OrderRef>, i: nat)
    requires i < |refs|
    ensures refs[..i + 1][..i] == refs[..i] && refs[..i + 1][i] == refs[i]
    ensures Listed(refs[..i + 1]) == Listed(refs[..i]) + {refs[i].id}
    ensures refs[i].id in Listed(refs)
  {
  }

  lemma {:induction false} UnlistedKeepsSorting(refs: seq<OrderRef>, id: nat, before: Option<int>)
    ensures id !in Listed(refs) ==> LastSorting(refs, id, before) == before
  {
    if refs != [] && id !in Listed(refs) {
      var n := |refs| - 1;
      assert refs[n] in refs && forall r :: r in refs[..n] ==> r in refs;
      UnlistedKeepsSorting(refs[..n], id, before);
    }
  }

  /** What the two bulk updates of an edit make of one order. */
  function Diffed(o: Order, id: nat, d: nat, refs: seq<OrderRef>, entry: OrderStatus): Order {
    if id !in Listed(refs) then Freed(o, d)
    else if o.deliveryId != Some(d) then o.(deliveryId := Some(d), status := entry)
    else o
  }

  lemma DiffThenSortIsPlaced(o: Order, id: nat, d: nat, refs: seq<OrderRef>, entry: OrderStatus)
    ensures var diffed := Diffed(o, id, d, refs, entry);
      diffed.(sorting := LastSorting(refs, id, diffed.sorting)) == Placed(o, id, d, refs, entry)
  {
    UnlistedKeepsSorting(refs, id, Diffed(o, id, d, refs, entry).sorting);
  }
}
