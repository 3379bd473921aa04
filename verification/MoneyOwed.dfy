/** What a driver can still expect is worked out twice: the receivable is the freight of
    finalised deliveries that are not paid, the pending payments are rows of their own with
    the amount and driver of the moment they were created. When are the two the same? */
module MoneyOwed {
  import opened Wrappers
  import opened Sums
  import opened Lifecycle
  import opened LifecycleInvariant
  import opened Receivables
  import opened ExampleRuns

  /** A pending payment of the driver that is linked to a delivery. */
  predicate IsPending(s: Rows, driver: nat, p: nat) {
    p in s.payments && s.payments[p].status == Pendente && s.payments[p].driverId == driver
  }

  function Pending(s: Rows, driver: nat): map<nat, real> {
    map p | p in s.payments && IsPending(s, driver, p) && (exists l :: l in s.links && l.paymentId == p) ::
      s.payments[p].amount
  }

  /** The payment of a delivery. */
  ghost function PaymentOf(s: Rows, d: nat): (p: nat)
    requires HasLink(s.links, d)
    ensures Link(p, d) in s.links
  {
    var l :| l in s.links && l.deliveryId == d;
    l.paymentId
  }

  ghost predicate Owes(s: Rows, driver: nat, d: nat) {
    HasLink(s.links, d) && IsPending(s, driver, PaymentOf(s, d))
  }

  ghost function PendingByDelivery(s: Rows, driver: nat): map<nat, real> {
    map d | d in s.deliveries && Owes(s, driver, d) :: s.payments[PaymentOf(s, d)].amount
  }

  lemma PaymentIsPending(s: Rows, driver: nat, d: nat)
    requires Inv(s) && d in PendingByDelivery(s, driver)
    ensures var p := PaymentOf(s, d);
      p in Pending(s, driver) && Pending(s, driver)[p] == PendingByDelivery(s, driver)[d]
  {
    assert Link(PaymentOf(s, d), d).paymentId == PaymentOf(s, d);
  }

  lemma DeliveryOfPending(s: Rows, driver: nat, p: nat) returns (d: nat)
    requires Inv(s) && p in Pending(s, driver)
    ensures d in PendingByDelivery(s, driver) && PaymentOf(s, d) == p
  {
    var l :| l in s.links && l.paymentId == p;
    d := l.deliveryId;
    assert Link(PaymentOf(s, d), d) == l;
  }

  lemma OnePaymentEach(s: Rows, d: nat, e: nat)
    requires Inv(s) && HasLink(s.links, d) && HasLink(s.links, e) && PaymentOf(s, d) == PaymentOf(s, e)
    ensures d == e
  {
    assert Link(PaymentOf(s, d), d) == Link(PaymentOf(s, e), e);
  }

  /** The pending payments can as well be added up delivery by delivery. */
  lemma PendingEitherWay(s: Rows, driver: nat)
    requires Inv(s)
    ensures Sum(Pending(s, driver)) == Sum(PendingByDelivery(s, driver))
  {
    var byDelivery, byPayment := PendingByDelivery(s, driver), Pending(s, driver);
    var name := map d | d in byDelivery :: PaymentOf(s, d);
    forall d | d in byDelivery ensures name[d] in byPayment && byPayment[name[d]] == byDelivery[d] {
      PaymentIsPending(s, driver, d);
    }
    forall p | p in byPayment ensures exists d :: d in byDelivery && name[d] == p {
      var d := DeliveryOfPending(s, driver, p);
      assert name[d] == p;
    }
    forall d, e | d in byDelivery && e in byDelivery && name[d] == name[e] ensures d == e {
      OnePaymentEach(s, d, e);
    }
    SumRename(byDelivery, byPayment, name);
  }

  // ---- What one delivery adds to each ----

  function ReceivableFrom(s: Rows, driver: nat, d: nat): real {
    if Earns(s, driver, d) && !IsPaid(s, d) then s.deliveries[d].valorFrete else 0.0
  }

  ghost function PendingFrom(s: Rows, driver: nat, d: nat): real {
    if Owes(s, driver, d) then s.payments[PaymentOf(s, d)].amount else 0.0
  }

  ghost function ExcessAt(s: Rows, driver: nat, d: nat): real {
    ReceivableFrom(s, driver, d) - PendingFrom(s, driver, d)
  }

  ghost function Excesses(s: Rows, driver: nat): map<nat, real> {
    map d | d in s.deliveries :: ExcessAt(s, driver, d)
  }

  /** The difference of the two sums is accounted for delivery by delivery. */
  lemma ReceivableAndPending(s: Rows, driver: nat)
    requires Inv(s)
    ensures Sum(Unpaid(s, driver)) == Sum(Pending(s, driver)) + Sum(Excesses(s, driver))
  {
    var receivable := map d | d in s.deliveries :: ReceivableFrom(s, driver, d);
    var pending := map d | d in s.deliveries :: PendingFrom(s, driver, d);
    PendingEitherWay(s, driver);
    SumWithZeros(receivable, Unpaid(s, driver));
    SumWithZeros(pending, PendingByDelivery(s, driver));
    SumAdd(receivable, pending, Excesses(s, driver));
  }

  // ---- The same for every driver ----

  /** Every driver's receivable is the sum of his pending linked payments. */
  ghost predicate Balanced(s: Rows) {
    forall driver :: Sum(Unpaid(s, driver)) == Sum(Pending(s, driver))
  }

  /** All deliveries but d add to the two sums what they added before. */
  ghost predicate OnlyChanges(s: Rows, t: Rows, d: nat) {
    && (forall e :: e != d ==> (e in s.deliveries <==> e in t.deliveries))
    && forall e, driver :: e != d && e in s.deliveries ==> ExcessAt(t, driver, e) == ExcessAt(s, driver, e)
  }

  lemma NothingFromAbsent(s: Rows, driver: nat, d: nat)
    requires Inv(s) && d !in s.deliveries
    ensures ExcessAt(s, driver, d) == 0.0
  {
  }

  lemma SplitAt(s: Rows, driver: nat, d: nat)
    requires Inv(s)
    ensures Sum(Excesses(s, driver)) == ExcessAt(s, driver, d) + Sum(Excesses(s, driver) - {d})
  {
    var all := Excesses(s, driver);
    if d in all {
      SumTake(all, d);
    } else {
      assert all - {d} == all;
      NothingFromAbsent(s, driver, d);
    }
  }

  lemma RestSame(s: Rows, t: Rows, d: nat, driver: nat)
    requires OnlyChanges(s, t, d)
    ensures Excesses(s, driver) - {d} == Excesses(t, driver) - {d}
  {
    var before, after := Excesses(s, driver) - {d}, Excesses(t, driver) - {d};
    forall e ensures e in before <==> e in after {}
    forall e | e in before ensures before[e] == after[e] {
      assert e != d && e in s.deliveries;
    }
  }

  lemma ExcessMoves(s: Rows, t: Rows, d: nat, driver: nat)
    requires Inv(s) && Inv(t) && OnlyChanges(s, t, d)
    ensures Sum(Excesses(t, driver)) - Sum(Excesses(s, driver)) == ExcessAt(t, driver, d) - ExcessAt(s, driver, d)
  {
    SplitAt(s, driver, d);
    SplitAt(t, driver, d);
    RestSame(s, t, d, driver);
  }

  lemma BalanceMoves(s: Rows, t: Rows, d: nat)
    requires Inv(s) && Inv(t) && Balanced(s) && OnlyChanges(s, t, d)
    ensures Balanced(t) <==> forall driver :: ExcessAt(t, driver, d) == ExcessAt(s, driver, d)
  {
    forall driver
      ensures Sum(Unpaid(t, driver)) == Sum(Pending(t, driver)) <==> ExcessAt(t, driver, d) == ExcessAt(s, driver, d)
    {
      assert Sum(Unpaid(s, driver)) == Sum(Pending(s, driver));
      ReceivableAndPending(s, driver);
      ReceivableAndPending(t, driver);
      ExcessMoves(s, t, d, driver);
    }
    if Balanced(t) {
      forall driver ensures ExcessAt(t, driver, d) == ExcessAt(s, driver, d) {
        assert Sum(Unpaid(t, driver)) == Sum(Pending(t, driver));
      }
    }
  }

  // ---- A delivery and its payment ----

  function Gain(payee: nat, amount: real, driver: nat): real {
    if payee == driver then amount else 0.0
  }

  function ExcessOf(d: Delivery, p: Payment, driver: nat): real {
    Gain(d.driverId, if d.status == Finalizado && p.status != Pago then d.valorFrete else 0.0, driver)
    - Gain(p.driverId, if p.status == Pendente then p.amount else 0.0, driver)
  }

  lemma LinkedExcess(s: Rows, l: Link, driver: nat)
    requires Inv(s) && l in s.links
    ensures ExcessAt(s, driver, l.deliveryId) == ExcessOf(s.deliveries[l.deliveryId], s.payments[l.paymentId], driver)
    ensures IsPaid(s, l.deliveryId) <==> s.payments[l.paymentId].status == Pago
  {
    var d := l.deliveryId;
    assert Link(PaymentOf(s, d), d) == l;
  }

  lemma UnlinkedExcess(s: Rows, d: nat, driver: nat)
    requires Inv(s) && !HasLink(s.links, d)
    ensures ExcessAt(s, driver, d) == 0.0
  {
  }

  /** The delivery has the same link in both, to a payment that stayed as it was, and its own
      row says the same, up to the difference between two statuses that are not FINALIZADO. */
  predicate SameMoney(s: Rows, t: Rows, d: nat) {
    && d in s.deliveries && d in t.deliveries
    && (s.deliveries[d].status == Finalizado <==> t.deliveries[d].status == Finalizado)
    && (s.deliveries[d].status == Finalizado ==>
          && s.deliveries[d].driverId == t.deliveries[d].driverId
          && s.deliveries[d].valorFrete == t.deliveries[d].valorFrete)
    && LinksOf(s, d) == LinksOf(t, d)
    && (forall l :: l in s.links && l.deliveryId == d ==>
          l.paymentId in s.payments && l.paymentId in t.payments && t.payments[l.paymentId] == s.payments[l.paymentId])
  }

  lemma SameExcess(s: Rows, t: Rows, d: nat, driver: nat)
    requires Inv(s) && Inv(t) && SameMoney(s, t, d)
    ensures ExcessAt(t, driver, d) == ExcessAt(s, driver, d)
  {
    if l :| l in s.links && l.deliveryId == d {
      assert l in LinksOf(t, d);
      LinkedExcess(s, l, driver);
      LinkedExcess(t, l, driver);
    } else {
      assert LinksOf(s, d) == {};
      assert forall l :: l in t.links && l.deliveryId == d ==> l in LinksOf(t, d);
      UnlinkedExcess(s, d, driver);
      UnlinkedExcess(t, d, driver);
    }
  }

  lemma OthersSame(s: Rows, t: Rows, d: nat)
    requires Inv(s) && Inv(t) && forall e :: e != d ==> (e in s.deliveries <==> e in t.deliveries)
    requires forall e :: e != d && e in s.deliveries ==> SameMoney(s, t, e)
    ensures OnlyChanges(s, t, d)
  {
    forall e, driver | e != d && e in s.deliveries ensures ExcessAt(t, driver, e) == ExcessAt(s, driver, e) {
      SameExcess(s, t, e, driver);
    }
  }

  /** Nothing that counts has changed anywhere. */
  lemma AllSame(s: Rows, t: Rows)
    requires Inv(s) && Inv(t) && Balanced(s)
    requires s.deliveries.Keys <= t.deliveries.Keys <= s.deliveries.Keys + {s.nextDelivery}
    requires forall e :: e in s.deliveries ==> SameMoney(s, t, e)
    requires !HasLink(t.links, s.nextDelivery)
    ensures Balanced(t)
  {
    var d := s.nextDelivery;
    OthersSame(s, t, d);
    BalanceMoves(s, t, d);
    forall driver ensures ExcessAt(t, driver, d) == ExcessAt(s, driver, d) {
      UnlinkedExcess(s, d, driver);
      UnlinkedExcess(t, d, driver);
    }
  }

  // ---- What unbalances them ----

  /** Amount u for driver x and amount v for driver y are the same thing. */
  predicate SameGain(x: nat, u: real, y: nat, v: real) {
    if x == y then u == v else u == 0.0 && v == 0.0
  }

  lemma SameGainIff(x: nat, u: real, y: nat, v: real)
    ensures SameGain(x, u, y, v) <==> forall driver :: Gain(x, u, driver) == Gain(y, v, driver)
  {
    if forall driver :: Gain(x, u, driver) == Gain(y, v, driver) {
      assert Gain(x, u, x) == Gain(y, v, x) && Gain(x, u, y) == Gain(y, v, y);
    }
  }

  /** Finalises a delivery that was paid by hand before and whose payment is not PAGO. */
  predicate UnbalancesByFinish(s: Rows, id: nat, to: OrderStatus) {
    && id in s.orders && s.orders[id].deliveryId.Some? && s.orders[id].deliveryId.value in s.deliveries
    && var d := s.orders[id].deliveryId.value;
    && AllFinished(s.orders[id := s.orders[id].(status := to)], d)
    && HasLink(s.links, d) && !IsPaid(s, d) && s.deliveries[d].valorFrete != 0.0
  }

  /** The freight leaves the receivable and the amount the pending payments; is that the same
      for every driver? */
  predicate LeavesEvenly(d: Delivery, p: Payment) {
    SameGain(d.driverId, if d.status == Finalizado && p.status != Pago then d.valorFrete else 0.0,
             p.driverId, if p.status == Pendente then p.amount else 0.0)
  }

  predicate AllEven(s: Rows) {
    forall l :: l in s.links && l.deliveryId in s.deliveries && l.paymentId in s.payments ==>
      LeavesEvenly(s.deliveries[l.deliveryId], s.payments[l.paymentId])
  }

  /** Balanced in particular while every payment that is pending says what its finalised
      delivery says, and every other finalised delivery is paid. */
  lemma EvenMeansBalanced(s: Rows)
    requires Inv(s) && AllEven(s)
    ensures Balanced(s)
  {
    forall driver ensures Sum(Unpaid(s, driver)) == Sum(Pending(s, driver)) {
      forall d | d in s.deliveries ensures ExcessAt(s, driver, d) == 0.0 {
        if l :| l in s.links && l.deliveryId == d {
          LinkedExcess(s, l, driver);
          assert LeavesEvenly(s.deliveries[d], s.payments[l.paymentId]);
        } else {
          UnlinkedExcess(s, d, driver);
        }
      }
      SumOfZeros(Excesses(s, driver));
      ReceivableAndPending(s, driver);
    }
  }

  predicate UnbalancesByRemoval(s: Rows, d: nat) {
    exists l :: l in s.links && l.deliveryId == d && d in s.deliveries && l.paymentId in s.payments
                && !LeavesEvenly(s.deliveries[d], s.payments[l.paymentId])
  }

  /** The freight changes sides if the payment turns PAGO or stops being so, the amount if it
      turns PENDENTE or stops being so; is that the same for every driver? */
  predicate TurnsEvenly(d: Delivery, p: Payment, status: PaymentStatus) {
    SameGain(d.driverId, if d.status == Finalizado && (p.status == Pago) != (status == Pago) then d.valorFrete else 0.0,
             p.driverId, if (p.status == Pendente) != (status == Pendente) then p.amount else 0.0)
  }

  predicate UnbalancesByStatus(s: Rows, p: nat, status: PaymentStatus) {
    exists l :: l in s.links && l.paymentId == p && l.deliveryId in s.deliveries && p in s.payments
                && !TurnsEvenly(s.deliveries[l.deliveryId], s.payments[p], status)
  }

  /** What the payments named are pending with. */
  function PendingAmong(s: Rows, driver: nat, ids: set<nat>): map<nat, real> {
    map p | p in Pending(s, driver) && p in ids :: Pending(s, driver)[p]
  }

  /** The request, accepted on these rows, makes some driver's receivable differ from his
      pending payments. */
  ghost predicate Unbalances(s: Rows, r: Request) {
    && Answer(s, r).Ok?
    && match r
       case PayReq(d) => d in s.deliveries && s.deliveries[d].valorFrete != 0.0
       case DriverReq(_, id, to, _) => UnbalancesByFinish(s, id, to)
       case RemoveOrderReq(d, _, frete, _) =>
         d in s.deliveries && s.deliveries[d].status == Finalizado && !IsPaid(s, d)
           && frete != s.deliveries[d].valorFrete
       case RemoveReq(d) => UnbalancesByRemoval(s, d)
       case PaymentStatusReq(p, status) => UnbalancesByStatus(s, p, status)
       case RevertReq(p) => UnbalancesByStatus(s, p, Pendente)
       case MarkAsPaidReq(ids) =>
         exists driver :: Sum(PaidBy(s, driver, IdSet(ids))) != Sum(PendingAmong(s, driver, IdSet(ids)))
       case _ => false
  }

  lemma PayBalances(s: Rows, d: nat)
    requires Inv(s) && Balanced(s) && Pay(s, d).Ok?
    ensures Balanced(Pay(s, d).value) <==> s.deliveries[d].valorFrete == 0.0
  {
    var t, l := Pay(s, d).value, Link(s.nextPayment, d);
    PayKeeps(s, d);
    OthersSame(s, t, d);
    BalanceMoves(s, t, d);
    forall driver
      ensures ExcessAt(t, driver, d) - ExcessAt(s, driver, d)
           == if s.deliveries[d].driverId == driver then -s.deliveries[d].valorFrete else 0.0
    {
      UnlinkedExcess(s, d, driver);
      LinkedExcess(t, l, driver);
    }
    var driver := s.deliveries[d].driverId;
    assert ExcessAt(t, driver, d) - ExcessAt(s, driver, d) == -s.deliveries[d].valorFrete;
  }

  lemma FinalisedExcess(s: Rows, d: nat, l: Link, driver: nat)
    requires Inv(s) && d in s.deliveries && s.deliveries[d].status == Iniciado && Inv(Finalise(s, d))
    requires l in s.links && l.deliveryId == d
    ensures ExcessAt(Finalise(s, d), driver, d)
         == ExcessAt(s, driver, d)
            + if IsPaid(s, d) then 0.0 else Gain(s.deliveries[d].driverId, s.deliveries[d].valorFrete, driver)
  {
    var t := Finalise(s, d);
    assert t.payments == s.payments && l in t.links;
    LinkedExcess(s, l, driver);
    LinkedExcess(t, l, driver);
  }

  lemma FinaliseBalances(s: Rows, d: nat)
    requires Inv(s) && Balanced(s) && d in s.deliveries && s.deliveries[d].status == Iniciado
      && AllFinished(s.orders, d)
    ensures Balanced(Finalise(s, d)) <==> !(HasLink(s.links, d) && !IsPaid(s, d) && s.deliveries[d].valorFrete != 0.0)
  {
    var t, x := Finalise(s, d), s.deliveries[d].driverId;
    FinaliseKeeps(s, d);
    OthersSame(s, t, d);
    BalanceMoves(s, t, d);
    if l :| l in s.links && l.deliveryId == d {
      forall driver {
        FinalisedExcess(s, d, l, driver);
      }
      assert ExcessAt(t, x, d) == ExcessAt(s, x, d) + if IsPaid(s, d) then 0.0 else s.deliveries[d].valorFrete;
    } else {
      forall driver ensures ExcessAt(t, driver, d) == ExcessAt(s, driver, d) {
        UnlinkedExcess(s, d, driver);
        LinkedExcess(t, Link(s.nextPayment, d), driver);
      }
    }
  }

  lemma DriverBalances(s: Rows, driver: nat, id: nat, to: OrderStatus, hasReason: bool)
    requires Inv(s) && Balanced(s) && UpdateOrderStatus(s, driver, id, to, hasReason).Ok?
    ensures Balanced(UpdateOrderStatus(s, driver, id, to, hasReason).value) <==> !UnbalancesByFinish(s, id, to)
  {
    var d := s.orders[id].deliveryId.value;
    var moved := s.(orders := s.orders[id := s.orders[id].(status := to)]);
    assert Inv(moved);
    AllSame(s, moved);
    if AllFinished(moved.orders, d) {
      FinaliseBalances(moved, d);
      assert IsPaid(moved, d) == IsPaid(s, d);
    }
  }

  /** A delivery whose row changes, with its link and payment left alone. */
  lemma RowChanges(s: Rows, t: Rows, d: nat)
    requires Inv(s) && Inv(t) && Balanced(s) && d in s.deliveries && t.deliveries.Keys == s.deliveries.Keys
    requires t.links == s.links && t.payments == s.payments
    requires forall e :: e in s.deliveries && e != d ==> t.deliveries[e] == s.deliveries[e]
    requires (t.deliveries[d].status == Finalizado) == (s.deliveries[d].status == Finalizado)
    requires s.deliveries[d].status == Finalizado ==> t.deliveries[d].driverId == s.deliveries[d].driverId
    ensures Balanced(t) <==> !(s.deliveries[d].status == Finalizado && !IsPaid(s, d)
                               && t.deliveries[d].valorFrete != s.deliveries[d].valorFrete)
  {
    OthersSame(s, t, d);
    BalanceMoves(s, t, d);
    var x := s.deliveries[d].driverId;
    if l :| l in s.links && l.deliveryId == d {
      forall driver
        ensures ExcessAt(t, driver, d) - ExcessAt(s, driver, d)
             == if x == driver && s.deliveries[d].status == Finalizado && !IsPaid(s, d)
                then t.deliveries[d].valorFrete - s.deliveries[d].valorFrete else 0.0
      {
        LinkedExcess(s, l, driver);
        LinkedExcess(t, l, driver);
      }
      assert ExcessAt(t, x, d) - ExcessAt(s, x, d)
          == if s.deliveries[d].status == Finalizado && !IsPaid(s, d)
             then t.deliveries[d].valorFrete - s.deliveries[d].valorFrete else 0.0;
    } else {
      forall driver ensures ExcessAt(t, driver, d) == ExcessAt(s, driver, d) {
        UnlinkedExcess(s, d, driver);
        UnlinkedExcess(t, d, driver);
      }
    }
  }

  lemma RemovalMoves(s: Rows, t: Rows, l: Link)
    requires Inv(s) && Inv(t) && l in s.links && !HasLink(t.links, l.deliveryId)
    ensures (forall driver :: ExcessAt(t, driver, l.deliveryId) == ExcessAt(s, driver, l.deliveryId))
            <==> LeavesEvenly(s.deliveries[l.deliveryId], s.payments[l.paymentId])
  {
    var d, p := s.deliveries[l.deliveryId], s.payments[l.paymentId];
    var u := if d.status == Finalizado && p.status != Pago then d.valorFrete else 0.0;
    var v := if p.status == Pendente then p.amount else 0.0;
    forall driver
      ensures ExcessAt(t, driver, l.deliveryId) == ExcessAt(s, driver, l.deliveryId)
              <==> Gain(d.driverId, u, driver) == Gain(p.driverId, v, driver)
    {
      LinkedExcess(s, l, driver);
      UnlinkedExcess(t, l.deliveryId, driver);
    }
    SameGainIff(d.driverId, u, p.driverId, v);
    if forall driver :: ExcessAt(t, driver, l.deliveryId) == ExcessAt(s, driver, l.deliveryId) {
      forall driver ensures Gain(d.driverId, u, driver) == Gain(p.driverId, v, driver) {
        assert ExcessAt(t, driver, l.deliveryId) == ExcessAt(s, driver, l.deliveryId);
      }
    }
  }

  lemma RemovalBalances(s: Rows, d: nat)
    requires Inv(s) && Balanced(s) && Remove(s, d).Ok?
    ensures Balanced(Remove(s, d).value) <==> !UnbalancesByRemoval(s, d)
  {
    var t := Remove(s, d).value;
    RemoveKeeps(s, d);
    OthersSame(s, t, d);
    BalanceMoves(s, t, d);
    if l :| l in s.links && l.deliveryId == d {
      RemovalMoves(s, t, l);
    } else {
      forall driver ensures ExcessAt(t, driver, d) == ExcessAt(s, driver, d) {
        UnlinkedExcess(s, d, driver);
        UnlinkedExcess(t, d, driver);
      }
    }
  }

  lemma StatusMoves(s: Rows, t: Rows, l: Link, status: PaymentStatus)
    requires Inv(s) && Inv(t) && l in s.links && t == WithStatus(s, {l.paymentId}, status)
    ensures (forall driver :: ExcessAt(t, driver, l.deliveryId) == ExcessAt(s, driver, l.deliveryId))
            <==> TurnsEvenly(s.deliveries[l.deliveryId], s.payments[l.paymentId], status)
  {
    var d, p := s.deliveries[l.deliveryId], s.payments[l.paymentId];
    var u := if d.status == Finalizado && (p.status == Pago) != (status == Pago) then d.valorFrete else 0.0;
    var v := if (p.status == Pendente) != (status == Pendente) then p.amount else 0.0;
    forall driver
      ensures ExcessAt(t, driver, l.deliveryId) == ExcessAt(s, driver, l.deliveryId)
              <==> Gain(d.driverId, u, driver) == Gain(p.driverId, v, driver)
    {
      LinkedExcess(s, l, driver);
      LinkedExcess(t, l, driver);
      ExcessAfterStatus(d, p, status, driver);
    }
    SameGainIff(d.driverId, u, p.driverId, v);
    if forall driver :: ExcessAt(t, driver, l.deliveryId) == ExcessAt(s, driver, l.deliveryId) {
      forall driver ensures Gain(d.driverId, u, driver) == Gain(p.driverId, v, driver) {
        assert ExcessAt(t, driver, l.deliveryId) == ExcessAt(s, driver, l.deliveryId);
      }
    }
  }

  lemma StatusKeeps(s: Rows, p: nat, status: PaymentStatus)
    requires Inv(s)
    ensures Inv(WithStatus(s, {p}, status))
  {
  }

  lemma StatusBalances(s: Rows, p: nat, status: PaymentStatus)
    requires Inv(s) && Balanced(s) && p in s.payments
    ensures Balanced(WithStatus(s, {p}, status)) <==> !UnbalancesByStatus(s, p, status)
  {
    var t := WithStatus(s, {p}, status);
    StatusKeeps(s, p, status);
    if l :| l in s.links && l.paymentId == p {
      OthersSame(s, t, l.deliveryId);
      BalanceMoves(s, t, l.deliveryId);
      StatusMoves(s, t, l, status);
    } else {
      AllSame(s, t);
    }
  }

  lemma ExcessAfterStatus(d: Delivery, p: Payment, status: PaymentStatus, driver: nat)
    ensures var u := if d.status == Finalizado && (p.status == Pago) != (status == Pago) then d.valorFrete else 0.0;
      var v := if (p.status == Pendente) != (status == Pendente) then p.amount else 0.0;
      ExcessOf(d, p.(status := status), driver) == ExcessOf(d, p, driver)
      <==> Gain(d.driverId, u, driver) == Gain(p.driverId, v, driver)
  {
  }

  lemma MarkingLowersPending(s: Rows, ids: seq<nat>, driver: nat)
    requires MarkAsPaid(s, ids).Ok?
    ensures Sum(Pending(s, driver))
         == Sum(Pending(MarkAsPaid(s, ids).value, driver)) + Sum(PendingAmong(s, driver, IdSet(ids)))
  {
    var t, marked := MarkAsPaid(s, ids).value, IdSet(ids);
    var before, after, among := Pending(s, driver), Pending(t, driver), PendingAmong(s, driver, marked);
    forall p
      ensures p in before <==> p in after || p in among
      ensures p in after ==> p !in among && before[p] == after[p]
    {
    }
    SumParts(before, after, among);
  }

  lemma MarkingBalancesFor(s: Rows, ids: seq<nat>, driver: nat)
    requires Inv(s) && Sum(Unpaid(s, driver)) == Sum(Pending(s, driver)) && MarkAsPaid(s, ids).Ok?
    ensures var t, marked := MarkAsPaid(s, ids).value, IdSet(ids);
      Sum(Unpaid(t, driver)) == Sum(Pending(t, driver))
      <==> Sum(PaidBy(s, driver, marked)) == Sum(PendingAmong(s, driver, marked))
  {
    MarkingLowersReceivable(s, ids, driver);
    MarkingLowersPending(s, ids, driver);
  }

  lemma MarkingBalances(s: Rows, ids: seq<nat>)
    requires Inv(s) && Balanced(s) && MarkAsPaid(s, ids).Ok?
    ensures Balanced(MarkAsPaid(s, ids).value)
            <==> forall driver :: Sum(PaidBy(s, driver, IdSet(ids))) == Sum(PendingAmong(s, driver, IdSet(ids)))
  {
    var t, marked := MarkAsPaid(s, ids).value, IdSet(ids);
    forall driver
      ensures Sum(Unpaid(t, driver)) == Sum(Pending(t, driver))
              <==> Sum(PaidBy(s, driver, marked)) == Sum(PendingAmong(s, driver, marked))
    {
      assert Sum(Unpaid(s, driver)) == Sum(Pending(s, driver));
      MarkingBalancesFor(s, ids, driver);
    }
    if Balanced(t) {
      forall driver ensures Sum(PaidBy(s, driver, marked)) == Sum(PendingAmong(s, driver, marked)) {
        assert Sum(Unpaid(t, driver)) == Sum(Pending(t, driver));
      }
    }
  }

  lemma RemoveOrderBalances(s: Rows, d: nat, id: nat, frete: real, rules: ApprovalRules.TenantRules)
    requires Inv(s) && Balanced(s) && RemoveOrder(s, d, id, frete, rules).Ok?
    ensures Balanced(RemoveOrder(s, d, id, frete, rules).value)
            <==> !(s.deliveries[d].status == Finalizado && !IsPaid(s, d) && frete != s.deliveries[d].valorFrete)
  {
    RemoveOrderKeeps(s, d, id, frete, rules);
    RowChanges(s, RemoveOrder(s, d, id, frete, rules).value, d);
  }

  lemma EditBalances(s: Rows, d: nat, driver: Option<nat>, refs: Option<seq<OrderRef>>, frete: real,
                     rules: ApprovalRules.TenantRules)
    requires Inv(s) && Balanced(s) && Edit(s, d, driver, refs, frete, rules).Ok?
    ensures Balanced(Edit(s, d, driver, refs, frete, rules).value)
  {
    EditKeeps(s, d, driver, refs, frete, rules);
    RowChanges(s, Edit(s, d, driver, refs, frete, rules).value, d);
  }

  lemma OtherBalances(s: Rows, r: Request)
    requires Inv(s) && Balanced(s) && Answer(s, r).Ok?
    requires r.UploadReq? || r.CreateReq? || r.ApproveReq? || r.RejectReq?
    ensures Balanced(Step(s, r))
  {
    StepKeeps(s, r);
    AllSame(s, Step(s, r));
  }

  /** Exactly which requests unbalance receivables and pending payments: a payment by hand,
      the finalisation of a delivery paid by hand whose payment is not PAGO, a remove-order
      that changes the freight of an unpaid finalised delivery, and the removal of a delivery
      or a change of payment status when freight and amount are not the same for the same
      driver; each only if money is moved at all. */
  lemma UnbalancedIff(s: Rows, r: Request)
    requires Inv(s) && Balanced(s)
    ensures Balanced(Step(s, r)) <==> !Unbalances(s, r)
  {
    if Answer(s, r).Ok? {
      match r
      case PayReq(d) => PayBalances(s, d);
      case DriverReq(driver, id, to, hasReason) => DriverBalances(s, driver, id, to, hasReason);
      case RemoveOrderReq(d, id, frete, rules) => RemoveOrderBalances(s, d, id, frete, rules);
      case EditReq(d, driver, refs, frete, rules) => EditBalances(s, d, driver, refs, frete, rules);
      case RemoveReq(d) => RemovalBalances(s, d);
      case PaymentStatusReq(p, status) => StatusBalances(s, p, status);
      case RevertReq(p) => StatusBalances(s, p, Pendente);
      case MarkAsPaidReq(ids) => MarkingBalances(s, ids);
      case _ => OtherBalances(s, r);
    }
  }

  /** Balanced now and after every shorter part of the run. */
  ghost predicate BalancedThroughout(rs: seq<Request>) {
    Balanced(Run(rs)) && (rs != [] ==> BalancedThroughout(rs[..|rs| - 1]))
  }

  ghost predicate NothingUnbalances(rs: seq<Request>) {
    rs != [] ==> NothingUnbalances(rs[..|rs| - 1]) && !Unbalances(Run(rs[..|rs| - 1]), rs[|rs| - 1])
  }

  lemma NoRowsBalance()
    ensures Balanced(NO_ROWS)
  {
    forall driver ensures Sum(Unpaid(NO_ROWS, driver)) == Sum(Pending(NO_ROWS, driver)) {
      assert Unpaid(NO_ROWS, driver) == map[] && Pending(NO_ROWS, driver) == map[];
    }
  }

  /** Receivables and pending payments are the same after every request of a run, for every
      driver, if and only if no request of it unbalances them. */
  lemma {:induction false} RunBalancedIff(rs: seq<Request>)
    ensures BalancedThroughout(rs) <==> NothingUnbalances(rs)
  {
    if rs == [] {
      NoRowsBalance();
    } else {
      var front := rs[..|rs| - 1];
      RunBalancedIff(front);
      RunKeeps(front);
      assert BalancedThroughout(front) ==> Balanced(Run(front));
      if Balanced(Run(front)) {
        UnbalancedIff(Run(front), rs[|rs| - 1]);
      }
    }
  }

  // ---- A run that unbalances them ----

  /** A payment by hand for a started delivery with a freight of 5. */
  lemma PaidByHandEarly(rs: seq<Request>, create: Request, pay: Request)
    requires rs == [UPLOAD, UPLOAD] && create == OneOrder(0, 5.0, NO_RULES) && pay == PayReq(0)
    ensures Balanced(Run(rs + [create])) && Answer(Run(rs + [create]), pay).Ok?
    ensures !Balanced(Run(rs + [create] + [pay]))
  {
    var s := Run(rs + [create]);
    OneDeliveryRows(rs, create, 5.0, NO_RULES);
    RunOneMore(rs + [create], pay);
    RunKeeps(rs + [create]);
    forall driver ensures Sum(Unpaid(s, driver)) == Sum(Pending(s, driver)) {
      assert Unpaid(s, driver) == map[] && Pending(s, driver) == map[];
    }
    UnbalancedIff(s, pay);
  }
}
