/** What a driver still has to be paid for finalised deliveries. */
module Receivables {
  import opened Sums
  import opened Lifecycle
  import opened LifecycleInvariant
  import TenantStore

  /** Some payment linked to the delivery has the status PAGO. */
  predicate IsPaid(s: Rows, d: nat) {
    exists l :: l in s.links && l.deliveryId == d && l.paymentId in s.payments && s.payments[l.paymentId].status == Pago
  }

  predicate Earns(s: Rows, driver: nat, d: nat) {
    d in s.deliveries && s.deliveries[d].driverId == driver && s.deliveries[d].status == Finalizado
  }

  function Earned(s: Rows, driver: nat): map<nat, real> {
    map d | d in s.deliveries && Earns(s, driver, d) :: s.deliveries[d].valorFrete
  }

  function Unpaid(s: Rows, driver: nat): map<nat, real> {
    map d | d in s.deliveries && Earns(s, driver, d) && !IsPaid(s, d) :: s.deliveries[d].valorFrete
  }

  function Paid(s: Rows, driver: nat): map<nat, real> {
    map d | d in s.deliveries && Earns(s, driver, d) && IsPaid(s, d) :: s.deliveries[d].valorFrete
  }

  /** The driver's finalised deliveries that one of the payments is for. */
  function PaidBy(s: Rows, driver: nat, ids: set<nat>): map<nat, real> {
    map d | d in s.deliveries && Earns(s, driver, d) && LinkedTo(s, d, ids) :: s.deliveries[d].valorFrete
  }

  predicate LinkedTo(s: Rows, d: nat, ids: set<nat>) {
    exists l :: l in s.links && l.deliveryId == d && l.paymentId in ids
  }

  /** The unpaid freight among some of the deliveries. */
  function UnpaidAmong(s: Rows, driver: nat, ids: set<nat>): map<nat, real> {
    map d | d in ids && Earns(s, driver, d) && !IsPaid(s, d) :: s.deliveries[d].valorFrete
  }

  lemma OneLess(s: Rows, driver: nat, ids: set<nat>, d: nat)
    requires d in ids
    ensures Sum(UnpaidAmong(s, driver, ids)) == Sum(UnpaidAmong(s, driver, ids - {d}))
      + (if Earns(s, driver, d) && !IsPaid(s, d) then s.deliveries[d].valorFrete else 0.0)
  {
    var all := UnpaidAmong(s, driver, ids);
    if d in all {
      SumTake(all, d);
    }
    assert all - {d} == UnpaidAmong(s, driver, ids - {d});
    assert d !in all ==> all - {d} == all;
  }

  method GetDriverReceivables(store: TenantStore.Store, driver: nat) returns (total: real)
    ensures total == Sum(Unpaid(store.View(), driver))
  {
    ghost var s := store.View();
    assert Unpaid(s, driver) == UnpaidAmong(s, driver, s.deliveries.Keys);
    total := 0.0;
    var rest := store.deliveries.Keys;
    while rest != {}
      invariant rest <= s.deliveries.Keys
      invariant Sum(Unpaid(s, driver)) == total + Sum(UnpaidAmong(s, driver, rest))
      decreases rest
    {
      var d :| d in rest;
      OneLess(s, driver, rest, d);
      var isDeliveryPaid := CheckPaid(store, d);
      if store.deliveries[d].driverId == driver && store.deliveries[d].status == Finalizado && !isDeliveryPaid {
        total := total + store.deliveries[d].valorFrete;
      }
      rest := rest - {d};
    }
    assert UnpaidAmong(s, driver, {}) == map[];
  }

  method CheckPaid(store: TenantStore.Store, d: nat) returns (paid: bool)
    ensures paid == IsPaid(store.View(), d)
  {
    paid := exists l :: l in store.links && l.deliveryId == d
                        && l.paymentId in store.payments && store.payments[l.paymentId].status == Pago;
  }

  /** Unpaid and paid freight always add up to all freight earned. */
  lemma UnpaidPlusPaid(s: Rows, driver: nat)
    ensures Sum(Unpaid(s, driver)) + Sum(Paid(s, driver)) == Sum(Earned(s, driver))
  {
    SumParts(Earned(s, driver), Unpaid(s, driver), Paid(s, driver));
  }

  /** With one link per delivery, paying pending payments turns exactly their deliveries
      from unpaid to paid. */
  lemma PaidAfter(s: Rows, ids: seq<nat>, d: nat)
    requires Inv(s) && MarkAsPaid(s, ids).Ok?
    ensures var marked := IdSet(ids);
      && IsPaid(MarkAsPaid(s, ids).value, d) == (IsPaid(s, d) || LinkedTo(s, d, marked))
      && !(IsPaid(s, d) && LinkedTo(s, d, marked))
  {
  }

  /** The receivable falls by exactly the freight of the deliveries paid for. */
  lemma MarkingLowersReceivable(s: Rows, ids: seq<nat>, driver: nat)
    requires Inv(s) && MarkAsPaid(s, ids).Ok?
    ensures Sum(Unpaid(s, driver))
         == Sum(Unpaid(MarkAsPaid(s, ids).value, driver)) + Sum(PaidBy(s, driver, IdSet(ids)))
  {
    var t, marked := MarkAsPaid(s, ids).value, IdSet(ids);
    forall d | d in s.deliveries
      ensures IsPaid(t, d) == (IsPaid(s, d) || LinkedTo(s, d, marked))
      ensures !(IsPaid(s, d) && LinkedTo(s, d, marked))
    {
      PaidAfter(s, ids, d);
    }
    SumParts(Unpaid(s, driver), Unpaid(t, driver), PaidBy(s, driver, marked));
  }

  ghost function RevertAll(s: Rows, ids: seq<nat>): Rows
    decreases |ids|
  {
    if ids == [] then s else RevertAll(Step(s, RevertReq(ids[0])), ids[1..])
  }

  lemma {:induction false} RevertingMarked(s: Rows, ids: seq<nat>)
    requires DistinctIds(ids)
    requires forall p :: p in ids ==> p in s.payments && s.payments[p].status == Pendente
    ensures RevertAll(WithStatus(s, IdSet(ids), Pago), ids) == s
    decreases |ids|
  {
    var marked := WithStatus(s, IdSet(ids), Pago);
    if ids == [] {
      assert marked.payments == s.payments;
    } else {
      var rest := ids[1..];
      assert ids[0] in ids && ids[0] !in rest;
      assert Step(marked, RevertReq(ids[0])).payments == WithStatus(s, IdSet(rest), Pago).payments;
      RevertingMarked(s, rest);
    }
  }

  /** Reverting each of the payments, in any order, restores every row. */
  lemma MarkThenRevert(s: Rows, ids: seq<nat>, back: seq<nat>)
    requires MarkAsPaid(s, ids).Ok?
    requires DistinctIds(back) && forall p :: p in back <==> p in ids
    ensures RevertAll(MarkAsPaid(s, ids).value, back) == s
  {
    assert IdSet(ids) == IdSet(back);
    forall p | p in back ensures p in s.payments && s.payments[p].status == Pendente {
      assert p in ids;
    }
    RevertingMarked(s, back);
  }
}
