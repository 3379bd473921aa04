/** Whose delivery it is: the driver an edit sends takes over the work and the money. */
module DriverChange {
  import opened Wrappers
  import opened ApprovalRules
  import opened Lifecycle
  import opened LifecycleInvariant
  import opened DriverProgress

  /** Afterwards the driver is the one sent, or the old one, and the freight the one worked out;
      no other delivery changes hands. */
  lemma EditChangesDriver(s: Rows, d: nat, driver: Option<nat>, refs: Option<seq<OrderRef>>, frete: real,
                          rules: TenantRules)
    requires Edit(s, d, driver, refs, frete, rules).Ok?
    ensures var t := Edit(s, d, driver, refs, frete, rules).value;
      && t.deliveries.Keys == s.deliveries.Keys
      && (driver.Some? ==> t.deliveries[d].driverId == driver.value)
      && (driver.None? ==> t.deliveries[d].driverId == s.deliveries[d].driverId)
      && t.deliveries[d].valorFrete == frete
      && forall e :: e in s.deliveries && e != d ==> t.deliveries[e] == s.deliveries[e]
  {
  }

  /** Only the delivery's own driver has steps on its orders, and while work is left he has one. */
  lemma OnlyTheDriver(s: Rows, d: nat, x: nat)
    requires Inv(s) && d in s.deliveries && s.deliveries[d].status == Iniciado && RankSum(s.orders, d) > 0
    ensures (exists r :: AcceptedOn(s, r, d) && r.driver == x) <==> x == s.deliveries[d].driverId
  {
    if x == s.deliveries[d].driverId {
      var id, to := SomeStepAccepted(s, d);
      var r := DriverReq(x, id, to, false);
      assert AcceptedOn(s, r, d) && r.driver == x;
    }
  }

  /** So after an edit that leaves a started delivery started, with work left, the steps are
      those of the driver sent. */
  lemma EditHandsOver(s: Rows, d: nat, y: nat, refs: Option<seq<OrderRef>>, frete: real, rules: TenantRules, x: nat)
    requires Inv(s) && Edit(s, d, Some(y), refs, frete, rules).Ok?
    ensures var t := Edit(s, d, Some(y), refs, frete, rules).value;
      t.deliveries[d].status == Iniciado && RankSum(t.orders, d) > 0 ==>
        ((exists r :: AcceptedOn(t, r, d) && r.driver == x) <==> x == y)
  {
    var t := Edit(s, d, Some(y), refs, frete, rules).value;
    EditKeeps(s, d, Some(y), refs, frete, rules);
    EditChangesDriver(s, d, Some(y), refs, frete, rules);
    if t.deliveries[d].status == Iniciado && RankSum(t.orders, d) > 0 {
      OnlyTheDriver(t, d, x);
    }
  }

  /** The delivery has a pending payment of this amount for this driver. */
  predicate PaysTo(s: Rows, d: nat, amount: real, driver: nat) {
    exists l :: l in s.links && l.deliveryId == d && l.paymentId in s.payments
                && s.payments[l.paymentId] == Payment(amount, driver, Pendente)
  }

  /** A driver step leaves driver and freight of its delivery alone; the one that finalises a
      delivery without a payment pays the freight to the driver who makes it. */
  lemma StepPays(s: Rows, driver: nat, id: nat, to: OrderStatus, hasReason: bool)
    requires Inv(s) && UpdateOrderStatus(s, driver, id, to, hasReason).Ok?
    ensures var t, d := UpdateOrderStatus(s, driver, id, to, hasReason).value, s.orders[id].deliveryId.value;
      && d in s.deliveries && d in t.deliveries && s.deliveries[d].driverId == driver
      && t.deliveries[d].driverId == driver && t.deliveries[d].valorFrete == s.deliveries[d].valorFrete
      && if t.deliveries[d].status == Finalizado && !HasLink(s.links, d)
         then PaysTo(t, d, s.deliveries[d].valorFrete, driver)
         else t.links == s.links && t.payments == s.payments
  {
    var t, d := UpdateOrderStatus(s, driver, id, to, hasReason).value, s.orders[id].deliveryId.value;
    if t.deliveries[d].status == Finalizado && !HasLink(s.links, d) {
      assert Link(s.nextPayment, d) in t.links;
    }
  }

  /** One accepted step on d, as seen by the payment. */
  lemma WorkStep(s: Rows, r: Request, d: nat)
    requires Inv(s) && !HasLink(s.links, d) && AcceptedOn(s, r, d)
    ensures var t := Step(s, r);
      && d in s.deliveries && d in t.deliveries && r.driver == s.deliveries[d].driverId
      && t.deliveries[d].driverId == s.deliveries[d].driverId
      && t.deliveries[d].valorFrete == s.deliveries[d].valorFrete
      && RankSum(t.orders, d) == RankSum(s.orders, d) - 1
      && if RankSum(t.orders, d) == 0
         then t.deliveries[d].status == Finalizado && PaysTo(t, d, s.deliveries[d].valorFrete, s.deliveries[d].driverId)
         else t.deliveries[d].status == Iniciado && !HasLink(t.links, d)
  {
    DriverStep(s, r.driver, r.id, r.to, r.hasReason);
    StepPays(s, r.driver, r.id, r.to, r.hasReason);
    assert Step(s, r) == UpdateOrderStatus(s, r.driver, r.id, r.to, r.hasReason).value;
  }

  lemma FirstAccepted(s: Rows, rs: seq<Request>, d: nat)
    requires rs != [] && AllAcceptedOn(s, rs, d)
    ensures AcceptedOn(s, rs[0], d) && AllAcceptedOn(Step(s, rs[0]), rs[1..], d)
    ensures After(s, rs) == After(Step(s, rs[0]), rs[1..])
  {
  }

  /** However he works, all accepted steps are the driver's, and when they have finished an
      unpaid delivery its freight is payable to him. */
  lemma {:induction false} WorkEndsInPayment(s: Rows, rs: seq<Request>, d: nat)
    requires Inv(s) && d in s.deliveries && s.deliveries[d].status == Iniciado && RankSum(s.orders, d) > 0
    requires !HasLink(s.links, d) && AllAcceptedOn(s, rs, d)
    ensures forall i :: 0 <= i < |rs| ==> rs[i].DriverReq? && rs[i].driver == s.deliveries[d].driverId
    ensures |rs| == RankSum(s.orders, d) ==>
      PaysTo(After(s, rs), d, s.deliveries[d].valorFrete, s.deliveries[d].driverId)
    decreases |rs|
  {
    if rs != [] {
      var t, rest := Step(s, rs[0]), rs[1..];
      FirstAccepted(s, rs, d);
      WorkStep(s, rs[0], d);
      StepKeeps(s, rs[0]);
      assert forall i :: 1 <= i < |rs| ==> rs[i] == rest[i - 1];
      if RankSum(t.orders, d) > 0 {
        WorkEndsInPayment(t, rest, d);
      } else {
        NothingFollows(t, rest, d);
      }
    }
  }

  lemma NothingFollows(s: Rows, rs: seq<Request>, d: nat)
    requires d in s.deliveries && s.deliveries[d].status != Iniciado && AllAcceptedOn(s, rs, d)
    ensures rs == []
  {
    NoStepAfterTheEnd(s, d);
  }
}
