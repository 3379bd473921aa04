/** What the rules decide, in terms of the rows a request leaves behind: a delivery is started,
    or stays so, only if its own totals, freight and number of orders keep every rule. */
module RuleGate {
  import opened Wrappers
  import opened ApprovalRules
  import opened Lifecycle
  import opened LifecycleInvariant
  import opened DriverProgress

  /** The delivery, with this many orders, breaks a rule that is on. */
  predicate BreaksARule(rules: TenantRules, d: Delivery, orders: int) {
    || (rules.minDeliveryPercentage.Some? && d.totalValor > 0.0
        && 100.0 * d.valorFrete > rules.minDeliveryPercentage.value * d.totalValor)
    || (rules.minValue.Some? && d.totalValor < rules.minValue.value)
    || (rules.minPeso.Some? && d.totalPeso < rules.minPeso.value)
    || (rules.minOrders.Some? && orders < rules.minOrders.value)
  }

  lemma NeedsIff(c: Checkup, d: Delivery)
    requires c.totalValor == d.totalValor && c.totalPeso == d.totalPeso && c.valorFrete == d.valorFrete
    ensures NeedsApproval(c) <==> BreaksARule(c.rules, d, c.ordersCount)
  {
    RulesAddUp(c);
    EachRuleAlone(c.(rules := Alone(c.rules, FreightShare)));
    EachRuleAlone(c.(rules := Alone(c.rules, LowValue)));
    EachRuleAlone(c.(rules := Alone(c.rules, LowWeight)));
    EachRuleAlone(c.(rules := Alone(c.rules, FewOrders)));
  }

  lemma {:induction false} AsManyAsListed(refs: seq<OrderRef>)
    requires DistinctIds(RefIds(refs))
    ensures |Listed(refs)| == |refs|
  {
    if refs != [] {
      var n := |refs| - 1;
      assert forall i :: 0 <= i < n ==> RefIds(refs[..n])[i] == RefIds(refs)[i];
      AsManyAsListed(refs[..n]);
      assert Listed(refs) == Listed(refs[..n]) + {refs[n].id};
      forall i | 0 <= i < n ensures refs[i].id != refs[n].id {
        assert RefIds(refs)[i] != RefIds(refs)[n];
      }
    }
  }

  /** A new delivery has as many orders as were listed; it waits for approval exactly when it
      breaks a rule and is started otherwise. */
  lemma CreationGate(s: Rows, driver: nat, refs: seq<OrderRef>, frete: real, rules: TenantRules)
    requires Inv(s) && Create(s, driver, refs, frete, rules).Ok?
    ensures var t, d := Create(s, driver, refs, frete, rules).value, s.nextDelivery;
      && d in t.deliveries && |Attached(t.orders, d)| == |refs| && t.deliveries[d].valorFrete == frete
      && t.deliveries[d].status == if BreaksARule(rules, t.deliveries[d], |refs|) then ALiberar else Iniciado
  {
    var t, d := Create(s, driver, refs, frete, rules).value, s.nextDelivery;
    CreationStarts(s, driver, refs, frete, rules);
    AsManyAsListed(refs);
    NeedsIff(CreationCheckup(s, refs, frete, rules), t.deliveries[d]);
  }

  lemma ReassessGate(s: Rows, d: nat, orders: map<nat, Order>, driver: nat, frete: real, rules: TenantRules)
    requires d in s.deliveries
    ensures var t := Reassess(s, d, orders, driver, frete, rules);
      && t.deliveries[d].valorFrete == frete
      && t.deliveries[d].status
         == if s.deliveries[d].status == Iniciado && BreaksARule(rules, t.deliveries[d], |Attached(t.orders, d)|)
            then ALiberar else s.deliveries[d].status
  {
    var t := Reassess(s, d, orders, driver, frete, rules);
    assert Attached(t.orders, d) == Attached(orders, d);
    NeedsIff(CheckupOf(orders, d, frete, rules), t.deliveries[d]);
  }

  /** After an edit or a remove-order a started delivery is sent back exactly when it now breaks
      a rule; one that waits keeps waiting. */
  lemma EditGate(s: Rows, d: nat, driver: Option<nat>, refs: Option<seq<OrderRef>>, frete: real, rules: TenantRules)
    requires Edit(s, d, driver, refs, frete, rules).Ok?
    ensures var t := Edit(s, d, driver, refs, frete, rules).value;
      && t.deliveries[d].valorFrete == frete
      && t.deliveries[d].status
         == if s.deliveries[d].status == Iniciado && BreaksARule(rules, t.deliveries[d], |Attached(t.orders, d)|)
            then ALiberar else s.deliveries[d].status
  {
    ReassessGate(s, d, EditedOrders(s, d, refs), NewDriver(s, d, driver), frete, rules);
  }

  lemma RemoveOrderGate(s: Rows, d: nat, id: nat, frete: real, rules: TenantRules)
    requires RemoveOrder(s, d, id, frete, rules).Ok?
    ensures var t := RemoveOrder(s, d, id, frete, rules).value;
      && t.deliveries[d].valorFrete == frete && t.deliveries[d].driverId == s.deliveries[d].driverId
      && t.deliveries[d].status
         == if s.deliveries[d].status == Iniciado && BreaksARule(rules, t.deliveries[d], |Attached(t.orders, d)|)
            then ALiberar else s.deliveries[d].status
  {
    ReassessGate(s, d, s.orders[id := Freed(s.orders[id], d)], s.deliveries[d].driverId, frete, rules);
  }
}
