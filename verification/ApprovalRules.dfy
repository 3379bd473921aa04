/** The tenant's rules that decide whether a delivery must wait for approval. */
module ApprovalRules {
  import opened Wrappers

  /** A rule that is None is switched off for the tenant. */
  datatype TenantRules = TenantRules(
    minDeliveryPercentage: Option<real>,
    minValue: Option<real>,
    minPeso: Option<real>,
    minOrders: Option<int>)

  /** What the rules look at. */
  datatype Checkup = Checkup(
    rules: TenantRules,
    totalValor: real,
    totalPeso: real,
    ordersCount: int,
    valorFrete: real)

  datatype Reason = FreightShare | LowValue | LowWeight | FewOrders

  /** The freight share is only looked at for a positive total; despite the field's
      name, minDeliveryPercentage is an upper limit. */
  predicate Violated(c: Checkup, r: Reason) {
    match r
    case FreightShare =>
      && c.rules.minDeliveryPercentage.Some?
      && c.totalValor > 0.0
      && c.valorFrete / c.totalValor * 100.0 > c.rules.minDeliveryPercentage.value
    case LowValue => c.rules.minValue.Some? && c.totalValor < c.rules.minValue.value
    case LowWeight => c.rules.minPeso.Some? && c.totalPeso < c.rules.minPeso.value
    case FewOrders => c.rules.minOrders.Some? && c.ordersCount < c.rules.minOrders.value
  }

  predicate NeedsApproval(c: Checkup) {
    exists r: Reason :: Violated(c, r)
  }

  method Validate(c: Checkup) returns (needsApproval: bool, reasons: seq<Reason>)
    ensures needsApproval == NeedsApproval(c)
    ensures forall r: Reason :: r in reasons <==> Violated(c, r)
    ensures forall i, j :: 0 <= i < j < |reasons| ==>
      && reasons[i] != reasons[j] && reasons[i] != FewOrders && reasons[j] != FreightShare
      && !(reasons[i] == LowWeight && reasons[j] == LowValue)
  {
    reasons := [];
    if c.rules.minDeliveryPercentage.Some? && c.totalValor > 0.0 {
      var freightPercentage := c.valorFrete / c.totalValor * 100.0;
      if freightPercentage > c.rules.minDeliveryPercentage.value {
        reasons := reasons + [FreightShare];
      }
    }
    if c.rules.minValue.Some? && c.totalValor < c.rules.minValue.value {
      reasons := reasons + [LowValue];
    }
    if c.rules.minPeso.Some? && c.totalPeso < c.rules.minPeso.value {
      reasons := reasons + [LowWeight];
    }
    if c.rules.minOrders.Some? && c.ordersCount < c.rules.minOrders.value {
      reasons := reasons + [FewOrders];
    }
    needsApproval := |reasons| > 0;
    assert needsApproval ==> Violated(c, reasons[0]);
  }

  // ---- What each rule looks at ----

  /** A rule alone, the three others switched off. */
  function Alone(rules: TenantRules, r: Reason): TenantRules {
    match r
    case FreightShare => TenantRules(rules.minDeliveryPercentage, None, None, None)
    case LowValue => TenantRules(None, rules.minValue, None, None)
    case LowWeight => TenantRules(None, None, rules.minPeso, None)
    case FewOrders => TenantRules(None, None, None, rules.minOrders)
  }

  lemma ShareAsProduct(frete: real, valor: real, most: real)
    requires valor > 0.0
    ensures frete / valor * 100.0 > most <==> 100.0 * frete > most * valor
  {
    var share := frete / valor;
    assert share * valor == frete;
    if share * 100.0 > most {
      assert (share * 100.0 - most) * valor > 0.0;
    } else {
      assert (most - share * 100.0) * valor >= 0.0;
    }
    assert (share * 100.0 - most) * valor == 100.0 * frete - most * valor;
  }

  /** On its own each rule compares its own column with its own bound, and the bound itself
      passes: the value, the weight and the number of orders must not be below theirs, the
      freight must not be above its share of the value. A rule that is off passes everything. */
  lemma EachRuleAlone(c: Checkup)
    ensures c.rules == Alone(c.rules, LowValue) ==>
      (NeedsApproval(c) <==> c.rules.minValue.Some? && c.totalValor < c.rules.minValue.value)
    ensures c.rules == Alone(c.rules, LowWeight) ==>
      (NeedsApproval(c) <==> c.rules.minPeso.Some? && c.totalPeso < c.rules.minPeso.value)
    ensures c.rules == Alone(c.rules, FewOrders) ==>
      (NeedsApproval(c) <==> c.rules.minOrders.Some? && c.ordersCount < c.rules.minOrders.value)
    ensures c.rules == Alone(c.rules, FreightShare) ==>
      (NeedsApproval(c) <==> c.rules.minDeliveryPercentage.Some? && c.totalValor > 0.0
                             && 100.0 * c.valorFrete > c.rules.minDeliveryPercentage.value * c.totalValor)
  {
    if c.totalValor > 0.0 && c.rules.minDeliveryPercentage.Some? {
      ShareAsProduct(c.valorFrete, c.totalValor, c.rules.minDeliveryPercentage.value);
    }
    assert NeedsApproval(c) <==>
      Violated(c, FreightShare) || Violated(c, LowValue) || Violated(c, LowWeight) || Violated(c, FewOrders);
  }

  /** Together the rules need approval exactly when one of them alone does. */
  lemma RulesAddUp(c: Checkup)
    ensures NeedsApproval(c) <==> exists r: Reason :: NeedsApproval(c.(rules := Alone(c.rules, r)))
  {
    forall r: Reason ensures NeedsApproval(c.(rules := Alone(c.rules, r))) <==> Violated(c, r) {
      var d := c.(rules := Alone(c.rules, r));
      assert Violated(d, r) <==> Violated(c, r);
      assert forall q: Reason :: q != r ==> !Violated(d, q);
    }
  }

  /** More value, weight or orders and less freight never make an approval needed, except that
      the first value above zero brings the freight share in. */
  lemma BetterNeverNeedsApproval(c: Checkup, d: Checkup)
    requires c.rules == d.rules && !NeedsApproval(c)
    requires c.totalValor <= d.totalValor && c.totalPeso <= d.totalPeso && c.ordersCount <= d.ordersCount
    requires 0.0 <= d.valorFrete <= c.valorFrete
    requires c.totalValor > 0.0 || c.rules.minDeliveryPercentage.None?
    ensures !NeedsApproval(d)
  {
    assert !Violated(c, FreightShare) && !Violated(c, LowValue) && !Violated(c, LowWeight) && !Violated(c, FewOrders);
    if c.rules.minDeliveryPercentage.Some? {
      var most := c.rules.minDeliveryPercentage.value;
      ShareAsProduct(c.valorFrete, c.totalValor, most);
      ShareAsProduct(d.valorFrete, d.totalValor, most);
      ShareGrows(c.valorFrete, c.totalValor, d.totalValor, most);
    }
  }

  lemma ShareGrows(frete: real, valor: real, more: real, most: real)
    requires frete >= 0.0 && 0.0 < valor <= more && 100.0 * frete <= most * valor
    ensures 100.0 * frete <= most * more
  {
    assert most >= 0.0;
    assert most * (more - valor) >= 0.0;
    assert most * more == most * valor + most * (more - valor);
  }
}
