/** What an order list means: an accepted creation routes exactly the listed orders, an accepted
    edit replaces the delivery's orders by them. */
module EditReplacement {
  import opened Wrappers
  import opened ApprovalRules
  import opened Lifecycle

  /** Entry i is the last one that gives its order a sort value. */
  predicate LastGiven(refs: seq<OrderRef>, i: nat)
    requires i < |refs|
  {
    refs[i].sorting.Some? && forall j :: i < j < |refs| && refs[j].sorting.Some? ==> refs[j].id != refs[i].id
  }

  lemma {:induction false} LastGivenWins(refs: seq<OrderRef>, i: nat, before: Option<int>)
    requires i < |refs| && LastGiven(refs, i)
    ensures LastSorting(refs, refs[i].id, before) == refs[i].sorting
  {
    var n := |refs| - 1;
    if i < n {
      assert LastGiven(refs[..n], i);
      LastGivenWins(refs[..n], i, before);
    }
  }

  lemma {:induction false} NoneGivenKeeps(refs: seq<OrderRef>, id: nat, before: Option<int>)
    requires forall r :: r in refs && r.id == id ==> r.sorting.None?
    ensures LastSorting(refs, id, before) == before
  {
    if refs != [] {
      var n := |refs| - 1;
      assert refs[n] in refs && forall r :: r in refs[..n] ==> r in refs;
      NoneGivenKeeps(refs[..n], id, before);
    }
  }

  lemma {:induction false} SortingTwice(refs: seq<OrderRef>, id: nat, before: Option<int>)
    ensures LastSorting(refs, id, LastSorting(refs, id, before)) == LastSorting(refs, id, before)
  {
    if forall r :: r in refs && r.id == id ==> r.sorting.None? {
      NoneGivenKeeps(refs, id, before);
    } else {
      var i := LastGivenExists(refs, id);
      LastGivenWins(refs, i, before);
      LastGivenWins(refs, i, LastSorting(refs, id, before));
    }
  }

  lemma {:induction false} LastGivenExists(refs: seq<OrderRef>, id: nat) returns (i: nat)
    requires exists r :: r in refs && r.id == id && r.sorting.Some?
    ensures i < |refs| && refs[i].id == id && LastGiven(refs, i)
  {
    var n := |refs| - 1;
    if refs[n].id == id && refs[n].sorting.Some? {
      i := n;
    } else {
      var r :| r in refs && r.id == id && r.sorting.Some?;
      assert r in refs[..n];
      i := LastGivenExists(refs[..n], id);
      assert LastGiven(refs, i);
    }
  }

  /** The edit sends the delivery back for approval. */
  predicate SentBack(s: Rows, t: Rows, d: nat) {
    d in s.deliveries && d in t.deliveries && s.deliveries[d].status == Iniciado && t.deliveries[d].status == ALiberar
  }

  /** The delivery's orders are exactly the listed ones; dropped orders are free; kept orders
      keep their status unless the delivery is sent back; all others are untouched. */
  lemma EditReplaces(s: Rows, d: nat, driver: Option<nat>, refs: seq<OrderRef>, frete: real, rules: TenantRules,
                     id: nat)
    requires Edit(s, d, driver, Some(refs), frete, rules).Ok? && id in s.orders
    ensures var t := Edit(s, d, driver, Some(refs), frete, rules).value;
      var before, after := s.orders[id], t.orders[id];
      && (after.deliveryId == Some(d) <==> id in Listed(refs))
      && (id !in Listed(refs) ==>
           after == if before.deliveryId == Some(d)
                    then before.(status := SemRota, deliveryId := None, sorting := None) else before)
      && (id in Listed(refs) ==>
           (after.status == if SentBack(s, t, d) then EmRotaAguardandoLiberacao
                            else if before.deliveryId == Some(d) then before.status
                            else if s.deliveries[d].status == ALiberar then EmRotaAguardandoLiberacao
                            else EmRota))
  {
  }

  /** A listed order ends with the last sort value given for it, or with the one it had. */
  lemma EditSorts(s: Rows, d: nat, driver: Option<nat>, refs: seq<OrderRef>, frete: real, rules: TenantRules, i: nat)
    requires Edit(s, d, driver, Some(refs), frete, rules).Ok? && i < |refs| && refs[i].id in s.orders
    ensures var t := Edit(s, d, driver, Some(refs), frete, rules).value;
      && (LastGiven(refs, i) ==> t.orders[refs[i].id].sorting == refs[i].sorting)
      && ((forall r :: r in refs && r.id == refs[i].id ==> r.sorting.None?) ==>
           t.orders[refs[i].id].sorting == s.orders[refs[i].id].sorting)
  {
    assert refs[i] in refs;
    if LastGiven(refs, i) {
      LastGivenWins(refs, i, s.orders[refs[i].id].sorting);
    }
    if forall r :: r in refs && r.id == refs[i].id ==> r.sorting.None? {
      NoneGivenKeeps(refs, refs[i].id, s.orders[refs[i].id].sorting);
    }
  }

  /** Sending the same edit again changes nothing more. */
  lemma EditTwice(s: Rows, d: nat, driver: Option<nat>, refs: seq<OrderRef>, frete: real, rules: TenantRules)
    requires Edit(s, d, driver, Some(refs), frete, rules).Ok?
    ensures var t := Edit(s, d, driver, Some(refs), frete, rules).value;
      Edit(t, d, driver, Some(refs), frete, rules) == Ok(t)
  {
    var t := Edit(s, d, driver, Some(refs), frete, rules).value;
    forall id | id in t.orders
      ensures Placed(t.orders[id], id, d, refs, EntryStatus(t.deliveries[d].status)) == t.orders[id]
    {
      SortingTwice(refs, id, s.orders[id].sorting);
    }
    assert EditedOrders(t, d, Some(refs)) == t.orders;
    ReassessTwice(s, d, EditedOrders(s, d, Some(refs)), t.deliveries[d].driverId, frete, rules);
  }

  lemma ReassessTwice(s: Rows, d: nat, orders: map<nat, Order>, driver: nat, frete: real, rules: TenantRules)
    requires d in s.deliveries
    ensures var t := Reassess(s, d, orders, driver, frete, rules);
      Reassess(t, d, t.orders, driver, frete, rules) == t
  {
    var t := Reassess(s, d, orders, driver, frete, rules);
    RecallKeepsLoad(orders, d);
    assert CheckupOf(t.orders, d, frete, rules) == CheckupOf(orders, d, frete, rules);
    var u := Reassess(t, d, t.orders, driver, frete, rules);
    assert u.deliveries[d] == t.deliveries[d];
    assert u.deliveries == t.deliveries;
  }

  lemma RecallKeepsLoad(orders: map<nat, Order>, d: nat)
    ensures var recalled := map id | id in orders :: Recalled(orders[id], d);
      PesosOf(recalled, d) == PesosOf(orders, d) && ValoresOf(recalled, d) == ValoresOf(orders, d)
      && Attached(recalled, d) == Attached(orders, d)
  {
  }

  // ---- The list of a creation ----

  /** A listed order ends on the new delivery with its weight and value, any other order is untouched. */
  lemma CreatePlaces(s: Rows, driver: nat, refs: seq<OrderRef>, frete: real, rules: TenantRules, id: nat)
    requires Create(s, driver, refs, frete, rules).Ok? && id in s.orders
    ensures var t := Create(s, driver, refs, frete, rules).value;
      var before, after := s.orders[id], t.orders[id];
      && t.orders.Keys == s.orders.Keys
      && (id !in Listed(refs) ==> after == before)
      && (id in Listed(refs) ==>
           after.deliveryId == Some(s.nextDelivery) && after.peso == before.peso && after.valor == before.valor)
  {
  }

  /** It ends with the sort value given for it, or with the one it had. */
  lemma CreateSorts(s: Rows, driver: nat, refs: seq<OrderRef>, frete: real, rules: TenantRules, i: nat)
    requires Create(s, driver, refs, frete, rules).Ok? && i < |refs|
    ensures var t := Create(s, driver, refs, frete, rules).value;
      && refs[i].id in s.orders && refs[i].id in t.orders
      && t.orders[refs[i].id].sorting
         == if refs[i].sorting.Some? then refs[i].sorting else s.orders[refs[i].id].sorting
  {
    var id := refs[i].id;
    assert id in Listed(refs);
    forall j | 0 <= j < |refs| && refs[j].id == id ensures j == i {
      assert RefIds(refs)[j] == id && RefIds(refs)[i] == id;
    }
    if refs[i].sorting.Some? {
      LastGivenWins(refs, i, s.orders[id].sorting);
    } else {
      NoneGivenKeeps(refs, id, s.orders[id].sorting);
    }
  }
}
