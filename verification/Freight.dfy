/** The two freight calculators that look CEPs up in the table of ranges. */
module Freight {
  import opened Wrappers
  import opened Directions

  /** The region a lookup may return: it covers the CEP and none that does is worth more. */
  predicate IsLookup(rows: map<nat, Direction>, cep: string, r: Option<nat>) {
    match r
    case None => forall id :: id in rows ==> !Covers(rows[id], cep)
    case Some(id) =>
      && id in rows && Covers(rows[id], cep)
      && forall j :: j in rows && Covers(rows[j], cep) ==> rows[j].valorDirecao <= rows[id].valorDirecao
  }

  /** The largest value of a region that covers one of the CEPs, or 0 if that is more. */
  predicate IsMaximum(rows: map<nat, Direction>, ceps: seq<string>, m: int) {
    && m >= 0
    && (forall i, id :: 0 <= i < |ceps| && id in rows && Covers(rows[id], ceps[i]) ==> rows[id].valorDirecao <= m)
    && (m == 0 || exists i, id ::
          0 <= i < |ceps| && id in rows && Covers(rows[id], ceps[i]) && rows[id].valorDirecao == m)
  }

  /** findFirst in descending order of value; rows of equal value come in any order. */
  method FindDirection(rows: map<nat, Direction>, cep: string) returns (r: Option<nat>)
    ensures IsLookup(rows, cep, r)
  {
    r := None;
    var rest := rows;
    while rest != map[]
      invariant rest.Keys <= rows.Keys && forall id :: id in rest ==> rest[id] == rows[id]
      invariant IsLookup(rows - rest.Keys, cep, r)
      decreases |rest|
    {
      var id :| id in rest;
      ghost var seen := rows - rest.Keys;
      if Covers(rest[id], cep) && (r.None? || rows[r.value].valorDirecao <= rest[id].valorDirecao) {
        r := Some(id);
      }
      rest := rest - {id};
      assert forall j :: j in rows - rest.Keys <==> j in seen || j == id;
    }
    assert rows - rest.Keys == rows;
  }

  /** The loop both calculators run over the orders. */
  method MaxDirectionValue(rows: map<nat, Direction>, ceps: seq<string>) returns (max: int)
    ensures IsMaximum(rows, ceps, max)
  {
    max := 0;
    for i := 0 to |ceps|
      invariant IsMaximum(rows, ceps[..i], max)
    {
      var found := FindDirection(rows, ceps[i]);
      ghost var before := max;
      if found.Some? && rows[found.value].valorDirecao > max {
        max := rows[found.value].valorDirecao;
      }
      MaximumOneMore(rows, ceps[..i], ceps[i], before, found);
      assert ceps[..i + 1] == ceps[..i] + [ceps[i]];
    }
    assert ceps[..|ceps|] == ceps;
  }

  lemma MaximumOneMore(rows: map<nat, Direction>, ceps: seq<string>, cep: string, m: int, found: Option<nat>)
    requires IsMaximum(rows, ceps, m) && IsLookup(rows, cep, found)
    ensures IsMaximum(rows, ceps + [cep],
              if found.Some? && rows[found.value].valorDirecao > m then rows[found.value].valorDirecao else m)
  {
    var more := ceps + [cep];
    var n := if found.Some? && rows[found.value].valorDirecao > m then rows[found.value].valorDirecao else m;
    forall i, id | 0 <= i < |more| && id in rows && Covers(rows[id], more[i]) ensures rows[id].valorDirecao <= n {
      if i < |ceps| {
        assert more[i] == ceps[i];
      }
    }
    if n == m {
      if m != 0 {
        var i, id :| 0 <= i < |ceps| && id in rows && Covers(rows[id], ceps[i]) && rows[id].valorDirecao == m;
        assert more[i] == ceps[i];
      }
    } else {
      assert more[|ceps|] == cep;
    }
  }

  lemma MaximumUnique(rows: map<nat, Direction>, ceps: seq<string>, m: int, n: int)
    requires IsMaximum(rows, ceps, m) && IsMaximum(rows, ceps, n)
    ensures m == n
  {
  }

  lemma MaximumCarries(rows: map<nat, Direction>, a: seq<string>, b: seq<string>, m: int)
    requires forall cep :: cep in a <==> cep in b
    requires IsMaximum(rows, a, m)
    ensures IsMaximum(rows, b, m)
  {
    forall i, id | 0 <= i < |b| && id in rows && Covers(rows[id], b[i]) ensures rows[id].valorDirecao <= m {
      assert b[i] in a;
      var j :| 0 <= j < |a| && a[j] == b[i];
    }
    if m != 0 {
      var i, id :| 0 <= i < |a| && id in rows && Covers(rows[id], a[i]) && rows[id].valorDirecao == m;
      assert a[i] in b;
      var j :| 0 <= j < |b| && b[j] == a[i];
    }
  }

  /** Two runs over lists with the same CEPs, in whatever order and however often, find the
      same maximum. */
  lemma MaximumIgnoresOrder(rows: map<nat, Direction>, a: seq<string>, b: seq<string>, m: int, n: int)
    requires forall cep :: cep in a <==> cep in b
    requires IsMaximum(rows, a, m) && IsMaximum(rows, b, n)
    ensures m == n
  {
    MaximumCarries(rows, a, b, m);
    MaximumUnique(rows, b, m, n);
  }

  /** With disjoint ranges any region that covers a CEP is the one a lookup returns. */
  lemma LookupIsTheCover(rows: map<nat, Direction>, cep: string, id: nat, r: Option<nat>)
    requires Disjoint(rows) && id in rows && Covers(rows[id], cep) && IsLookup(rows, cep, r)
    ensures r == Some(id)
  {
    OneRegionPerCep(rows, cep, id, r.value);
  }

  /** So two lookups, whatever the rows were sorted by, return the same region or both none. */
  lemma LookupsAgree(rows: map<nat, Direction>, cep: string, q: Option<nat>, r: Option<nat>)
    requires Disjoint(rows) && IsLookup(rows, cep, q) && IsLookup(rows, cep, r)
    ensures q == r
  {
    if q.Some? {
      LookupIsTheCover(rows, cep, q.value, r);
    }
  }

  // ---- The calculators ----

  /** toFixed(2): the nearest whole number of cents. */
  function ToCents(x: real): real {
    (x * 100.0 + 0.5).Floor as real / 100.0
  }

  function DeliveryFee(orders: nat, pricePerDelivery: real): real {
    orders as real * pricePerDelivery
  }

  function WithFee(max: int, deliveryFee: real): real {
    ToCents(max as real + deliveryFee)
  }

  function WithCategory(max: int, categoryValue: Option<real>): real {
    max as real + (if categoryValue.Some? then categoryValue.value else 0.0)
  }

  ghost predicate IsCategoryFreight(rows: map<nat, Direction>, ceps: seq<string>, categoryValue: Option<real>,
                                    freight: real) {
    exists max :: IsMaximum(rows, ceps, max) && freight == WithCategory(max, categoryValue)
  }

  ghost predicate IsFeeFreight(rows: map<nat, Direction>, ceps: seq<string>, pricePerDelivery: real, freight: real) {
    exists max :: IsMaximum(rows, ceps, max) && freight == WithFee(max, DeliveryFee(|ceps|, pricePerDelivery))
  }

  /** categoryValue is None for a vehicle without a category. */
  method CalculateByCategory(rows: map<nat, Direction>, ceps: seq<string>, categoryValue: Option<real>)
    returns (freight: real)
    ensures IsCategoryFreight(rows, ceps, categoryValue, freight)
  {
    var maxDirectionValue := MaxDirectionValue(rows, ceps);
    freight := maxDirectionValue as real + (if categoryValue.Some? then categoryValue.value else 0.0);
  }

  /** A tenant without a price per delivery gets no freight at all. */
  method CalculateByFee(rows: map<nat, Direction>, ceps: seq<string>, pricePerDelivery: Option<real>)
    returns (freight: Result<real>)
    ensures pricePerDelivery.None? ==> freight == Err(NotFound)
    ensures pricePerDelivery.Some? ==> freight.Ok? && IsFeeFreight(rows, ceps, pricePerDelivery.value, freight.value)
  {
    if pricePerDelivery.None? {
      return Err(NotFound);
    }
    var maxDirectionValue := MaxDirectionValue(rows, ceps);
    var deliveryFee := |ceps| as real * pricePerDelivery.value;
    freight := Ok(ToCents(maxDirectionValue as real + deliveryFee));
  }

  /** The fee freight is a whole number of cents within half a cent of the sum it is rounded
      from, which is the best region value plus the price of each order. */
  lemma FreightInCents(rows: map<nat, Direction>, ceps: seq<string>, price: real, freight: real)
    returns (max: int, cents: int)
    requires IsFeeFreight(rows, ceps, price, freight)
    ensures IsMaximum(rows, ceps, max) && 100.0 * freight == cents as real
    ensures freight - 0.005 <= max as real + |ceps| as real * price < freight + 0.005
  {
    max :| IsMaximum(rows, ceps, max) && freight == WithFee(max, DeliveryFee(|ceps|, price));
    var sum := max as real + DeliveryFee(|ceps|, price);
    cents := (sum * 100.0 + 0.5).Floor;
    HundredTimes(cents, sum);
  }

  lemma HundredTimes(cents: int, sum: real)
    requires cents as real <= sum * 100.0 + 0.5 < cents as real + 1.0
    ensures 100.0 * (cents as real / 100.0) == cents as real
    ensures cents as real / 100.0 - 0.005 <= sum < cents as real / 100.0 + 0.005
  {
  }

  lemma MaximumOf(rows: map<nat, Direction>, ceps: seq<string>, category: Option<real>, freight: real)
    returns (max: int)
    requires IsCategoryFreight(rows, ceps, category, freight)
    ensures IsMaximum(rows, ceps, max)
    ensures category.None? ==> freight == max as real
    ensures category.Some? ==> freight == max as real + category.value
  {
    max :| IsMaximum(rows, ceps, max) && freight == WithCategory(max, category);
  }

  /** The category freight is the best region value alone for a vehicle without a category, and
      the value of the category more for one that has it. */
  lemma CategoryAdds(rows: map<nat, Direction>, ceps: seq<string>, category: real, x: real, y: real) returns (max: int)
    requires IsCategoryFreight(rows, ceps, None, x) && IsCategoryFreight(rows, ceps, Some(category), y)
    ensures IsMaximum(rows, ceps, max) && x == max as real && y == x + category
  {
    max := MaximumOf(rows, ceps, None, x);
    var other := MaximumOf(rows, ceps, Some(category), y);
    MaximumUnique(rows, ceps, max, other);
  }

  /** Two runs of a calculator over lists with the same CEPs give the same freight; the fee
      also depends on the number of orders. */
  lemma FreightIgnoresOrder(rows: map<nat, Direction>, a: seq<string>, b: seq<string>, category: Option<real>,
                            fee: real, x: real, y: real)
    requires forall cep :: cep in a <==> cep in b
    ensures IsCategoryFreight(rows, a, category, x) && IsCategoryFreight(rows, b, category, y) ==> x == y
    ensures IsFeeFreight(rows, a, fee, x) && IsFeeFreight(rows, b, fee, y) && |a| == |b| ==> x == y
  {
    forall m, n | IsMaximum(rows, a, m) && IsMaximum(rows, b, n) ensures m == n {
      MaximumIgnoresOrder(rows, a, b, m, n);
    }
  }

  lemma MaximumGrows(rows: map<nat, Direction>, a: seq<string>, b: seq<string>, m: int, n: int)
    requires forall cep :: cep in a ==> cep in b
    requires IsMaximum(rows, a, m) && IsMaximum(rows, b, n)
    ensures m <= n
  {
    if m != 0 {
      var i, id :| 0 <= i < |a| && id in rows && Covers(rows[id], a[i]) && rows[id].valorDirecao == m;
      assert a[i] in b;
      var j :| 0 <= j < |b| && b[j] == a[i];
    }
  }

  lemma WithFeeGrows(m: int, n: int, u: real, v: real)
    requires m <= n && u <= v
    ensures WithFee(m, u) <= WithFee(n, v)
  {
    var x, y := (m as real + u) * 100.0 + 0.5, (n as real + v) * 100.0 + 0.5;
    assert m as real <= n as real;
    assert x <= y;
    assert x.Floor <= y.Floor;
  }

  lemma DeliveryFeeGrows(j: nat, k: nat, fee: real)
    requires j <= k && fee >= 0.0
    ensures DeliveryFee(j, fee) <= DeliveryFee(k, fee)
  {
    FeeScales(j as real, k as real, fee);
  }

  lemma FeeScales(x: real, y: real, fee: real)
    requires x <= y && fee >= 0.0
    ensures x * fee <= y * fee
  {
  }

  /** Adding orders never lowers the freight of either calculator, rounding included, as long
      as the price per delivery is not negative. */
  lemma FreightGrows(rows: map<nat, Direction>, a: seq<string>, b: seq<string>, category: Option<real>, fee: real,
                     x: real, y: real)
    requires |a| <= |b| && (forall cep :: cep in a ==> cep in b) && fee >= 0.0
    ensures IsCategoryFreight(rows, a, category, x) && IsCategoryFreight(rows, b, category, y) ==> x <= y
    ensures IsFeeFreight(rows, a, fee, x) && IsFeeFreight(rows, b, fee, y) ==> x <= y
  {
    forall m, n | IsMaximum(rows, a, m) && IsMaximum(rows, b, n)
      ensures m <= n && WithFee(m, DeliveryFee(|a|, fee)) <= WithFee(n, DeliveryFee(|b|, fee))
    {
      MaximumGrows(rows, a, b, m, n);
      DeliveryFeeGrows(|a|, |b|, fee);
      WithFeeGrows(m, n, DeliveryFee(|a|, fee), DeliveryFee(|b|, fee));
    }
  }
}
