/** Orders counted by region; here CEPs are compared as numbers. */
module Statistics {
  import opened Wrappers
  import opened Sums
  import opened Cep
  import opened Directions
  import opened Freight
  import opened CepAgreement

  /** The first region of the list that covers the CEP. */
  function RegionName(directions: seq<Direction>, cep: string): string {
    if directions == [] then "Unknown"
    else if NumericCovers(directions[0], cep) then directions[0].regiao
    else RegionName(directions[1..], cep)
  }

  function CountOf(directions: seq<Direction>, ceps: seq<string>, region: string): nat {
    if ceps == [] then 0
    else
      CountOf(directions, ceps[..|ceps| - 1], region)
      + (if RegionName(directions, ceps[|ceps| - 1]) == region then 1 else 0)
  }

  method FindRegion(directions: seq<Direction>, cep: string) returns (name: string)
    ensures name == RegionName(directions, cep)
  {
    for i := 0 to |directions|
      invariant RegionName(directions, cep) == RegionName(directions[i..], cep)
    {
      if NumericCovers(directions[i], cep) {
        return directions[i].regiao;
      }
    }
    name := "Unknown";
  }

  // ---- Counting in a plain object ----

  /** The names every JavaScript object has before anything is counted in it. Adding 1 to what
      they hold gives a text. */
  const INHERITED := {
    "constructor", "hasOwnProperty", "isPrototypeOf", "propertyIsEnumerable", "toLocaleString", "toString", "valueOf",
    "__defineGetter__", "__defineSetter__", "__lookupGetter__", "__lookupSetter__", "__proto__"}

  /** A counter, or the text that came of counting on from something else. */
  datatype Cell = Number(n: nat) | Text

  /** Assigning a text to __proto__ does nothing at all. */
  function CountOne(counts: map<string, Cell>, name: string): map<string, Cell> {
    if name == "__proto__" then counts
    else if name in INHERITED then counts[name := Text]
    else counts[name := if name in counts && counts[name].Number? then Number(counts[name].n + 1) else Number(1)]
  }

  function Amounts(counts: map<string, Cell>): map<string, real> {
    map r | r in counts && counts[r].Number? :: counts[r].n as real
  }

  /** What the object holds for one region. */
  predicate CellIs(counts: map<string, Cell>, region: string, count: nat) {
    if region in INHERITED then
      (region in counts <==> region != "__proto__" && count > 0) && (region in counts ==> counts[region] == Text)
    else
      (region in counts <==> count > 0) && (region in counts ==> counts[region] == Number(count))
  }

  /** Orders that fall in a region with an inherited name. */
  function Lost(directions: seq<Direction>, ceps: seq<string>): nat {
    if ceps == [] then 0
    else Lost(directions, ceps[..|ceps| - 1]) + (if RegionName(directions, ceps[|ceps| - 1]) in INHERITED then 1 else 0)
  }

  /** Every region without an inherited name has its own count and regions without orders have
      none; the counts, 'Unknown' included, add up to the orders that are not lost. */
  method GetNotesByRegion(directions: seq<Direction>, ceps: seq<string>) returns (counts: map<string, Cell>)
    ensures forall r :: CellIs(counts, r, CountOf(directions, ceps, r))
    ensures Sum(Amounts(counts)) == (|ceps| - Lost(directions, ceps)) as real
  {
    counts := map[];
    assert Amounts(counts) == map[];
    for i := 0 to |ceps|
      invariant forall r :: CellIs(counts, r, CountOf(directions, ceps[..i], r))
      invariant Sum(Amounts(counts)) == (i - Lost(directions, ceps[..i])) as real
    {
      var name := FindRegion(directions, ceps[i]);
      ghost var counted := ceps[..i + 1];
      assert counted[..i] == ceps[..i];
      forall r ensures CellIs(CountOne(counts, name), r, CountOf(directions, counted, r)) {
        assert CellIs(counts, r, CountOf(directions, ceps[..i], r));
        CellOneMore(counts, name, r, CountOf(directions, ceps[..i], r));
      }
      assert CellIs(counts, name, CountOf(directions, ceps[..i], name));
      AmountOneMore(counts, name);
      counts := CountOne(counts, name);
    }
    assert ceps[..|ceps|] == ceps;
  }

  lemma CellOneMore(counts: map<string, Cell>, name: string, r: string, count: nat)
    requires CellIs(counts, r, count)
    ensures CellIs(CountOne(counts, name), r, count + (if name == r then 1 else 0))
  {
  }

  lemma AmountOneMore(counts: map<string, Cell>, name: string)
    requires exists count :: CellIs(counts, name, count)
    ensures Sum(Amounts(CountOne(counts, name))) == Sum(Amounts(counts)) + (if name in INHERITED then 0.0 else 1.0)
  {
    var before, after := Amounts(counts), Amounts(CountOne(counts, name));
    if name in INHERITED {
      assert after == before;
    } else {
      SumTake(after, name);
      if name in counts {
        SumTake(before, name);
        assert after - {name} == before - {name};
      } else {
        assert after - {name} == before;
      }
    }
  }

  /** The counts add up to all orders if and only if no order falls in a region whose name
      every object has already. */
  lemma {:induction false} NothingLostIff(directions: seq<Direction>, ceps: seq<string>)
    ensures Lost(directions, ceps) == 0
            <==> forall i :: 0 <= i < |ceps| ==> RegionName(directions, ceps[i]) !in INHERITED
  {
    if ceps != [] {
      var front := ceps[..|ceps| - 1];
      NothingLostIff(directions, front);
      assert forall i :: 0 <= i < |front| ==> front[i] == ceps[i];
    }
  }

  /** A region that request validation accepts and whose orders are lost. */
  lemma ConstructorIsLost(directions: seq<Direction>, ceps: seq<string>, d: Direction, cep: string)
    requires directions == [d] && d.regiao == "constructor" && ceps == [cep]
    requires HasCeps(d) && IsCep(cep) && Covers(d, cep)
    ensures 3 <= |d.regiao| <= 100 && Lost(directions, ceps) == 1
  {
    NumericIsLexicographic(d, cep);
    assert ceps[..0] == [];
  }

  // ---- Agreement with the freight lookup ----

  /** The list is the table, read in some order. */
  predicate Lists(directions: seq<Direction>, rows: map<nat, Direction>) {
    && (forall d :: d in directions ==> exists id :: id in rows && rows[id] == d)
    && (forall id :: id in rows ==> rows[id] in directions)
  }

  lemma {:induction false} RegionNameFound(directions: seq<Direction>, cep: string) returns (d: Direction)
    requires exists e :: e in directions && NumericCovers(e, cep)
    ensures d in directions && NumericCovers(d, cep) && RegionName(directions, cep) == d.regiao
  {
    if NumericCovers(directions[0], cep) {
      d := directions[0];
    } else {
      var e :| e in directions && NumericCovers(e, cep);
      assert e in directions[1..];
      d := RegionNameFound(directions[1..], cep);
    }
  }

  lemma {:induction false} RegionNameUnknown(directions: seq<Direction>, cep: string)
    requires forall e :: e in directions ==> !NumericCovers(e, cep)
    ensures RegionName(directions, cep) == "Unknown"
  {
    if directions != [] {
      assert directions[0] in directions;
      RegionNameUnknown(directions[1..], cep);
    }
  }

  /** The name of the region the freight lookup found. */
  function NameFound(rows: map<nat, Direction>, r: Option<nat>): string {
    if r.Some? && r.value in rows then rows[r.value].regiao else "Unknown"
  }

  /** If both ways of comparing agree on every row of a table with disjoint ranges, the region
      an order is counted under is the one the freight lookup finds, for any listing. */
  lemma StatisticsAgreeWithFreight(rows: map<nat, Direction>, directions: seq<Direction>, cep: string, r: Option<nat>)
    requires Disjoint(rows) && Lists(directions, rows) && IsLookup(rows, cep, r)
    requires forall id :: id in rows ==> Agree(rows[id], cep)
    ensures RegionName(directions, cep) == NameFound(rows, r)
  {
    if r.Some? {
      assert Agree(rows[r.value], cep);
      var d := RegionNameFound(directions, cep);
      var id :| id in rows && rows[id] == d;
      assert Agree(rows[id], cep);
      LookupIsTheCover(rows, cep, id, r);
    } else {
      RegionNameUnknown(directions, cep);
    }
  }

  /** For every table of disjoint eight-digit ranges and every listing of it. */
  ghost predicate AlwaysSameRegion(cep: string) {
    forall rows, directions, r ::
      && Disjoint(rows) && Lists(directions, rows) && IsLookup(rows, cep, r)
      && (forall id :: id in rows ==> HasCeps(rows[id])) ==>
        RegionName(directions, cep) == NameFound(rows, r)
  }

  lemma FoundRangesAreOrdered(d: Direction, cep: string)
    requires HasCeps(d) && (NumericCovers(d, cep) || Covers(d, cep))
    ensures Le(d.rangeInicio, d.rangeFim)
  {
    if Covers(d, cep) {
      LeTransitive(d.rangeInicio, cep, d.rangeFim);
    } else {
      ParseIntOfCep(d.rangeInicio);
      ParseIntOfCep(d.rangeFim);
      LexicographicIsNumeric(d.rangeInicio, d.rangeFim);
    }
  }

  /** A range on which they differ makes a table on which they name different regions. */
  lemma OneRowTells(d: Direction, cep: string)
    requires HasCeps(d) && !Agree(d, cep)
    ensures !AlwaysSameRegion(cep)
  {
    var e := d.(regiao := "Norte");
    var rows: map<nat, Direction> := map[0 := e];
    var directions := [e];
    var r: Option<nat> := if Covers(e, cep) then Some(0) else None;
    FoundRangesAreOrdered(d, cep);
    assert NumericCovers(e, cep) == NumericCovers(d, cep) && Covers(e, cep) == Covers(d, cep);
    assert e in directions && rows[0] == e;
    assert Disjoint(rows) && Lists(directions, rows) && IsLookup(rows, cep, r);
    assert RegionName(directions[1..], cep) == "Unknown";
    assert |e.regiao| != |"Unknown"|;
    assert RegionName(directions, cep) != NameFound(rows, r);
  }

  /** Exactly the CEPs that statistics and freight always put in the same region. */
  lemma SameRegionIff(cep: string)
    ensures AlwaysSameRegion(cep) <==> AgreesEverywhere(cep)
  {
    AgreementIff(cep);
    if AgreesEverywhere(cep) {
      forall rows, directions, r |
        && Disjoint(rows) && Lists(directions, rows) && IsLookup(rows, cep, r)
        && (forall id :: id in rows ==> HasCeps(rows[id]))
        ensures RegionName(directions, cep) == NameFound(rows, r)
      {
        StatisticsAgreeWithFreight(rows, directions, cep, r);
      }
    } else {
      var d :| HasCeps(d) && !Agree(d, cep);
      OneRowTells(d, cep);
    }
  }
}
