/** The table of CEP ranges. */
module Directions {
  import opened Wrappers
  import opened Cep

  datatype Direction = Direction(rangeInicio: string, rangeFim: string, valorDirecao: int, regiao: string)

  /** The fields of an update request that were sent. */
  datatype Patch = Patch(
    rangeInicio: Option<string>,
    rangeFim: Option<string>,
    valorDirecao: Option<int>,
    regiao: Option<string>)

  datatype Table = Table(rows: map<nat, Direction>, nextId: nat)

  const NO_DIRECTIONS := Table(map[], 0)

  predicate Covers(d: Direction, cep: string) {
    Le(d.rangeInicio, cep) && Le(cep, d.rangeFim)
  }

  /** How the database folds the case of a name; any folding will do. */
  type Folding = string -> string

  predicate SameName(fold: Folding, a: string, b: string) {
    fold(a) == fold(b)
  }

  /** The condition of the conflict query. */
  predicate Overlaps(d: Direction, inicio: string, fim: string) {
    Le(inicio, d.rangeFim) && Le(d.rangeInicio, fim)
  }

  predicate NameTaken(fold: Folding, rows: map<nat, Direction>, regiao: string, but: Option<nat>) {
    exists id :: id in rows && Some(id) != but && SameName(fold, rows[id].regiao, regiao)
  }

  predicate OverlapsSome(rows: map<nat, Direction>, inicio: string, fim: string, but: Option<nat>) {
    exists id :: id in rows && Some(id) != but && Overlaps(rows[id], inicio, fim)
  }

  function CheckOverlap(rows: map<nat, Direction>, inicio: string, fim: string, but: Option<nat>): Outcome {
    if !Le(inicio, fim) then Failed(BadRequest)
    else if OverlapsSome(rows, inicio, fim, but) then Failed(Conflict)
    else Done
  }

  function Create(fold: Folding, t: Table, d: Direction): Result<Table> {
    if NameTaken(fold, t.rows, d.regiao, None) then Err(Conflict)
    else
      match CheckOverlap(t.rows, d.rangeInicio, d.rangeFim, None)
      case Failed(e) => Err(e)
      case Done => Ok(Table(t.rows[t.nextId := d], t.nextId + 1))
  }

  function GetOr<T>(o: Option<T>, default: T): T {
    if o.Some? then o.value else default
  }

  function Patched(d: Direction, p: Patch): Direction {
    Direction(GetOr(p.rangeInicio, d.rangeInicio), GetOr(p.rangeFim, d.rangeFim),
              GetOr(p.valorDirecao, d.valorDirecao), GetOr(p.regiao, d.regiao))
  }

  /** The name is only checked when one was sent, is not empty and differs from the old one. */
  predicate Renames(d: Direction, p: Patch) {
    p.regiao.Some? && p.regiao.value != "" && p.regiao.value != d.regiao
  }

  function Update(fold: Folding, t: Table, id: nat, p: Patch): Result<Table> {
    if id !in t.rows then Err(NotFound)
    else if Renames(t.rows[id], p) && NameTaken(fold, t.rows, p.regiao.value, Some(id)) then Err(Conflict)
    else
      var d := Patched(t.rows[id], p);
      match CheckOverlap(t.rows, d.rangeInicio, d.rangeFim, Some(id))
      case Failed(e) => Err(e)
      case Done => Ok(t.(rows := t.rows[id := d]))
  }

  function Remove(t: Table, id: nat): Result<Table> {
    if id !in t.rows then Err(NotFound) else Ok(t.(rows := t.rows - {id}))
  }

  // ---- The invariant ----

  predicate Before(a: Direction, b: Direction) {
    Lt(a.rangeFim, b.rangeInicio)
  }

  predicate Disjoint(rows: map<nat, Direction>) {
    && (forall id :: id in rows ==> Le(rows[id].rangeInicio, rows[id].rangeFim))
    && (forall i, j :: i in rows && j in rows && i != j ==> Before(rows[i], rows[j]) || Before(rows[j], rows[i]))
  }

  predicate DistinctNames(fold: Folding, rows: map<nat, Direction>) {
    forall i, j :: i in rows && j in rows && i != j ==> !SameName(fold, rows[i].regiao, rows[j].regiao)
  }

  predicate Valid(t: Table) {
    Disjoint(t.rows) && forall id :: id in t.rows ==> id < t.nextId
  }

  /** At most one region covers a CEP. */
  lemma OneRegionPerCep(rows: map<nat, Direction>, cep: string, i: nat, j: nat)
    requires Disjoint(rows) && i in rows && j in rows && Covers(rows[i], cep) && Covers(rows[j], cep)
    ensures i == j
  {
    LeTransitive(rows[i].rangeInicio, cep, rows[j].rangeFim);
    LeTransitive(rows[j].rangeInicio, cep, rows[i].rangeFim);
  }

  /** The conflict query finds exactly the regions that share a CEP with the new range. */
  lemma ConflictMeansSharedCep(d: Direction, inicio: string, fim: string)
    requires Le(d.rangeInicio, d.rangeFim) && Le(inicio, fim)
    ensures Overlaps(d, inicio, fim) <==> exists cep :: Covers(d, cep) && Le(inicio, cep) && Le(cep, fim)
  {
    if Overlaps(d, inicio, fim) {
      LeTotal(d.rangeInicio, inicio);
      LeReflexive(inicio);
      LeReflexive(d.rangeInicio);
      var cep := if Le(d.rangeInicio, inicio) then inicio else d.rangeInicio;
      assert Covers(d, cep) && Le(inicio, cep) && Le(cep, fim);
    }
    if cep :| Covers(d, cep) && Le(inicio, cep) && Le(cep, fim) {
      LeTransitive(inicio, cep, d.rangeFim);
      LeTransitive(d.rangeInicio, cep, fim);
    }
  }

  lemma CreateKeeps(fold: Folding, t: Table, d: Direction)
    requires Valid(t) && Create(fold, t, d).Ok?
    ensures Valid(Create(fold, t, d).value)
    ensures DistinctNames(fold, t.rows) ==> DistinctNames(fold, Create(fold, t, d).value.rows)
  {
    forall j | j in t.rows
      ensures Before(t.rows[j], d) || Before(d, t.rows[j])
      ensures !SameName(fold, t.rows[j].regiao, d.regiao) && !SameName(fold, d.regiao, t.rows[j].regiao)
    {
      assert !Overlaps(t.rows[j], d.rangeInicio, d.rangeFim);
    }
  }

  /** An update keeps the ranges disjoint; it keeps the names distinct unless it empties one. */
  lemma UpdateKeeps(fold: Folding, t: Table, id: nat, p: Patch)
    requires Valid(t) && Update(fold, t, id, p).Ok?
    ensures Valid(Update(fold, t, id, p).value)
    ensures DistinctNames(fold, t.rows) && p.regiao != Some("") ==>
      DistinctNames(fold, Update(fold, t, id, p).value.rows)
  {
    var d := Update(fold, t, id, p).value.rows[id];
    forall j | j in t.rows && j != id
      ensures Before(t.rows[j], d) || Before(d, t.rows[j])
      ensures DistinctNames(fold, t.rows) && p.regiao != Some("") ==>
        !SameName(fold, t.rows[j].regiao, d.regiao) && !SameName(fold, d.regiao, t.rows[j].regiao)
    {
      assert !Overlaps(t.rows[j], d.rangeInicio, d.rangeFim);
    }
  }

  /** An accepted update writes each field that was sent, keeps each that was not, and touches
      no other row. */
  lemma UpdateWrites(fold: Folding, t: Table, id: nat, p: Patch)
    requires Update(fold, t, id, p).Ok?
    ensures id in t.rows
    ensures var u, before := Update(fold, t, id, p).value, t.rows[id];
      && u.rows.Keys == t.rows.Keys && u.nextId == t.nextId
      && (forall j :: j in t.rows && j != id ==> u.rows[j] == t.rows[j])
      && (p.rangeInicio.Some? ==> u.rows[id].rangeInicio == p.rangeInicio.value)
      && (p.rangeInicio.None? ==> u.rows[id].rangeInicio == before.rangeInicio)
      && (p.rangeFim.Some? ==> u.rows[id].rangeFim == p.rangeFim.value)
      && (p.rangeFim.None? ==> u.rows[id].rangeFim == before.rangeFim)
      && (p.valorDirecao.Some? ==> u.rows[id].valorDirecao == p.valorDirecao.value)
      && (p.valorDirecao.None? ==> u.rows[id].valorDirecao == before.valorDirecao)
      && (p.regiao.Some? ==> u.rows[id].regiao == p.regiao.value)
      && (p.regiao.None? ==> u.rows[id].regiao == before.regiao)
  {
  }

  // ---- What is accepted ----

  /** The new range shares no CEP with any other region. */
  ghost predicate Clear(rows: map<nat, Direction>, d: Direction, but: Option<nat>) {
    forall id, cep :: id in rows && Some(id) != but && Covers(rows[id], cep) ==> !Covers(d, cep)
  }

  lemma ClearIff(rows: map<nat, Direction>, d: Direction, but: Option<nat>)
    requires Disjoint(rows) && Le(d.rangeInicio, d.rangeFim)
    ensures Clear(rows, d, but) <==> !OverlapsSome(rows, d.rangeInicio, d.rangeFim, but)
  {
    forall id | id in rows
      ensures Overlaps(rows[id], d.rangeInicio, d.rangeFim) <==> exists cep :: Covers(rows[id], cep) && Covers(d, cep)
    {
      ConflictMeansSharedCep(rows[id], d.rangeInicio, d.rangeFim);
    }
  }

  /** A creation is accepted exactly when no region has its name, its range is in order and
      shares no CEP with a region; then the table has this one row more. */
  lemma CreateIff(fold: Folding, t: Table, d: Direction)
    requires Valid(t)
    ensures var answer := Create(fold, t, d);
      var newName := forall id :: id in t.rows ==> fold(t.rows[id].regiao) != fold(d.regiao);
      var ordered := Le(d.rangeInicio, d.rangeFim);
      && (answer.Ok? <==> newName && ordered && Clear(t.rows, d, None))
      && (answer == Err(BadRequest) <==> newName && !ordered)
      && (answer == Err(Conflict) <==> !newName || (ordered && !Clear(t.rows, d, None)))
      && (answer.Ok? ==> answer.value.nextId == t.nextId + 1 && t.nextId in answer.value.rows
                         && answer.value.rows[t.nextId] == d && answer.value.rows - {t.nextId} == t.rows)
  {
    if Le(d.rangeInicio, d.rangeFim) {
      ClearIff(t.rows, d, None);
    }
    assert NameTaken(fold, t.rows, d.regiao, None) <==>
      exists id :: id in t.rows && fold(t.rows[id].regiao) == fold(d.regiao);
  }

  /** An update is accepted exactly when the row is there, no other region has the new name, and
      the range it leads to is in order and shares no CEP with another region. */
  lemma UpdateIff(fold: Folding, t: Table, id: nat, p: Patch)
    requires Valid(t)
    ensures Update(fold, t, id, p) == Err(NotFound) <==> id !in t.rows
    ensures id in t.rows ==>
      var answer, d := Update(fold, t, id, p), Patched(t.rows[id], p);
      var free := Renames(t.rows[id], p) ==>
        forall j :: j in t.rows && j != id ==> fold(t.rows[j].regiao) != fold(p.regiao.value);
      var ordered := Le(d.rangeInicio, d.rangeFim);
      && (answer.Ok? <==> free && ordered && Clear(t.rows, d, Some(id)))
      && (answer == Err(BadRequest) <==> free && !ordered)
      && (answer == Err(Conflict) <==> !free || (ordered && !Clear(t.rows, d, Some(id))))
  {
    if id in t.rows {
      var d := Patched(t.rows[id], p);
      if Le(d.rangeInicio, d.rangeFim) {
        ClearIff(t.rows, d, Some(id));
      }
      if Renames(t.rows[id], p) {
        assert NameTaken(fold, t.rows, p.regiao.value, Some(id)) <==>
          exists j :: j in t.rows && j != id && fold(t.rows[j].regiao) == fold(p.regiao.value);
      }
    }
  }

  /** A name is new when one was sent that is not empty and not the old one. */
  lemma RenamesIff(d: Direction, p: Patch)
    ensures Renames(d, p) <==> p.regiao.Some? && p.regiao.value != "" && Patched(d, p).regiao != d.regiao
  {
  }

  /** A region is never in its own way: sending its own values again is accepted. */
  lemma SameAgain(fold: Folding, t: Table, id: nat, p: Patch)
    requires Valid(t) && id in t.rows && Patched(t.rows[id], p) == t.rows[id]
    ensures Update(fold, t, id, p) == Ok(t)
  {
    var d := t.rows[id];
    forall j, cep | j in t.rows && j != id && Covers(t.rows[j], cep) ensures !Covers(d, cep) {
      if Covers(d, cep) {
        OneRegionPerCep(t.rows, cep, j, id);
      }
    }
    UpdateIff(fold, t, id, p);
    assert t.rows[id := d] == t.rows;
  }

  lemma RemoveIff(t: Table, id: nat)
    ensures Remove(t, id) == Err(NotFound) <==> id !in t.rows
    ensures id in t.rows ==>
      Remove(t, id).Ok? && Remove(t, id).value.nextId == t.nextId
      && (forall j :: j in Remove(t, id).value.rows <==> j in t.rows && j != id)
      && (forall j :: j in t.rows && j != id ==> Remove(t, id).value.rows[j] == t.rows[j])
  {
  }

  // ---- Runs ----

  datatype Request = CreateReq(d: Direction) | UpdateReq(id: nat, p: Patch) | RemoveReq(id: nat)

  function Answer(fold: Folding, t: Table, r: Request): Result<Table> {
    match r
    case CreateReq(d) => Create(fold, t, d)
    case UpdateReq(id, p) => Update(fold, t, id, p)
    case RemoveReq(id) => Remove(t, id)
  }

  function Step(fold: Folding, t: Table, r: Request): Table {
    match Answer(fold, t, r)
    case Ok(u) => u
    case Err(_) => t
  }

  function Run(fold: Folding, rs: seq<Request>): Table {
    if rs == [] then NO_DIRECTIONS else Step(fold, Run(fold, rs[..|rs| - 1]), rs[|rs| - 1])
  }

  /** Request validation refuses an empty name. */
  predicate Validated(rs: seq<Request>) {
    forall i :: 0 <= i < |rs| && rs[i].UpdateReq? ==> rs[i].p.regiao != Some("")
  }

  /** After any run of requests the ranges are well formed and pairwise disjoint, and no two
      regions of a run of validated requests have the same name. */
  lemma {:induction false} RunKeeps(fold: Folding, rs: seq<Request>)
    ensures Valid(Run(fold, rs))
    ensures Validated(rs) ==> DistinctNames(fold, Run(fold, rs).rows)
  {
    if rs != [] {
      var n := |rs| - 1;
      RunKeeps(fold, rs[..n]);
      assert Validated(rs) ==> Validated(rs[..n]);
      if Answer(fold, Run(fold, rs[..n]), rs[n]).Ok? {
        match rs[n]
        case CreateReq(d) => CreateKeeps(fold, Run(fold, rs[..n]), d);
        case UpdateReq(id, p) => UpdateKeeps(fold, Run(fold, rs[..n]), id, p);
        case RemoveReq(_) =>
      }
    }
  }

  // ---- The service ----

  class DirectionsService {
    const fold: Folding
    var rows: map<nat, Direction>
    var nextId: nat
    ghost var served: seq<Request>

    ghost function View(): Table
      reads this
    {
      Table(rows, nextId)
    }

    ghost predicate Reached()
      reads this
    {
      View() == Run(fold, served)
    }

    constructor (fold: Folding)
      ensures Reached() && served == [] && this.fold == fold
    {
      this.fold := fold;
      rows, nextId, served := map[], 0, [];
    }

    ghost method Serve(before: Table, r: Request)
      requires before == Run(fold, served) && View() == Step(fold, before, r)
      modifies this`served
      ensures Reached() && served == old(served) + [r]
    {
      served := served + [r];
      assert served[..|served| - 1] == old(served);
    }

    method FindOverlap(inicio: string, fim: string, but: Option<nat>) returns (r: Outcome)
      ensures r == CheckOverlap(rows, inicio, fim, but)
    {
      if !Le(inicio, fim) {
        return Failed(BadRequest);
      }
      var rest := rows;
      while rest != map[]
        invariant rest.Keys <= rows.Keys && forall id :: id in rest ==> rest[id] == rows[id]
        invariant forall id :: id in rows && id !in rest && Some(id) != but ==> !Overlaps(rows[id], inicio, fim)
        decreases |rest|
      {
        var id :| id in rest;
        if Some(id) != but && Overlaps(rest[id], inicio, fim) {
          return Failed(Conflict);
        }
        rest := rest - {id};
      }
      r := Done;
    }

    method CreateDirection(d: Direction) returns (r: Outcome)
      requires Reached()
      modifies this
      ensures Reached() && served == old(served) + [CreateReq(d)]
      ensures View() == Step(fold, old(View()), CreateReq(d))
      ensures r == match Create(fold, old(View()), d) case Ok(_) => Done case Err(e) => Failed(e)
    {
      if exists id :: id in rows && SameName(fold, rows[id].regiao, d.regiao) {
        assert NameTaken(fold, rows, d.regiao, None);
        r := Failed(Conflict);
      } else {
        r := FindOverlap(d.rangeInicio, d.rangeFim, None);
        if r.Done? {
          rows := rows[nextId := d];
          nextId := nextId + 1;
        }
      }
      Serve(old(View()), CreateReq(d));
    }

    method UpdateDirection(id: nat, p: Patch) returns (r: Outcome)
      requires Reached()
      modifies this
      ensures Reached() && served == old(served) + [UpdateReq(id, p)]
      ensures View() == Step(fold, old(View()), UpdateReq(id, p))
      ensures r == match Update(fold, old(View()), id, p) case Ok(_) => Done case Err(e) => Failed(e)
    {
      if id !in rows {
        r := Failed(NotFound);
      } else if p.regiao.Some? && p.regiao.value != "" && p.regiao.value != rows[id].regiao
                && exists k :: k in rows && k != id && SameName(fold, rows[k].regiao, p.regiao.value) {
        var k :| k in rows && k != id && SameName(fold, rows[k].regiao, p.regiao.value);
        assert NameTaken(fold, rows, p.regiao.value, Some(id));
        r := Failed(Conflict);
      } else {
        var newRangeInicio := GetOr(p.rangeInicio, rows[id].rangeInicio);
        var newRangeFim := GetOr(p.rangeFim, rows[id].rangeFim);
        r := FindOverlap(newRangeInicio, newRangeFim, Some(id));
        if r.Done? {
          rows := rows[id := Patched(rows[id], p)];
        }
      }
      Serve(old(View()), UpdateReq(id, p));
    }

    method RemoveDirection(id: nat) returns (r: Outcome)
      requires Reached()
      modifies this
      ensures Reached() && served == old(served) + [RemoveReq(id)]
      ensures View() == Step(fold, old(View()), RemoveReq(id))
      ensures r == match Remove(old(View()), id) case Ok(_) => Done case Err(e) => Failed(e)
    {
      if id !in rows {
        r := Failed(NotFound);
      } else {
        rows := rows - {id};
        r := Done;
      }
      Serve(old(View()), RemoveReq(id));
    }
  }
}
