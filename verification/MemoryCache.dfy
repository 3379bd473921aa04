/** The in-memory cache with expiry, and the timed map it implements. */
module MemoryCache {
  import opened Wrappers

  datatype Entry<V> = Entry(value: V, expiresAt: int)

  type Table<V> = map<string, Entry<V>>

  // ---- The effect of each operation ----

  function Lookup<V>(t: Table<V>, key: string, now: int): Option<V> {
    if key in t && now <= t[key].expiresAt then Some(t[key].value) else None
  }

  /** Reading deletes the entry it finds expired. */
  function AfterGet<V>(t: Table<V>, key: string, now: int): Table<V> {
    if key in t && now > t[key].expiresAt then t - {key} else t
  }

  /** The time to live is in seconds, the clock in milliseconds. */
  function AfterSet<V>(t: Table<V>, key: string, value: V, ttl: int, now: int): Table<V> {
    t[key := Entry(value, now + ttl * 1000)]
  }

  function AfterSweep<V>(t: Table<V>, now: int): Table<V> {
    map key | key in t && now <= t[key].expiresAt :: t[key]
  }

  class MemoryCacheService<V> {
    var cache: Table<V>

    constructor ()
      ensures cache == map[]
    {
      cache := map[];
    }

    method Get(key: string, now: int) returns (r: Option<V>)
      modifies this
      ensures r == Lookup(old(cache), key, now)
      ensures cache == AfterGet(old(cache), key, now)
    {
      if key !in cache {
        return None;
      }
      var entry := cache[key];
      if now > entry.expiresAt {
        cache := cache - {key};
        return None;
      }
      r := Some(entry.value);
    }

    method Set(key: string, value: V, ttl: int, now: int)
      modifies this
      ensures cache == AfterSet(old(cache), key, value, ttl, now)
    {
      var expiresAt := now + ttl * 1000;
      cache := cache[key := Entry(value, expiresAt)];
    }

    method Del(key: string)
      modifies this
      ensures cache == old(cache) - {key}
    {
      cache := cache - {key};
    }

    method Clear()
      modifies this
      ensures cache == map[]
    {
      cache := map[];
    }

    /** The scheduled sweep walks over the entries it found, deleting from the live map. */
    method CleanExpiredEntries(now: int) returns (cleanedCount: nat)
      modifies this
      ensures cache == AfterSweep(old(cache), now)
      ensures cleanedCount == |old(cache)| - |cache|
    {
      cleanedCount := 0;
      var entries := cache.Keys;
      while entries != {}
        invariant entries <= old(cache).Keys
        invariant forall key :: key in cache <==>
          key in old(cache) && (key in entries || now <= old(cache)[key].expiresAt)
        invariant forall key :: key in cache ==> cache[key] == old(cache)[key]
        invariant |cache| + cleanedCount == |old(cache)|
        decreases entries
      {
        var key :| key in entries;
        if now > cache[key].expiresAt {
          ghost var before := cache;
          cache := cache - {key};
          assert cache.Keys == before.Keys - {key};
          cleanedCount := cleanedCount + 1;
        }
        entries := entries - {key};
      }
    }
  }

  // ---- Runs ----

  datatype Op<V> =
    | Get(key: string, now: int)
    | Set(key: string, value: V, ttl: int, now: int)
    | Del(key: string, now: int)
    | Clear(now: int)
    | Sweep(now: int)

  function Apply<V>(t: Table<V>, op: Op<V>): Table<V> {
    match op
    case Get(key, now) => AfterGet(t, key, now)
    case Set(key, value, ttl, now) => AfterSet(t, key, value, ttl, now)
    case Del(key, _) => t - {key}
    case Clear(_) => map[]
    case Sweep(now) => AfterSweep(t, now)
  }

  function After<V>(ops: seq<Op<V>>): Table<V> {
    if ops == [] then map[] else Apply(After(ops[..|ops| - 1]), ops[|ops| - 1])
  }

  predicate Monotone<V>(ops: seq<Op<V>>, now: int) {
    && (forall i, j :: 0 <= i < j < |ops| ==> ops[i].now <= ops[j].now)
    && (forall i :: 0 <= i < |ops| ==> ops[i].now <= now)
  }

  predicate Overwrites<V>(op: Op<V>, key: string) {
    (op.Set? && op.key == key) || (op.Del? && op.key == key) || op.Clear?
  }

  /** Operation i set the key and nothing later set it, deleted it or cleared the cache. */
  predicate SetLast<V>(ops: seq<Op<V>>, key: string, i: nat) {
    && i < |ops| && ops[i].Set? && ops[i].key == key
    && forall j :: i < j < |ops| ==> !Overwrites(ops[j], key)
  }

  /** The timed map: the value last set for the key, until its time to live is over. */
  ghost predicate Holds<V>(ops: seq<Op<V>>, key: string, now: int, value: V) {
    exists i: nat :: SetLast(ops, key, i) && ops[i].value == value && now <= ops[i].now + 1000 * ops[i].ttl
  }

  lemma SetLastUnique<V>(ops: seq<Op<V>>, key: string, i: nat, j: nat)
    requires SetLast(ops, key, i) && SetLast(ops, key, j)
    ensures i == j
  {
  }

  lemma SetLastOneMore<V>(ops: seq<Op<V>>, key: string, i: nat)
    requires ops != []
    ensures var n := |ops| - 1;
      SetLast(ops, key, i) <==>
        if i == n then ops[n].Set? && ops[n].key == key
        else SetLast(ops[..n], key, i) && !Overwrites(ops[n], key)
  {
  }

  /** The table holds exactly the last settings, less some that have expired already. */
  ghost predicate Represents<V>(t: Table<V>, ops: seq<Op<V>>, key: string, now: int) {
    && (key in t ==> exists i: nat ::
          SetLast(ops, key, i) && t[key] == Entry(ops[i].value, ops[i].now + 1000 * ops[i].ttl))
    && (key !in t ==> forall i: nat :: SetLast(ops, key, i) ==> now > ops[i].now + 1000 * ops[i].ttl)
  }

  lemma {:induction false} TableRepresents<V>(ops: seq<Op<V>>, key: string, now: int)
    requires Monotone(ops, now)
    ensures Represents(After(ops), ops, key, now)
  {
    if ops != [] {
      var n := |ops| - 1;
      var op := ops[n];
      var before := After(ops[..n]);
      TableRepresents(ops[..n], key, op.now);
      forall i: nat {
        SetLastOneMore(ops, key, i);
      }
      if key in before {
        var i: nat :| SetLast(ops[..n], key, i)
                   && before[key] == Entry(ops[..n][i].value, ops[..n][i].now + 1000 * ops[..n][i].ttl);
        assert ops[..n][i] == ops[i];
        forall j: nat | SetLast(ops[..n], key, j) ensures i == j {
          SetLastUnique(ops[..n], key, i, j);
        }
        assert !Overwrites(op, key) ==> SetLast(ops, key, i);
      } else {
        forall j: nat | SetLast(ops[..n], key, j) ensures op.now > ops[j].now + 1000 * ops[j].ttl {
          assert ops[..n][j] == ops[j];
        }
      }
      if op.Set? && op.key == key {
        assert SetLast(ops, key, n);
      }
    }
  }

  /** Under a monotone clock a read returns v exactly when the timed map holds v. */
  lemma {:induction false} GetRefinesTimedMap<V>(ops: seq<Op<V>>, key: string, now: int, value: V)
    requires Monotone(ops, now)
    ensures Lookup(After(ops), key, now) == Some(value) <==> Holds(ops, key, now, value)
  {
    TableRepresents(ops, key, now);
    var t := After(ops);
    if key in t {
      var i: nat :| SetLast(ops, key, i) && t[key] == Entry(ops[i].value, ops[i].now + 1000 * ops[i].ttl);
      forall j: nat | SetLast(ops, key, j) ensures i == j {
        SetLastUnique(ops, key, i, j);
      }
    }
  }

  // ---- Reads and sweeps are invisible ----

  /** No later read can tell the two tables apart. */
  ghost predicate Alike<V>(s: Table<V>, t: Table<V>, since: int) {
    forall key, now :: now >= since ==> Lookup(s, key, now) == Lookup(t, key, now)
  }

  lemma AlikeStep<V>(s: Table<V>, t: Table<V>, op: Op<V>, since: int)
    requires Alike(s, t, since) && since <= op.now
    ensures Alike(Apply(s, op), Apply(t, op), op.now)
  {
    forall key, now | now >= op.now ensures Lookup(Apply(s, op), key, now) == Lookup(Apply(t, op), key, now) {
      assert Lookup(s, key, now) == Lookup(t, key, now);
    }
  }

  lemma HousekeepingAlike<V>(t: Table<V>, op: Op<V>)
    requires op.Get? || op.Sweep?
    ensures Alike(t, Apply(t, op), op.now)
  {
  }

  lemma {:induction false} AlikeFrom<V>(a: seq<Op<V>>, b: seq<Op<V>>, rest: seq<Op<V>>, since: int)
    requires Alike(After(a), After(b), since)
    requires forall i :: 0 <= i < |rest| ==> since <= rest[i].now
    requires forall i, j :: 0 <= i < j < |rest| ==> rest[i].now <= rest[j].now
    ensures Alike(After(a + rest), After(b + rest), if rest == [] then since else rest[|rest| - 1].now)
  {
    if rest == [] {
      assert a + rest == a && b + rest == b;
    } else {
      var n := |rest| - 1;
      AlikeFrom(a, b, rest[..n], since);
      assert (a + rest)[..|a + rest| - 1] == a + rest[..n];
      assert (b + rest)[..|b + rest| - 1] == b + rest[..n];
      AlikeStep(After(a + rest[..n]), After(b + rest[..n]), rest[n], if n == 0 then since else rest[n - 1].now);
    }
  }

  lemma TailTimes<V>(front: seq<Op<V>>, rest: seq<Op<V>>, now: int)
    requires front != [] && Monotone(front + rest, now)
    ensures forall i :: 0 <= i < |rest| ==> front[|front| - 1].now <= rest[i].now <= now
    ensures forall i, j :: 0 <= i < j < |rest| ==> rest[i].now <= rest[j].now
    ensures front[|front| - 1].now <= now
  {
    var all := front + rest;
    assert all[|front| - 1] == front[|front| - 1];
    forall i | 0 <= i < |rest| ensures front[|front| - 1].now <= rest[i].now <= now {
      assert all[|front| + i] == rest[i];
    }
    forall i, j | 0 <= i < j < |rest| ensures rest[i].now <= rest[j].now {
      assert all[|front| + i] == rest[i] && all[|front| + j] == rest[j];
    }
  }

  /** A read or a sweep at any moment of a run changes no later answer. */
  lemma HousekeepingInvisible<V>(before: seq<Op<V>>, op: Op<V>, rest: seq<Op<V>>, key: string, now: int)
    requires op.Get? || op.Sweep?
    requires Monotone(before + [op] + rest, now)
    ensures Lookup(After(before + [op] + rest), key, now) == Lookup(After(before + rest), key, now)
  {
    var more := before + [op];
    assert more[..|more| - 1] == before;
    HousekeepingAlike(After(before), op);
    TailTimes(more, rest, now);
    AlikeFrom(before, more, rest, op.now);
  }

  // ---- Nothing expired is kept ----

  predicate Cleans<V>(op: Op<V>, key: string) {
    op.Sweep? || (op.Get? && op.key == key)
  }

  /** Right after a sweep, or a read of the key, the table holds the key exactly when the timed
      map does: expired entries are gone and no live one is lost. */
  lemma CleanedIsLive<V>(ops: seq<Op<V>>, op: Op<V>, key: string)
    requires Monotone(ops, op.now) && Cleans(op, key)
    ensures key in After(ops + [op]) <==> exists value :: Holds(ops, key, op.now, value)
  {
    assert (ops + [op])[..|ops|] == ops;
    var t := After(ops);
    TableRepresents(ops, key, op.now);
    if key in t && op.now <= t[key].expiresAt {
      GetRefinesTimedMap(ops, key, op.now, t[key].value);
      assert Holds(ops, key, op.now, t[key].value);
    }
    if value :| Holds(ops, key, op.now, value) {
      GetRefinesTimedMap(ops, key, op.now, value);
    }
  }

  /** And a read leaves the other keys alone. */
  lemma GetLeavesOthers<V>(t: Table<V>, key: string, now: int)
    ensures AfterGet(t, key, now) - {key} == t - {key}
  {
  }
}
