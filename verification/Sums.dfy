/** Sums of a column over a set of rows. The database returns rows in no particular
    order, so a sum is taken over a map from row id to value. */
module Sums {

  ghost function Pick<K, V>(m: map<K, V>): (k: K)
    requires m != map[]
    ensures k in m
  {
    var k :| k in m;
    k
  }

  ghost function Sum<K>(m: map<K, real>): real
    decreases |m|
  {
    if m == map[] then 0.0
    else
      var k := Pick(m);
      m[k] + Sum(m - {k})
  }

  /** Any key may be taken first. */
  lemma {:induction false} SumTake<K>(m: map<K, real>, k: K)
    requires k in m
    ensures Sum(m) == m[k] + Sum(m - {k})
    decreases |m|
  {
    var j := Pick(m);
    if j != k {
      SumTake(m - {j}, k);
      SumTake(m - {k}, j);
      assert m - {j} - {k} == m - {k} - {j};
    }
  }

  /** The sum over two disjoint parts. */
  lemma {:induction false} SumParts<K>(m: map<K, real>, left: map<K, real>, right: map<K, real>)
    requires forall k :: k in m <==> k in left || k in right
    requires forall k :: k in left ==> k !in right && m[k] == left[k]
    requires forall k :: k in right ==> m[k] == right[k]
    ensures Sum(m) == Sum(left) + Sum(right)
    decreases |m|
  {
    if m == map[] {
      assert left == map[] && right == map[];
    } else {
      var k := Pick(m);
      if k in left {
        SumTake(left, k);
        SumParts(m - {k}, left - {k}, right);
      } else {
        SumTake(right, k);
        SumParts(m - {k}, left, right - {k});
      }
    }
  }

  /** Positive terms give a positive sum. */
  lemma {:induction false} SumPositive<K>(m: map<K, real>)
    requires forall k :: k in m ==> m[k] > 0.0
    ensures m != map[] ==> Sum(m) > 0.0
    ensures Sum(m) >= 0.0
    decreases |m|
  {
    if m != map[] {
      SumPositive(m - {Pick(m)});
    }
  }

  /** The same values under other keys. */
  lemma {:induction false} SumRename<K, L>(m: map<K, real>, n: map<L, real>, name: map<K, L>)
    requires name.Keys == m.Keys
    requires forall k :: k in m ==> name[k] in n && n[name[k]] == m[k]
    requires forall j, k :: j in m && k in m && name[j] == name[k] ==> j == k
    requires forall l :: l in n ==> exists k :: k in m && name[k] == l
    ensures Sum(m) == Sum(n)
    decreases |m|
  {
    if m == map[] {
      assert n == map[];
    } else {
      var k := Pick(m);
      SumTake(n, name[k]);
      forall l | l in n - {name[k]} ensures exists j :: j in m - {k} && (name - {k})[j] == l {
        var j :| j in m && name[j] == l;
        assert (name - {k})[j] == l;
      }
      SumRename(m - {k}, n - {name[k]}, name - {k});
    }
  }

  /** Sums over the same keys add up key by key. */
  lemma {:induction false} SumAdd<K>(m: map<K, real>, a: map<K, real>, b: map<K, real>)
    requires m.Keys == a.Keys == b.Keys && forall k :: k in m ==> m[k] == a[k] + b[k]
    ensures Sum(m) == Sum(a) + Sum(b)
    decreases |m|
  {
    if m != map[] {
      var k := Pick(m);
      SumTake(a, k);
      SumTake(b, k);
      SumAdd(m - {k}, a - {k}, b - {k});
    } else {
      assert a == map[] && b == map[];
    }
  }

  lemma {:induction false} SumOfZeros<K>(m: map<K, real>)
    requires forall k :: k in m ==> m[k] == 0.0
    ensures Sum(m) == 0.0
    decreases |m|
  {
    if m != map[] {
      SumOfZeros(m - {Pick(m)});
    }
  }

  /** Zeros add nothing. */
  lemma SumWithZeros<K>(all: map<K, real>, part: map<K, real>)
    requires forall k :: k in part ==> k in all && all[k] == part[k]
    requires forall k :: k in all && k !in part ==> all[k] == 0.0
    ensures Sum(all) == Sum(part)
  {
    var zeros := map k | k in all && k !in part :: all[k];
    SumParts(all, part, zeros);
    SumOfZeros(zeros);
  }
}
