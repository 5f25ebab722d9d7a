/** Finite sums over maps and sequences, and the few facts about them that the
    accounting proofs share. */
module Sums {

  function Min(a: int, b: int): int { if a <= b then a else b }

  function Max(a: int, b: int): int { if a <= b then b else a }

  function MinReal(a: real, b: real): real { if a <= b then a else b }

  function MaxReal(a: real, b: real): real { if a <= b then b else a }

  function Clamp(x: int, lo: int, hi: int): int { if x < lo then lo else if hi < x then hi else x }

  lemma SubsetSize<T>(a: set<T>, b: set<T>)
    requires a <= b
    ensures |a| <= |b|
  {
    assert b == a + (b - a);
  }

  ghost function Total<K>(m: map<K, nat>): nat {
    if m == map[] then 0 else var k :| k in m; m[k] + Total(m - {k})
  }

  lemma {:induction false} TotalSplit<K>(m: map<K, nat>, k: K)
    requires k in m
    ensures Total(m) == m[k] + Total(m - {k})
    decreases |m|
  {
    var k0 :| k0 in m && Total(m) == m[k0] + Total(m - {k0});
    if k0 != k {
      TotalSplit(m - {k0}, k);
      TotalSplit(m - {k}, k0);
      assert m - {k0} - {k} == m - {k} - {k0};
    }
  }

  lemma TotalUpdate<K>(m: map<K, nat>, k: K, v: nat)
    ensures Total(m[k := v]) == Total(m - {k}) + v
    ensures k !in m ==> Total(m[k := v]) == Total(m) + v
  {
    TotalSplit(m[k := v], k);
    assert m[k := v] - {k} == m - {k};
    if k !in m {
      assert m - {k} == m;
    }
  }

  lemma {:induction false} TotalMonotone<K>(a: map<K, nat>, b: map<K, nat>)
    requires forall k :: k in a ==> k in b && a[k] <= b[k]
    ensures Total(a) <= Total(b)
    decreases |a|
  {
    if a != map[] {
      var k :| k in a;
      TotalSplit(a, k);
      TotalSplit(b, k);
      TotalMonotone(a - {k}, b - {k});
    }
  }

  lemma {:induction false} TotalOfOnes<K>(m: map<K, nat>)
    requires forall k :: k in m ==> m[k] == 1
    ensures Total(m) == |m.Keys|
    decreases |m|
  {
    if m != map[] {
      var k :| k in m;
      TotalSplit(m, k);
      TotalOfOnes(m - {k});
      assert (m - {k}).Keys == m.Keys - {k};
    }
  }

  lemma {:induction false} TotalAdds<K>(a: map<K, nat>, b: map<K, nat>, sum: map<K, nat>)
    requires a.Keys == sum.Keys && b.Keys == sum.Keys
    requires forall k :: k in sum ==> sum[k] == a[k] + b[k]
    ensures Total(sum) == Total(a) + Total(b)
    decreases |sum|
  {
    if sum == map[] {
      assert a == map[] && b == map[];
    } else {
      var k :| k in sum;
      TotalSplit(a, k);
      TotalSplit(b, k);
      TotalSplit(sum, k);
      TotalAdds(a - {k}, b - {k}, sum - {k});
    }
  }

  lemma {:induction false} TotalOfZeros<K>(m: map<K, nat>)
    requires forall k :: k in m ==> m[k] == 0
    ensures Total(m) == 0
    decreases |m|
  {
    if m != map[] {
      var k :| k in m;
      TotalSplit(m, k);
      TotalOfZeros(m - {k});
    }
  }

  ghost function SumOf<T(!new)>(weight: T -> nat, items: seq<T>): nat {
    if items == [] then 0 else weight(items[0]) + SumOf(weight, items[1..])
  }

  lemma {:induction false} SumOfAppend<T(!new)>(weight: T -> nat, a: seq<T>, b: seq<T>)
    ensures SumOf(weight, a + b) == SumOf(weight, a) + SumOf(weight, b)
  {
    if a == [] {
      assert a + b == b;
    } else {
      assert (a + b)[1..] == a[1..] + b;
      SumOfAppend(weight, a[1..], b);
    }
  }

  lemma SumOfOne<T(!new)>(weight: T -> nat, item: T)
    ensures SumOf(weight, [item]) == weight(item)
  {
    assert [item][1..] == [];
  }

  lemma {:induction false} SumOfInsert<T(!new)>(weight: T -> nat, front: seq<T>, item: T, rest: seq<T>)
    ensures SumOf(weight, front + [item] + rest) == SumOf(weight, front + rest) + weight(item)
  {
    SumOfAppend(weight, front + [item], rest);
    SumOfAppend(weight, front, [item]);
    SumOfAppend(weight, front, rest);
    SumOfOne(weight, item);
  }

  lemma {:induction false} SumOfPermutation<T(!new)>(weight: T -> nat, a: seq<T>, b: seq<T>)
    requires multiset(a) == multiset(b)
    ensures SumOf(weight, a) == SumOf(weight, b)
    decreases |a|
  {
    if a == [] {
      assert |multiset(b)| == 0;
    } else {
      var x := a[0];
      assert a == [x] + a[1..];
      assert x in multiset(b);
      var i :| 0 <= i < |b| && b[i] == x;
      assert b == b[..i] + [x] + b[i + 1..];
      assert multiset(a[1..]) == multiset(a) - multiset{x};
      assert multiset(b[..i] + b[i + 1..]) == multiset(b) - multiset{x};
      SumOfPermutation(weight, a[1..], b[..i] + b[i + 1..]);
      SumOfInsert(weight, b[..i], x, b[i + 1..]);
    }
  }
}
