/** Weighted sums over sequences and maps: the vocabulary in which ledgers are stated. */
module Sums {
  ghost function Sum<T>(weight: T -> int, items: seq<T>): int {
    if |items| == 0 then 0
    else Sum(weight, items[..|items| - 1]) + weight(items[|items| - 1])
  }

  lemma {:induction false} SumConcat<T>(weight: T -> int, a: seq<T>, b: seq<T>)
    ensures Sum(weight, a + b) == Sum(weight, a) + Sum(weight, b)
  {
    if |b| == 0 {
      assert a + b == a;
    } else {
      assert (a + b)[..|a + b| - 1] == a + b[..|b| - 1];
      SumConcat(weight, a, b[..|b| - 1]);
    }
  }

  lemma SumOne<T>(weight: T -> int, x: T)
    ensures Sum(weight, [x]) == weight(x)
  {
    assert [x][..0] == [];
  }

  lemma SumSnoc<T>(weight: T -> int, a: seq<T>, x: T)
    ensures Sum(weight, a + [x]) == Sum(weight, a) + weight(x)
  {
    assert (a + [x])[..|a|] == a;
  }

  lemma SumHead<T>(weight: T -> int, a: seq<T>)
    requires |a| > 0
    ensures Sum(weight, a) == weight(a[0]) + Sum(weight, a[1..])
  {
    assert a == [a[0]] + a[1..];
    SumConcat(weight, [a[0]], a[1..]);
    SumOne(weight, a[0]);
  }

  lemma {:induction false} SumUpdate<T>(weight: T -> int, a: seq<T>, i: nat, x: T)
    requires i < |a|
    ensures Sum(weight, a[i := x]) == Sum(weight, a) - weight(a[i]) + weight(x)
  {
    hide Sum;
    assert a == a[..i] + [a[i]] + a[i + 1..];
    assert a[i := x] == a[..i] + [x] + a[i + 1..];
    SumConcat(weight, a[..i] + [a[i]], a[i + 1..]);
    SumConcat(weight, a[..i] + [x], a[i + 1..]);
    SumSnoc(weight, a[..i], a[i]);
    SumSnoc(weight, a[..i], x);
  }

  lemma {:induction false} SumNonNegative<T>(weight: T -> int, a: seq<T>)
    requires forall i :: 0 <= i < |a| ==> weight(a[i]) >= 0
    ensures Sum(weight, a) >= 0
  {
    if |a| > 0 { SumNonNegative(weight, a[..|a| - 1]); }
  }

  lemma {:induction false} SumAtLeast<T>(weight: T -> int, a: seq<T>, k: nat)
    requires k < |a|
    requires forall i :: 0 <= i < |a| ==> weight(a[i]) >= 0
    ensures Sum(weight, a) >= weight(a[k])
  {
    var n := |a| - 1;
    if k == n {
      SumNonNegative(weight, a[..n]);
    } else {
      SumAtLeast(weight, a[..n], k);
    }
  }

  lemma {:induction false} SumZero<T>(weight: T -> int, a: seq<T>)
    requires forall i :: 0 <= i < |a| ==> weight(a[i]) == 0
    ensures Sum(weight, a) == 0
  {
    if |a| > 0 { SumZero(weight, a[..|a| - 1]); }
  }

  lemma {:induction false} SumDifference<T>(f: T -> int, g: T -> int, h: T -> int, a: seq<T>)
    requires forall i :: 0 <= i < |a| ==> h(a[i]) == f(a[i]) - g(a[i])
    ensures Sum(h, a) == Sum(f, a) - Sum(g, a)
  {
    if |a| > 0 { SumDifference(f, g, h, a[..|a| - 1]); }
  }

  lemma OneRemoved<T>(a: seq<T>, k: nat)
    requires k < |a|
    ensures multiset(a[..k] + a[k + 1..]) == multiset(a) - multiset{a[k]}
  {
    assert a == a[..k] + [a[k]] + a[k + 1..];
  }

  lemma SumRemoved<T>(weight: T -> int, a: seq<T>, k: nat)
    requires k < |a|
    ensures Sum(weight, a) == Sum(weight, a[..k] + a[k + 1..]) + weight(a[k])
  {
    hide Sum;
    assert a == a[..k] + [a[k]] + a[k + 1..];
    SumConcat(weight, a[..k] + [a[k]], a[k + 1..]);
    SumSnoc(weight, a[..k], a[k]);
    SumConcat(weight, a[..k], a[k + 1..]);
  }

  /** A sum does not depend on the order of its items. */
  lemma {:induction false} SumPermutation<T>(weight: T -> int, a: seq<T>, b: seq<T>)
    requires multiset(a) == multiset(b)
    ensures Sum(weight, a) == Sum(weight, b)
  {
    if |a| == 0 {
      assert multiset(b) == multiset{};
      assert |multiset(b)| == |b|;
    } else {
      var n := |a| - 1;
      assert a[n] in multiset(a);
      assert a[n] in b;
      var k :| 0 <= k < |b| && b[k] == a[n];
      assert a[..n] + a[n + 1..] == a[..n];
      OneRemoved(a, n);
      OneRemoved(b, k);
      SumPermutation(weight, a[..n], b[..k] + b[k + 1..]);
      SumRemoved(weight, b, k);
    }
  }

  /** The weight that counts the occurrences of one item. */
  ghost function Occurs<T(!new)>(x: T): T -> int {
    (y: T) => if y == x then 1 else 0
  }

  lemma {:induction false} SumOccurs<T(!new)>(x: T, a: seq<T>)
    ensures Sum(Occurs(x), a) == multiset(a)[x]
  {
    if |a| > 0 {
      assert a == a[..|a| - 1] + [a[|a| - 1]];
      SumOccurs(x, a[..|a| - 1]);
    }
  }

  ghost function SomeKey<K, V>(m: map<K, V>): (k: K)
    requires |m| > 0
    ensures k in m
  {
    assert |m.Keys| == |m|;
    var k :| k in m.Keys;
    k
  }

  /** The sum of the weights of a map's values. */
  ghost function MapSum<K, V>(weight: V -> int, m: map<K, V>): int
    decreases |m|
  {
    if |m| == 0 then 0
    else
      var k := SomeKey(m);
      RemoveShrinks(m, k);
      weight(m[k]) + MapSum(weight, m - {k})
  }

  lemma RemoveShrinks<K, V>(m: map<K, V>, k: K)
    requires k in m
    ensures |m - {k}| == |m| - 1
  {
    assert (m - {k}).Keys == m.Keys - {k};
    assert |m.Keys| == |m|;
  }

  /** Any key may be split off first. */
  lemma {:induction false} MapSumRemove<K, V>(weight: V -> int, m: map<K, V>, k: K)
    requires k in m
    ensures MapSum(weight, m - {k}) == MapSum(weight, m) - weight(m[k])
    decreases |m|
  {
    var j := SomeKey(m);
    RemoveShrinks(m, j);
    RemoveShrinks(m, k);
    if j != k {
      assert (m - {j})[k] == m[k] && (m - {k})[j] == m[j];
      assert m - {j} - {k} == m - {k} - {j};
      MapSumRemove(weight, m - {j}, k);
      MapSumRemove(weight, m - {k}, j);
    }
  }

  lemma MapSumInsert<K, V>(weight: V -> int, m: map<K, V>, k: K, v: V)
    requires k !in m
    ensures MapSum(weight, m[k := v]) == MapSum(weight, m) + weight(v)
  {
    assert m[k := v] - {k} == m;
    MapSumRemove(weight, m[k := v], k);
  }
}
