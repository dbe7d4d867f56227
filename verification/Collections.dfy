/** Facts about sequences without repetitions, filtering, and sums over maps. */
module Collections {

  predicate Distinct<T(==)>(s: seq<T>) {
    forall i, j :: 0 <= i < j < |s| ==> s[i] != s[j]
  }

  function Elements<T(==)>(s: seq<T>): set<T> {
    set x | x in s
  }

  /** A hash map or set visited once, in some order. */
  predicate Enumerates<T(==)>(s: seq<T>, keys: set<T>) {
    Distinct(s) && Elements(s) == keys
  }

  lemma {:induction false} DistinctSize<T>(s: seq<T>)
    requires Distinct(s)
    ensures |Elements(s)| == |s|
  {
    if s != [] {
      DistinctSize(s[1..]);
      assert Elements(s) == Elements(s[1..]) + {s[0]};
    }
  }

  lemma SubsetSize<T>(a: set<T>, b: set<T>)
    requires a <= b
    ensures |a| <= |b|
  {
    assert b == a + (b - a);
  }

  function RemoveFirst<T(==)>(s: seq<T>, x: T): (r: seq<T>)
    ensures forall y :: y in r ==> y in s
    ensures forall y :: y in s && y != x ==> y in r
  {
    if s == [] then []
    else if s[0] == x then s[1..]
    else [s[0]] + RemoveFirst(s[1..], x)
  }

  /** Removing the element found at its first position. */
  lemma {:induction false} RemoveAt<T>(s: seq<T>, x: T, i: nat)
    requires i < |s| && s[i] == x && x !in s[..i]
    ensures RemoveFirst(s, x) == s[..i] + s[i + 1..]
  {
    if i == 0 {
      assert s[..0] + s[1..] == s[1..];
    } else {
      assert s[0] == s[..i][0];
      assert s[1..][..i - 1] == s[..i][1..];
      RemoveAt(s[1..], x, i - 1);
      assert [s[0]] + (s[1..][..i - 1] + s[1..][i..]) == s[..i] + s[i + 1..];
    }
  }

  lemma {:induction false} RemoveAbsent<T>(s: seq<T>, x: T)
    requires x !in s
    ensures RemoveFirst(s, x) == s
  {
    if s != [] {
      RemoveAbsent(s[1..], x);
    }
  }

  lemma {:induction false} RemoveDistinct<T>(s: seq<T>, x: T)
    requires Distinct(s)
    ensures Distinct(RemoveFirst(s, x))
    ensures x !in RemoveFirst(s, x)
  {
    if s != [] {
      RemoveDistinct(s[1..], x);
      assert s[0] !in s[1..];
      assert s[0] !in RemoveFirst(s[1..], x);
    }
  }

  ghost function Sum<K>(m: map<K, nat>): nat {
    if m == map[] then 0
    else
      var k :| k in m;
      m[k] + Sum(m - {k})
  }

  lemma {:induction false} SumRemove<K>(m: map<K, nat>, k: K)
    requires k in m
    ensures Sum(m) == m[k] + Sum(m - {k})
    decreases |m|
  {
    var c :| c in m && Sum(m) == m[c] + Sum(m - {c});
    if c != k {
      SumRemove(m - {c}, k);
      SumRemove(m - {k}, c);
      assert m - {c} - {k} == m - {k} - {c};
    }
  }

  lemma SumUpdate<K>(m: map<K, nat>, k: K, v: nat)
    ensures Sum(m[k := v]) + (if k in m then m[k] else 0) == Sum(m) + v
  {
    SumRemove(m[k := v], k);
    assert m[k := v] - {k} == m - {k};
    if k in m {
      SumRemove(m, k);
    } else {
      assert m - {k} == m;
    }
  }
}
