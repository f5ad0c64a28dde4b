/** Sums over maps, whatever order a loop takes their keys in, and the order of strings. */
module Sums {

  // Adding up the values of a map; SumRemove shows that the order of the keys does not matter.
  ghost function SumMap<K(!new)>(m: map<K, int>): int {
    if m == map[] then 0 else
    var k :| k in m;
    m[k] + SumMap(m - {k})
  }

  lemma SumEmpty<K(!new)>(m: map<K, int>)
    requires m == map[]
    ensures SumMap(m) == 0
  {
  }

  lemma {:induction false} SumRemove<K(!new)>(m: map<K, int>, k: K)
    requires k in m
    ensures SumMap(m) == m[k] + SumMap(m - {k})
    decreases m
  {
    var first :| first in m && SumMap(m) == m[first] + SumMap(m - {first});
    if first != k {
      SumRemove(m - {first}, k);
      SumRemove(m - {k}, first);
      assert m - {first} - {k} == m - {k} - {first};
    }
  }

  function At<K>(m: map<K, int>, k: K): int {
    if k in m then m[k] else 0
  }

  lemma SumUpdate<K(!new)>(m: map<K, int>, k: K, v: int)
    ensures SumMap(m[k := v]) == SumMap(m) - At(m, k) + v
  {
    var n := m[k := v];
    SumRemove(n, k);
    assert n - {k} == m - {k};
    if k in m {
      SumRemove(m, k);
    } else {
      assert m - {k} == m;
    }
  }

  lemma SumDrop<K(!new)>(m: map<K, int>, k: K)
    ensures SumMap(m - {k}) == SumMap(m) - At(m, k)
  {
    if k in m {
      SumRemove(m, k);
    } else {
      assert m - {k} == m;
    }
  }

  lemma {:induction false} SumNonNegative<K(!new)>(m: map<K, int>)
    requires forall k <- m :: m[k] >= 0
    ensures SumMap(m) >= 0
    ensures forall k <- m :: m[k] <= SumMap(m)
    decreases m
  {
    forall k | k in m
      ensures m[k] <= SumMap(m) && SumMap(m) >= 0
    {
      SumRemove(m, k);
      SumNonNegative(m - {k});
    }
  }

  // The part of a map whose keys are in a set.
  function Only<K>(m: map<K, int>, keys: set<K>): map<K, int> {
    map k | k in m && k in keys :: m[k]
  }

  lemma SumOnlyAdd<K(!new)>(m: map<K, int>, keys: set<K>, k: K)
    requires k in m && k !in keys
    ensures SumMap(Only(m, keys + {k})) == SumMap(Only(m, keys)) + m[k]
  {
    assert Only(m, keys + {k}) == Only(m, keys)[k := m[k]];
    SumUpdate(Only(m, keys), k, m[k]);
  }

  lemma {:induction false} SumOnlyGrows<K(!new)>(m: map<K, int>, fewer: set<K>, more: set<K>)
    requires fewer <= more && forall k <- m :: m[k] >= 0
    ensures SumMap(Only(m, fewer)) <= SumMap(Only(m, more))
    decreases more - fewer
  {
    if fewer != more {
      assert exists k :: k in more && k !in fewer by {
        assert !(more <= fewer);
      }
      var k :| k in more && k !in fewer;
      SumOnlyGrows(m, fewer + {k}, more);
      if k in m {
        SumOnlyAdd(m, fewer, k);
      } else {
        assert Only(m, fewer + {k}) == Only(m, fewer);
      }
    }
  }

  method SumValues(m: map<string, int>) returns (sum: int)
    ensures sum == SumMap(m)
  {
    sum := 0;
    var left := m;
    while left != map[]
      invariant left.Keys <= m.Keys && forall k <- left :: left[k] == m[k]
      invariant sum + SumMap(left) == SumMap(m)
      decreases |left|
    {
      var k :| k in left;
      SumRemove(left, k);
      sum := sum + left[k];
      left := left - {k};
    }
  }

  // ----------------------------------------------------------------------- strings

  predicate Less(a: string, b: string) {
    b != [] && (a == [] || a[0] < b[0] || (a[0] == b[0] && Less(a[1..], b[1..])))
  }

  lemma {:induction false} LessTotal(a: string, b: string)
    ensures Less(a, b) || Less(b, a) || a == b
    ensures !(Less(a, b) && Less(b, a)) && !Less(a, a)
  {
    if a != [] {
      LessTotal(a[1..], if b == [] then a[1..] else b[1..]);
      if b != [] && a[0] == b[0] && a[1..] == b[1..] {
        assert a == [a[0]] + a[1..] && b == [b[0]] + b[1..];
      }
    }
  }

  lemma {:induction false} LessTransitive(a: string, b: string, c: string)
    requires Less(a, b) && Less(b, c)
    ensures Less(a, c)
  {
    if a != [] && a[0] == b[0] == c[0] {
      LessTransitive(a[1..], b[1..], c[1..]);
    }
  }

  function Elements(s: seq<string>): set<string> { set x | x in s }

  lemma ElementsOfNext(s: seq<string>, i: nat)
    requires i < |s|
    ensures Elements(s[..i + 1]) == Elements(s[..i]) + {s[i]}
  {
    assert s[..i + 1] == s[..i] + [s[i]];
  }

  predicate Sorted(s: seq<string>) {
    forall i, j :: 0 <= i < j < |s| ==> Less(s[i], s[j])
  }

  function Insert(x: string, s: seq<string>): seq<string> {
    if s == [] || Less(x, s[0]) then [x] + s else [s[0]] + Insert(x, s[1..])
  }

  function SortStrings(s: seq<string>): seq<string> {
    if s == [] then [] else Insert(s[0], SortStrings(s[1..]))
  }

  lemma {:induction false} InsertSorts(x: string, s: seq<string>)
    requires Sorted(s) && x !in s
    ensures Sorted(Insert(x, s)) && forall y :: y in Insert(x, s) <==> y == x || y in s
  {
    if s != [] {
      LessTotal(x, s[0]);
      if Less(x, s[0]) {
        forall j | 0 <= j < |s|
          ensures Less(x, s[j])
        {
          if j > 0 {
            LessTransitive(x, s[0], s[j]);
          }
        }
      } else {
        InsertSorts(x, s[1..]);
        var t := Insert(x, s[1..]);
        forall j | 0 <= j < |t|
          ensures Less(s[0], t[j])
        {
          assert t[j] in t;
        }
      }
    }
  }

  predicate Distinct(s: seq<string>) {
    forall i, j :: 0 <= i < j < |s| ==> s[i] != s[j]
  }

  lemma {:induction false} SortSorts(s: seq<string>)
    requires Distinct(s)
    ensures Sorted(SortStrings(s)) && forall y :: y in SortStrings(s) <==> y in s
  {
    if s != [] {
      SortSorts(s[1..]);
      assert s[0] !in s[1..];
      InsertSorts(s[0], SortStrings(s[1..]));
    }
  }
}
