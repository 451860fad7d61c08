/** Permutations under filter and map, and the stable sort that `sort_by_key` performs. */
module Sorting {
  import opened Prelude

  lemma {:induction false} FilterCount<T(!new)>(p: T -> bool, s: seq<T>, x: T)
    ensures multiset(Filter(p, s))[x] == if p(x) then multiset(s)[x] else 0
  {
    if s != [] {
      var n := |s| - 1;
      FilterCount(p, s[..n], x);
      assert s == s[..n] + [s[n]];
    }
  }

  lemma FilterPermutation<T(!new)>(p: T -> bool, a: seq<T>, b: seq<T>)
    requires Permutation(a, b)
    ensures Permutation(Filter(p, a), Filter(p, b))
  {
    forall x ensures multiset(Filter(p, a))[x] == multiset(Filter(p, b))[x] {
      FilterCount(p, a, x);
      FilterCount(p, b, x);
    }
  }

  lemma FilterAppend<T(!new)>(p: T -> bool, a: seq<T>, x: T)
    ensures Filter(p, a + [x]) == Filter(p, a) + (if p(x) then [x] else [])
  {
    assert (a + [x])[..|a|] == a;
  }

  lemma {:induction false} FilterConcat<T(!new)>(p: T -> bool, a: seq<T>, b: seq<T>)
    ensures Filter(p, a + b) == Filter(p, a) + Filter(p, b)
  {
    if b == [] {
      assert a + b == a;
    } else {
      var n := |b| - 1;
      assert (a + b)[..|a| + n] == a + b[..n];
      FilterConcat(p, a, b[..n]);
    }
  }

  lemma WithoutAt<T>(s: seq<T>, i: nat)
    requires i < |s|
    ensures multiset(s) == multiset(s[..i] + s[i + 1..]) + multiset{s[i]}
  {
    assert s == s[..i] + [s[i]] + s[i + 1..];
  }

  /** Taking the same element out of both keeps a permutation. */
  lemma PermutationWithout<T>(a: seq<T>, b: seq<T>, i: nat, j: nat)
    requires Permutation(a, b) && i < |a| && j < |b| && a[i] == b[j]
    ensures Permutation(a[..i] + a[i + 1..], b[..j] + b[j + 1..])
  {
    WithoutAt(a, i);
    WithoutAt(b, j);
    assert multiset(a[..i] + a[i + 1..]) == multiset(a) - multiset{a[i]};
    assert multiset(b[..j] + b[j + 1..]) == multiset(b) - multiset{b[j]};
  }

  lemma {:induction false} MapPermutation<T, U>(f: T -> U, a: seq<T>, b: seq<T>)
    requires Permutation(a, b)
    ensures Permutation(Map(f, a), Map(f, b))
    decreases |a|
  {
    assert |multiset(a)| == |multiset(b)|;
    if a != [] {
      var n := |a| - 1;
      var x := a[n];
      assert x in multiset(b);
      var j :| 0 <= j < |b| && b[j] == x;
      var rest := b[..j] + b[j + 1..];
      PermutationWithout(a, b, n, j);
      assert a[..n] + a[n + 1..] == a[..n];
      MapPermutation(f, a[..n], rest);
      WithoutAt(Map(f, a), n);
      WithoutAt(Map(f, b), j);
      assert Map(f, a)[..n] + Map(f, a)[n + 1..] == Map(f, a[..n]);
      assert Map(f, b)[..j] + Map(f, b)[j + 1..] == Map(f, rest);
    }
  }

  function FlatMap<T, U>(f: T -> seq<U>, s: seq<T>): seq<U> {
    if s == [] then [] else FlatMap(f, s[..|s| - 1]) + f(s[|s| - 1])
  }

  lemma {:induction false} FlatMapSplit<T, U>(f: T -> seq<U>, a: seq<T>, b: seq<T>)
    ensures FlatMap(f, a + b) == FlatMap(f, a) + FlatMap(f, b)
  {
    if b == [] {
      assert a + b == a;
    } else {
      var n := |b| - 1;
      assert (a + b)[..|a| + n] == a + b[..n];
      FlatMapSplit(f, a, b[..n]);
    }
  }

  lemma {:induction false} FlatMapPermutation<T, U>(f: T -> seq<U>, a: seq<T>, b: seq<T>)
    requires Permutation(a, b)
    ensures Permutation(FlatMap(f, a), FlatMap(f, b))
    decreases |a|
  {
    assert |multiset(a)| == |multiset(b)|;
    if a != [] {
      var n := |a| - 1;
      var x := a[n];
      assert x in multiset(b);
      var j :| 0 <= j < |b| && b[j] == x;
      var rest := b[..j] + b[j + 1..];
      PermutationWithout(a, b, n, j);
      assert a[..n] + a[n + 1..] == a[..n];
      FlatMapPermutation(f, a[..n], rest);
      FlatMapAround(f, b, j);
    }
  }

  lemma FlatMapAround<T, U>(f: T -> seq<U>, s: seq<T>, j: nat)
    requires j < |s|
    ensures multiset(FlatMap(f, s)) == multiset(FlatMap(f, s[..j] + s[j + 1..])) + multiset(f(s[j]))
  {
    var before, x, after := s[..j], s[j], s[j + 1..];
    assert s == before + ([x] + after);
    FlatMapSplit(f, before, [x] + after);
    FlatMapSplit(f, [x], after);
    FlatMapSplit(f, before, after);
    FlatMapSingle(f, x);
    var p, q, r := FlatMap(f, before), f(x), FlatMap(f, after);
    assert FlatMap(f, s) == p + (q + r);
    assert multiset(p + (q + r)) == multiset(p + r) + multiset(q);
  }

  lemma FlatMapSingle<T, U>(f: T -> seq<U>, x: T)
    ensures FlatMap(f, [x]) == f(x)
  {
    assert [x][..0] == [];
    assert FlatMap(f, [x]) == [] + f(x);
  }

  lemma {:induction false} FlatMapHas<T, U>(f: T -> seq<U>, s: seq<T>, x: U)
    ensures x in FlatMap(f, s) <==> exists y :: y in s && x in f(y)
  {
    if s != [] {
      var n := |s| - 1;
      FlatMapHas(f, s[..n], x);
      assert forall y :: y in s <==> y in s[..n] || y == s[n];
    }
  }

  // ---- sorting ------------------------------------------------------------------------------

  ghost predicate TotalOrder<K(!new)>(le: (K, K) -> bool) {
    && (forall a, b :: le(a, b) || le(b, a))
    && (forall a, b :: le(a, b) && le(b, a) ==> a == b)
    && (forall a, b, c :: le(a, b) && le(b, c) ==> le(a, c))
  }

  ghost predicate SortedBy<T, K>(key: T -> K, le: (K, K) -> bool, s: seq<T>) {
    forall i, j :: 0 <= i < j < |s| ==> le(key(s[i]), key(s[j]))
  }

  /** `x` goes after the last element whose key is not greater. */
  function Insert<T, K>(key: T -> K, le: (K, K) -> bool, s: seq<T>, x: T): (r: seq<T>)
    ensures |r| == |s| + 1
  {
    if s == [] then [x]
    else if le(key(s[|s| - 1]), key(x)) then s + [x]
    else Insert(key, le, s[..|s| - 1], x) + [s[|s| - 1]]
  }

  function StableSort<T, K>(key: T -> K, le: (K, K) -> bool, s: seq<T>): (r: seq<T>)
    ensures |r| == |s|
  {
    if s == [] then [] else Insert(key, le, StableSort(key, le, s[..|s| - 1]), s[|s| - 1])
  }

  lemma {:induction false} InsertPermutes<T, K>(key: T -> K, le: (K, K) -> bool, s: seq<T>, x: T)
    ensures multiset(Insert(key, le, s, x)) == multiset(s) + multiset{x}
  {
    if s != [] && !le(key(s[|s| - 1]), key(x)) {
      InsertPermutes(key, le, s[..|s| - 1], x);
      assert s == s[..|s| - 1] + [s[|s| - 1]];
    }
  }

  lemma {:induction false} SortPermutes<T, K>(key: T -> K, le: (K, K) -> bool, s: seq<T>)
    ensures Permutation(StableSort(key, le, s), s)
  {
    if s != [] {
      var n := |s| - 1;
      SortPermutes(key, le, s[..n]);
      InsertPermutes(key, le, StableSort(key, le, s[..n]), s[n]);
      assert s == s[..n] + [s[n]];
    }
  }

  /** What is inserted below an element stays below it. */
  lemma InsertBelow<T(!new), K(!new)>(key: T -> K, le: (K, K) -> bool, s: seq<T>, x: T, top: T, i: nat)
    requires forall k :: 0 <= k < |s| ==> le(key(s[k]), key(top))
    requires le(key(x), key(top)) && i < |Insert(key, le, s, x)|
    ensures le(key(Insert(key, le, s, x)[i]), key(top))
  {
    InsertPermutes(key, le, s, x);
    var y := Insert(key, le, s, x)[i];
    assert y in multiset(s) + multiset{x};
    if y != x {
      assert y in s;
    }
  }

  lemma {:induction false} InsertSorts<T(!new), K(!new)>(key: T -> K, le: (K, K) -> bool, s: seq<T>, x: T)
    requires TotalOrder(le) && SortedBy(key, le, s)
    ensures SortedBy(key, le, Insert(key, le, s, x))
  {
    if s != [] {
      var n := |s| - 1;
      if !le(key(s[n]), key(x)) {
        InsertSorts(key, le, s[..n], x);
        var inner := Insert(key, le, s[..n], x);
        forall i | 0 <= i < |inner| ensures le(key(inner[i]), key(s[n])) {
          InsertBelow(key, le, s[..n], x, s[n], i);
        }
      }
    }
  }

  lemma {:induction false} SortSorts<T(!new), K(!new)>(key: T -> K, le: (K, K) -> bool, s: seq<T>)
    requires TotalOrder(le)
    ensures SortedBy(key, le, StableSort(key, le, s))
  {
    if s != [] {
      SortSorts(key, le, s[..|s| - 1]);
      InsertSorts(key, le, StableSort(key, le, s[..|s| - 1]), s[|s| - 1]);
    }
  }

  function HasKey<T, K(==)>(key: T -> K, k: K): T -> bool {
    x => key(x) == k
  }

  lemma {:induction false} InsertStable<T(!new), K(!new)>(key: T -> K, le: (K, K) -> bool, s: seq<T>, x: T, k: K)
    requires TotalOrder(le) && SortedBy(key, le, s)
    ensures Filter(HasKey(key, k), Insert(key, le, s, x)) == Filter(HasKey(key, k), s + [x])
  {
    var p := HasKey(key, k);
    FilterAppend(p, s, x);
    if s != [] {
      var n := |s| - 1;
      if !le(key(s[n]), key(x)) {
        InsertStable(key, le, s[..n], x, k);
        FilterAppend(p, s[..n], x);
        FilterAppend(p, Insert(key, le, s[..n], x), s[n]);
        assert key(s[n]) != key(x);
      }
    }
  }

  /** Elements with one key keep their order. */
  lemma {:induction false} SortStable<T(!new), K(!new)>(key: T -> K, le: (K, K) -> bool, s: seq<T>, k: K)
    requires TotalOrder(le)
    ensures Filter(HasKey(key, k), StableSort(key, le, s)) == Filter(HasKey(key, k), s)
  {
    if s != [] {
      var n := |s| - 1;
      var before := StableSort(key, le, s[..n]);
      SortStable(key, le, s[..n], k);
      SortSorts(key, le, s[..n]);
      InsertStable(key, le, before, s[n], k);
      FilterAppend(HasKey(key, k), before, s[n]);
      FilterAppend(HasKey(key, k), s[..n], s[n]);
      assert s == s[..n] + [s[n]];
    }
  }

  /** A sorted sequence is determined by its elements when equal keys mean equal elements. */
  lemma {:induction false} SortedUnique<T(!new), K(!new)>(key: T -> K, le: (K, K) -> bool, a: seq<T>, b: seq<T>)
    requires TotalOrder(le) && SortedBy(key, le, a) && SortedBy(key, le, b)
    requires Permutation(a, b)
    requires forall x, y :: x in a && y in a && key(x) == key(y) ==> x == y
    ensures a == b
    decreases |a|
  {
    PermutationMembers(a, b);
    if a != [] {
      var n := |a| - 1;
      var x, y := a[n], b[n];
      assert x in b && y in a;
      var i :| 0 <= i < |b| && b[i] == x;
      var j :| 0 <= j < |a| && a[j] == y;
      assert le(key(x), key(y)) && le(key(y), key(x));
      PermutationWithout(a, b, n, n);
      assert a == a[..n] + [x] && b == b[..n] + [x];
      assert a[..n] + a[n + 1..] == a[..n] && b[..n] + b[n + 1..] == b[..n];
      SortedUnique(key, le, a[..n], b[..n]);
    }
  }

  // ---- the order of strings -----------------------------------------------------------------

  /** Lexicographic by code point, which is the order of Rust strings. */
  predicate TextLe(a: string, b: string) {
    if a == "" then true
    else if b == "" then false
    else if a[0] != b[0] then a[0] < b[0]
    else TextLe(a[1..], b[1..])
  }

  lemma {:induction false} TextTotal(a: string, b: string)
    ensures TextLe(a, b) || TextLe(b, a)
    ensures TextLe(a, b) && TextLe(b, a) ==> a == b
  {
    if a != "" && b != "" && a[0] == b[0] {
      TextTotal(a[1..], b[1..]);
      assert a == [a[0]] + a[1..] && b == [b[0]] + b[1..];
    }
  }

  lemma {:induction false} TextTransitive(a: string, b: string, c: string)
    requires TextLe(a, b) && TextLe(b, c)
    ensures TextLe(a, c)
  {
    if a != "" && b != "" && c != "" && a[0] == b[0] == c[0] {
      TextTransitive(a[1..], b[1..], c[1..]);
    }
  }

  lemma TextOrder()
    ensures TotalOrder(TextLe)
  {
    forall a, b ensures TextLe(a, b) || TextLe(b, a) ensures TextLe(a, b) && TextLe(b, a) ==> a == b {
      TextTotal(a, b);
    }
    forall a, b, c ensures TextLe(a, b) && TextLe(b, c) ==> TextLe(a, c) {
      if TextLe(a, b) && TextLe(b, c) {
        TextTransitive(a, b, c);
      }
    }
  }

  /** At the first place where the texts differ, the first one has the smaller character or has ended. */
  lemma {:induction false} TextLeMeans(a: string, b: string)
    ensures TextLe(a, b) <==> a <= b || exists n :: 0 <= n < |a| && n < |b| && a[..n] == b[..n] && a[n] < b[n]
  {
    if a != "" && b != "" && a[0] == b[0] {
      var c, d := a[1..], b[1..];
      TextLeMeans(c, d);
      assert a == [a[0]] + c && b == [a[0]] + d;
      if n :| 0 <= n < |c| && n < |d| && c[..n] == d[..n] && c[n] < d[n] {
        assert a[..n + 1] == [a[0]] + c[..n] && b[..n + 1] == [a[0]] + d[..n] && a[n + 1] < b[n + 1];
      }
      if n :| 0 <= n < |a| && n < |b| && a[..n] == b[..n] && a[n] < b[n] {
        assert n > 0;
        assert c[..n - 1] == a[..n][1..] && d[..n - 1] == b[..n][1..];
      }
    } else if a != "" && b != "" {
      if a[0] < b[0] {
        assert a[..0] == b[..0];
      }
      forall n | 0 < n < |a| && n < |b| ensures a[..n] != b[..n] {
        assert a[..n][0] != b[..n][0];
      }
    }
  }

  /** Pairs of strings, first component first. */
  predicate PairLe(a: (string, string), b: (string, string)) {
    if a.0 != b.0 then TextLe(a.0, b.0) else TextLe(a.1, b.1)
  }

  lemma PairOrder()
    ensures TotalOrder(PairLe)
  {
    forall a, b ensures PairLe(a, b) || PairLe(b, a) ensures PairLe(a, b) && PairLe(b, a) ==> a == b {
      TextTotal(a.0, b.0);
      TextTotal(a.1, b.1);
    }
    forall a, b, c ensures PairLe(a, b) && PairLe(b, c) ==> PairLe(a, c) {
      if PairLe(a, b) && PairLe(b, c) {
        PairTransitive(a, b, c);
      }
    }
  }

  lemma PairTransitive(a: (string, string), b: (string, string), c: (string, string))
    requires PairLe(a, b) && PairLe(b, c)
    ensures PairLe(a, c)
  {
    if a.0 == b.0 == c.0 {
      TextTransitive(a.1, b.1, c.1);
    } else if a.0 != b.0 && b.0 != c.0 {
      TextTransitive(a.0, b.0, c.0);
      TextTotal(a.0, b.0);
      TextTotal(b.0, c.0);
    }
  }

  // ---- keys in order ------------------------------------------------------------------------

  predicate IsLeast(k: (string, string), keys: set<(string, string)>) {
    k in keys && forall j :: j in keys ==> PairLe(k, j)
  }

  /** The first key of a `BTreeMap` with pairs of strings as keys. */
  function Least(keys: set<(string, string)>): (k: (string, string))
    requires keys != {}
    ensures IsLeast(k, keys)
  {
    PairOrder();
    LeastExists(keys);
    var k :| IsLeast(k, keys);
    k
  }

  lemma {:induction false} LeastExists(keys: set<(string, string)>)
    requires keys != {}
    ensures exists k :: IsLeast(k, keys)
    decreases keys
  {
    PairOrder();
    var k :| k in keys;
    var rest := keys - {k};
    assert forall j :: j in keys ==> j == k || j in rest;
    if rest == {} {
      assert IsLeast(k, keys);
    } else {
      LeastExists(rest);
      var m :| IsLeast(m, rest);
      assert IsLeast(if PairLe(k, m) then k else m, keys);
    }
  }

  /** The keys of a `BTreeMap` as it lists them. */
  function InOrder(keys: set<(string, string)>): (listed: seq<(string, string)>)
    ensures forall k :: k in listed <==> k in keys
    decreases keys
  {
    if keys == {} then [] else
      var k := Least(keys);
      var rest := InOrder(keys - {k});
      assert forall j :: j in [k] + rest <==> j == k || j in rest;
      [k] + rest
  }

  /** The keys come in strictly ascending order: by the first text, and by the second where the first are equal. */
  lemma {:induction false} InOrderAscends(keys: set<(string, string)>, i: nat, j: nat)
    requires i < j < |InOrder(keys)|
    ensures var k, m := InOrder(keys)[i], InOrder(keys)[j];
            k != m && if k.0 == m.0 then TextLe(k.1, m.1) else TextLe(k.0, m.0)
    decreases keys
  {
    var least := Least(keys);
    var rest := InOrder(keys - {least});
    assert InOrder(keys) == [least] + rest;
    if i == 0 {
      assert rest[j - 1] in rest;
    } else {
      InOrderAscends(keys - {least}, i - 1, j - 1);
    }
  }
}
