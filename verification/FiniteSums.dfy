/** Sums over finite maps and sequences. */
module FiniteSums {
  import opened Prelude
  import opened Sorting

  ghost function Sum<K(!new)>(m: map<K, nat>): nat
    decreases m.Keys
  {
    if m == map[] then 0 else
      var k :| k in m;
      assert (m - {k}).Keys == m.Keys - {k};
      m[k] + Sum(m - {k})
  }

  lemma {:induction false} SumWithout<K(!new)>(m: map<K, nat>, k: K)
    requires k in m
    ensures Sum(m) == m[k] + Sum(m - {k})
    decreases m.Keys
  {
    var j :| j in m && Sum(m) == m[j] + Sum(m - {j});
    assert (m - {j}).Keys == m.Keys - {j};
    if j != k {
      SumWithout(m - {j}, k);
      var rest := m - {k};
      assert (m - {j}) - {k} == rest - {j};
      assert rest.Keys == m.Keys - {k};
      SumWithout(rest, j);
    }
  }

  lemma SumUpdate<K(!new)>(m: map<K, nat>, k: K, n: nat)
    ensures Sum(m[k := n]) == Sum(m - {k}) + n
  {
    SumWithout(m[k := n], k);
    assert m[k := n] - {k} == m - {k};
  }

  function Count<K>(sizes: map<K, nat>, k: K): nat {
    if k in sizes then sizes[k] else 0
  }

  lemma SumNext<K(!new)>(sizes: map<K, nat>, k: K)
    ensures Sum(sizes[k := Count(sizes, k) + 1]) == Sum(sizes) + 1
  {
    SumUpdate(sizes, k, Count(sizes, k) + 1);
    if k in sizes {
      SumWithout(sizes, k);
    } else {
      assert sizes - {k} == sizes;
    }
  }

  /** A sum falls into the sums of two parts that share no key. */
  lemma {:induction false} SumSplit<K(!new)>(m: map<K, nat>, a: map<K, nat>, b: map<K, nat>)
    requires a.Keys !! b.Keys && m == a + b
    ensures Sum(m) == Sum(a) + Sum(b)
    decreases a.Keys
  {
    if a == map[] {
      assert m == b;
    } else {
      var k :| k in a;
      SumWithout(m, k);
      SumWithout(a, k);
      assert m - {k} == (a - {k}) + b;
      assert (a - {k}).Keys == a.Keys - {k};
      SumSplit(m - {k}, a - {k}, b);
    }
  }

  function Ones<K, V>(m: map<K, V>): map<K, nat> {
    map k | k in m :: 1
  }

  lemma {:induction false} SumOfOnes<K(!new), V>(m: map<K, V>)
    ensures Sum(Ones(m)) == |m|
    decreases m.Keys
  {
    if m != map[] {
      var k :| k in m;
      var rest := m - {k};
      SumWithout(Ones(m), k);
      assert Ones(m) - {k} == Ones(rest);
      assert rest.Keys == m.Keys - {k};
      assert |m.Keys| == |rest.Keys| + 1;
      SumOfOnes(rest);
    }
  }

  /** The part of `m` that belongs to `a`. */
  function Fiber<K, V, A(==)>(m: map<K, V>, of: map<K, A>, a: A): map<K, V> {
    map k | k in m && k in of && of[k] == a :: m[k]
  }

  ghost function FiberSums<K(!new), A(!new)>(m: map<K, nat>, of: map<K, A>, owners: set<A>): map<A, nat> {
    map a | a in owners :: Sum(Fiber(m, of, a))
  }

  /** When every key has one owner, the owners' sums add up to the sum. */
  lemma {:induction false} SumFibers<K(!new), A(!new)>(m: map<K, nat>, of: map<K, A>, owners: set<A>)
    requires forall k :: k in m ==> k in of && of[k] in owners
    ensures Sum(m) == Sum(FiberSums(m, of, owners))
    decreases owners
  {
    if owners == {} {
      assert m == map[] && FiberSums(m, of, owners) == map[];
    } else {
      var a :| a in owners;
      var here, rest := Fiber(m, of, a), map k | k in m && of[k] != a :: m[k];
      assert m == here + rest;
      SumSplit(m, here, rest);
      SumFibers(rest, of, owners - {a});
      SumWithout(FiberSums(m, of, owners), a);
      OtherFibers(m, rest, of, owners, a);
    }
  }

  lemma OtherFibers<K(!new), A(!new)>(m: map<K, nat>, rest: map<K, nat>, of: map<K, A>, owners: set<A>, a: A)
    requires forall k :: k in m ==> k in of
    requires rest == map k | k in m && of[k] != a :: m[k]
    ensures FiberSums(m, of, owners) - {a} == FiberSums(rest, of, owners - {a})
  {
    forall b | b != a ensures Fiber(rest, of, b) == Fiber(m, of, b) {
    }
  }

  function FiberCounts<K, V, A(==)>(m: map<K, V>, of: map<K, A>, owners: set<A>): map<A, nat> {
    map a | a in owners :: |Fiber(m, of, a)|
  }

  /** When every key has one owner, the owners' shares add up to the whole. */
  lemma CountFibers<K(!new), V, A(!new)>(m: map<K, V>, of: map<K, A>, owners: set<A>)
    requires forall k :: k in m ==> k in of && of[k] in owners
    ensures |m| == Sum(FiberCounts(m, of, owners))
  {
    SumOfOnes(m);
    SumFibers(Ones(m), of, owners);
    assert FiberCounts(m, of, owners) == FiberSums(Ones(m), of, owners) by {
      forall a | a in owners ensures Sum(Fiber(Ones(m), of, a)) == |Fiber(m, of, a)| {
        FiberCount(m, of, a);
      }
    }
  }

  lemma FiberCount<K(!new), V, A(!new)>(m: map<K, V>, of: map<K, A>, a: A)
    ensures Sum(Fiber(Ones(m), of, a)) == |Fiber(m, of, a)|
  {
    assert Fiber(Ones(m), of, a) == Ones(Fiber(m, of, a));
    SumOfOnes(Fiber(m, of, a));
  }

  // ---- sums over sequences ------------------------------------------------------------------

  function SumOf<T>(f: T -> nat, s: seq<T>): nat {
    if s == [] then 0 else SumOf(f, s[..|s| - 1]) + f(s[|s| - 1])
  }

  lemma SumOfOne<T>(f: T -> nat, x: T)
    ensures SumOf(f, [x]) == f(x)
  {
    assert [x][..0] == [];
  }

  lemma {:induction false} SumOfSplit<T>(f: T -> nat, a: seq<T>, b: seq<T>)
    ensures SumOf(f, a + b) == SumOf(f, a) + SumOf(f, b)
  {
    if b == [] {
      assert a + b == a;
    } else {
      assert (a + b)[..|a| + |b| - 1] == a + b[..|b| - 1];
      SumOfSplit(f, a, b[..|b| - 1]);
    }
  }

  lemma {:induction false} SumOfSame<T>(f: T -> nat, g: T -> nat, s: seq<T>)
    requires forall x :: x in s ==> f(x) == g(x)
    ensures SumOf(f, s) == SumOf(g, s)
  {
    if s != [] {
      SumOfSame(f, g, s[..|s| - 1]);
    }
  }

  lemma {:induction false} SumOfMap<T, U>(f: U -> nat, g: T -> U, h: T -> nat, s: seq<T>)
    requires forall x :: x in s ==> f(g(x)) == h(x)
    ensures SumOf(f, Map(g, s)) == SumOf(h, s)
  {
    if s != [] {
      SumOfMap(f, g, h, s[..|s| - 1]);
      assert Map(g, s)[..|s| - 1] == Map(g, s[..|s| - 1]);
    }
  }

  function Under<T, U>(f: U -> nat, g: T -> seq<U>): T -> nat {
    x => SumOf(f, g(x))
  }

  lemma {:induction false} SumOfFlat<T, U>(f: U -> nat, g: T -> seq<U>, s: seq<T>)
    ensures SumOf(f, FlatMap(g, s)) == SumOf(Under(f, g), s)
  {
    if s != [] {
      SumOfFlat(f, g, s[..|s| - 1]);
      SumOfSplit(f, FlatMap(g, s[..|s| - 1]), g(s[|s| - 1]));
    }
  }

  lemma {:induction false} SumOfPlus<T>(whole: T -> nat, a: T -> nat, b: T -> nat, c: T -> nat, s: seq<T>)
    requires forall x :: x in s ==> whole(x) == a(x) + b(x) + c(x)
    ensures SumOf(whole, s) == SumOf(a, s) + SumOf(b, s) + SumOf(c, s)
  {
    if s != [] {
      SumOfPlus(whole, a, b, c, s[..|s| - 1]);
    }
  }
}
