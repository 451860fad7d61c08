/**
 Why one check at the end of a sum of doubles is enough. A sum of counts is built by rounded
 additions (IEEE 754, roundTiesToEven) and only the final total is checked for being a safe
 integer. Counts are natural numbers, so only non-negative doubles occur.
 */
module SafeInteger {
  import opened Prelude

  /** 2^53: below it every natural number is a double. */
  const SIGNIFICAND: nat := 0x20_0000_0000_0000

  const MAX_SAFE_INTEGER: nat := SIGNIFICAND - 1

  /** The largest finite double is (2^53 - 1) * 2^971. */
  const MAX_EXPONENT: nat := 971

  datatype Double = Finite(value: nat) | Infinite

  function Pow2(e: nat): nat {
    if e == 0 then 1 else 2 * Pow2(e - 1)
  }

  /** The exponent of the last place of a double near `n`. */
  function Exponent(n: nat): nat {
    if n < SIGNIFICAND then 0 else 1 + Exponent(n / 2)
  }

  /** The nearest number with 53 significant bits; of two equally near, the one with the even significand. */
  function Nearest(n: nat): nat {
    var ulp := Pow2(Exponent(n));
    PowPositive(Exponent(n));
    var q, r := n / ulp, n % ulp;
    if 2 * r > ulp || (2 * r == ulp && q % 2 == 1) then (q + 1) * ulp else q * ulp
  }

  function Round(n: nat): Double {
    if Exponent(Nearest(n)) > MAX_EXPONENT then Infinite else Finite(Nearest(n))
  }

  function Add(x: Double, leaf: nat): Double {
    if x.Infinite? then Infinite else Round(x.value + leaf)
  }

  /** `reduce((sum, value) => sum + value, 0)`. */
  function FloatSum(leaves: seq<nat>): Double {
    if leaves == [] then Finite(0) else Add(FloatSum(leaves[..|leaves| - 1]), leaves[|leaves| - 1])
  }

  function ExactSum(leaves: seq<nat>): nat {
    if leaves == [] then 0 else ExactSum(leaves[..|leaves| - 1]) + leaves[|leaves| - 1]
  }

  predicate IsSafeInteger(x: Double) {
    x.Finite? && x.value <= MAX_SAFE_INTEGER
  }

  // ---- rounding -----------------------------------------------------------------------------

  lemma PowPositive(e: nat)
    ensures Pow2(e) >= 1
    ensures e > 0 ==> Pow2(e) >= 2
  {
  }

  lemma {:induction false} ExponentBounds(n: nat)
    ensures n < SIGNIFICAND * Pow2(Exponent(n))
    ensures Exponent(n) > 0 ==> SIGNIFICAND / 2 * Pow2(Exponent(n)) <= n
  {
    if n >= SIGNIFICAND {
      ExponentBounds(n / 2);
      var p := Pow2(Exponent(n / 2));
      assert Pow2(Exponent(n)) == 2 * p;
      assert n / 2 < SIGNIFICAND * p;
    }
  }

  lemma DivisionFacts(n: nat, d: nat)
    requires d > 0
    ensures n == n / d * d + n % d && n % d < d
  {
  }

  lemma QuotientAtLeast(n: nat, d: nat, k: nat)
    requires d > 0 && k * d <= n
    ensures n / d >= k
  {
    DivisionFacts(n, d);
    assert (n / d + 1) * d == n / d * d + d;
    SmallerFactor(k, n / d + 1, d);
  }

  lemma SmallerFactor(a: nat, b: nat, d: nat)
    requires a * d < b * d
    ensures a < b
  {
    if b <= a {
      MulMonotone(b, a, d);
    }
  }

  lemma MulMonotone(a: nat, b: nat, c: nat)
    requires a <= b
    ensures a * c <= b * c
  {
  }

  /** Rounding leaves safe integers alone. */
  lemma RoundExact(n: nat)
    requires n <= MAX_SAFE_INTEGER
    ensures Round(n) == Finite(n)
  {
    assert Exponent(n) == 0;
    assert n / 1 == n;
  }

  /** Rounding never brings a larger number back into the safe range. */
  lemma RoundStaysLarge(n: nat)
    requires n > MAX_SAFE_INTEGER
    ensures !IsSafeInteger(Round(n))
  {
    var e := Exponent(n);
    var ulp := Pow2(e);
    ExponentBounds(n);
    PowPositive(e);
    QuotientAtLeast(n, ulp, SIGNIFICAND / 2);
    MulMonotone(SIGNIFICAND / 2, n / ulp, ulp);
    assert SIGNIFICAND <= n / ulp * ulp;
    assert (n / ulp + 1) * ulp == n / ulp * ulp + ulp;
  }

  /** The numbers with 53 significant bits. */
  ghost predicate Representable(m: nat) {
    exists q: nat, e: nat :: q < SIGNIFICAND && IsScaled(m, q, e)
  }

  ghost predicate IsScaled(m: nat, q: nat, e: nat) {
    m == q * Pow2(e)
  }

  lemma NearestRepresentable(n: nat)
    ensures Representable(Nearest(n))
  {
    var e := Exponent(n);
    var ulp := Pow2(e);
    ExponentBounds(n);
    PowPositive(e);
    var q := n / ulp;
    DivisionFacts(n, ulp);
    if q >= SIGNIFICAND {
      MulMonotone(SIGNIFICAND, q, ulp);
    }
    if q + 1 < SIGNIFICAND {
      assert IsScaled(q * ulp, q, e) && IsScaled((q + 1) * ulp, q + 1, e);
    } else {
      assert IsScaled(q * ulp, q, e);
      assert (q + 1) * ulp == SIGNIFICAND / 2 * Pow2(e + 1);
      assert IsScaled((q + 1) * ulp, SIGNIFICAND / 2, e + 1);
    }
  }

  function Distance(a: nat, b: nat): nat {
    if a < b then b - a else a - b
  }

  /** `Nearest` has 53 significant bits and is at least as near as any other such number. */
  lemma NearestIsNearest(n: nat, m: nat)
    ensures Representable(Nearest(n))
    ensures Representable(m) ==> Distance(n, Nearest(n)) <= Distance(n, m)
  {
    NearestRepresentable(n);
    if Representable(m) {
      NoneIsNearer(n, m);
    }
  }

  lemma NoneIsNearer(n: nat, m: nat)
    requires Representable(m)
    ensures Distance(n, Nearest(n)) <= Distance(n, m)
  {
    var e := Exponent(n);
    var ulp := Pow2(e);
    ExponentBounds(n);
    PowPositive(e);
    DivisionFacts(n, ulp);
    var low := n / ulp * ulp;
    assert (n / ulp + 1) * ulp == low + ulp;
    if e > 0 {
      QuotientAtLeast(n, ulp, SIGNIFICAND / 2);
      MulMonotone(SIGNIFICAND / 2, n / ulp, ulp);
      if m >= SIGNIFICAND / 2 * ulp {
        var k := MultipleOfUlp(m, e);
        NoneBetween(k, n / ulp, ulp);
      }
    }
  }

  lemma BelowUlps(q: nat, f: nat, e: nat)
    requires q < SIGNIFICAND && f < e
    ensures q * Pow2(f) < SIGNIFICAND / 2 * Pow2(e)
  {
    PowPositive(f);
    PowMonotone(f + 1, e);
    MulMonotone(Pow2(f + 1), Pow2(e), SIGNIFICAND / 2);
    MulMonotone(q + 1, SIGNIFICAND, Pow2(f));
    assert (q + 1) * Pow2(f) == q * Pow2(f) + Pow2(f);
  }

  /** `Nearest` in terms of the multiple of the last place below `n` and what is left over. */
  lemma NearestParts(n: nat, ulp: nat, low: nat) returns (floor: nat, left: nat)
    requires ulp == Pow2(Exponent(n)) && ulp > 0 && low == n / ulp
    ensures floor == low * ulp && floor + ulp == (low + 1) * ulp
    ensures n == floor + left && left < ulp
    ensures Nearest(n) == if 2 * left > ulp || (2 * left == ulp && low % 2 == 1) then floor + ulp else floor
  {
    DivisionFacts(n, ulp);
    floor, left := low * ulp, n % ulp;
    assert floor + ulp == (low + 1) * ulp;
  }

  /** A sum becomes infinite exactly when it rounds beyond the largest double, (2^53 - 1) * 2^971. */
  lemma OverflowMeans(n: nat, top: nat)
    requires top == 971
    ensures Round(n).Infinite? <==> Nearest(n) > (0x20_0000_0000_0000 - 1) * Pow2(top)
  {
    var m := Nearest(n);
    var e := Exponent(m);
    ExponentBounds(m);
    NearestRepresentable(n);
    PowPositive(top);
    if e > top {
      PowMonotone(top + 1, e);
      assert Pow2(top + 1) == 2 * Pow2(top);
      MulMonotone(2 * Pow2(top), Pow2(e), SIGNIFICAND / 2);
    } else {
      AtMostTop(m, e, top);
    }
  }

  lemma AtMostTop(m: nat, e: nat, top: nat)
    requires e <= top && m < SIGNIFICAND * Pow2(e) && Representable(m) && (e > 0 ==> SIGNIFICAND / 2 * Pow2(e) <= m)
    ensures m <= (SIGNIFICAND - 1) * Pow2(top)
  {
    PowMonotone(e, top);
    PowPositive(e);
    if e == 0 {
      MulMonotone(1, Pow2(top), SIGNIFICAND - 1);
    } else {
      var k := MultipleOfUlp(m, e);
      if k >= SIGNIFICAND {
        MulMonotone(SIGNIFICAND, k, Pow2(e));
      }
      MulMonotone(k, SIGNIFICAND - 1, Pow2(e));
      MulMonotone(Pow2(e), Pow2(top), SIGNIFICAND - 1);
    }
  }

  /** Half-way cases go to the even significand. */
  lemma TieGoesToEven(n: nat) returns (q: nat)
    ensures Nearest(n) == q * Pow2(Exponent(n))
    ensures 2 * Distance(n, Nearest(n)) == Pow2(Exponent(n)) ==> q % 2 == 0
    ensures 2 * Distance(n, Nearest(n)) <= Pow2(Exponent(n))
  {
    var ulp := Pow2(Exponent(n));
    PowPositive(Exponent(n));
    var low := n / ulp;
    var floor, left := NearestParts(n, ulp, low);
    q := if Nearest(n) == floor then low else low + 1;
    Halfway(n, ulp, floor, left, low, Nearest(n));
  }

  lemma Halfway(n: nat, ulp: nat, floor: nat, left: nat, low: nat, near: nat)
    requires n == floor + left && left < ulp
    requires near == if 2 * left > ulp || (2 * left == ulp && low % 2 == 1) then floor + ulp else floor
    ensures 2 * Distance(n, near) <= ulp
    ensures 2 * Distance(n, near) == ulp ==> (if near == floor then low else low + 1) % 2 == 0
  {
  }

  /** At or above the first number with exponent `e`, 53 significant bits leave only multiples of the last place. */
  lemma MultipleOfUlp(m: nat, e: nat) returns (k: nat)
    requires Representable(m) && m >= SIGNIFICAND / 2 * Pow2(e)
    ensures m == k * Pow2(e)
  {
    var q: nat, f: nat :| q < SIGNIFICAND && IsScaled(m, q, f);
    PowPositive(f);
    if f < e {
      BelowUlps(q, f, e);
    }
    PowSplit(f - e, e);
    k := q * Pow2(f - e);
    assert q * (Pow2(f - e) * Pow2(e)) == q * Pow2(f - e) * Pow2(e);
  }

  lemma {:induction false} PowMonotone(a: nat, b: nat)
    requires a <= b
    ensures Pow2(a) <= Pow2(b)
    decreases b
  {
    if a < b {
      PowMonotone(a, b - 1);
      PowPositive(b - 1);
    }
  }

  lemma {:induction false} PowSplit(a: nat, b: nat)
    ensures Pow2(a + b) == Pow2(a) * Pow2(b)
  {
    if a > 0 {
      PowSplit(a - 1, b);
    }
  }

  /** A multiple of `d` is at most `q * d` or at least `(q + 1) * d`. */
  lemma NoneBetween(k: nat, q: nat, d: nat)
    ensures k * d <= q * d || k * d >= q * d + d
  {
    if k <= q {
      MulMonotone(k, q, d);
    } else {
      MulMonotone(q + 1, k, d);
      assert (q + 1) * d == q * d + d;
    }
  }

  // ---- the sum ------------------------------------------------------------------------------

  /**
   The one check on the final total suffices: it passes exactly when the exact sum is a safe
   integer, and then the total is that sum, whatever was rounded on the runs it rejects.
   */
  lemma {:induction false} OneCheckSuffices(leaves: seq<nat>)
    ensures IsSafeInteger(FloatSum(leaves)) <==> ExactSum(leaves) <= 9_007_199_254_740_991
    ensures IsSafeInteger(FloatSum(leaves)) ==> FloatSum(leaves) == Finite(ExactSum(leaves))
  {
    if leaves != [] {
      var before, leaf := leaves[..|leaves| - 1], leaves[|leaves| - 1];
      OneCheckSuffices(before);
      var total := FloatSum(before);
      if total.Finite? {
        if total.value + leaf <= MAX_SAFE_INTEGER {
          RoundExact(total.value + leaf);
        } else {
          RoundStaysLarge(total.value + leaf);
        }
      }
    }
  }

  /** Rounding does happen on the way to a rejection: 2^53 - 1, 1 and 1 add up to 2^53. */
  lemma RejectedSumMayBeRounded()
    ensures var leaves := [MAX_SAFE_INTEGER, 1, 1];
            ExactSum(leaves) == SIGNIFICAND + 1 && FloatSum(leaves) == Finite(SIGNIFICAND)
  {
    var a, b, c := [MAX_SAFE_INTEGER], [MAX_SAFE_INTEGER, 1], [MAX_SAFE_INTEGER, 1, 1];
    assert a[..0] == [] && b[..1] == a && c[..2] == b;
    assert FloatSum(a) == Finite(MAX_SAFE_INTEGER) by {
      RoundExact(MAX_SAFE_INTEGER);
    }
    assert Exponent(SIGNIFICAND) == 1 + Exponent(SIGNIFICAND / 2) == 1;
    assert Exponent(SIGNIFICAND + 1) == 1 + Exponent(SIGNIFICAND / 2) == 1;
    assert Pow2(1) == 2 * Pow2(0) == 2;
    assert Nearest(SIGNIFICAND) == SIGNIFICAND && Nearest(SIGNIFICAND + 1) == SIGNIFICAND;
    assert Round(SIGNIFICAND) == Round(SIGNIFICAND + 1) == Finite(SIGNIFICAND);
    assert FloatSum(b) == Add(FloatSum(a), 1) == Finite(SIGNIFICAND);
    assert FloatSum(c) == Add(FloatSum(b), 1);
    assert ExactSum(a) == MAX_SAFE_INTEGER && ExactSum(b) == ExactSum(a) + 1 && ExactSum(c) == ExactSum(b) + 1;
  }

  /** One token field of a rollup: absent without observations, refused outside the safe range. */
  method TokenTotal(observed: seq<nat>) returns (total: Result<Option<nat>, string>)
    ensures observed == [] ==> total == Ok(None)
    ensures observed != [] && ExactSum(observed) <= 9_007_199_254_740_991 ==> total == Ok(Some(ExactSum(observed)))
    ensures observed != [] && ExactSum(observed) > 9_007_199_254_740_991 ==> total.Err?
  {
    if observed == [] {
      return Ok(None);
    }
    var sum := Finite(0);
    for i := 0 to |observed|
      invariant sum == FloatSum(observed[..i])
    {
      assert observed[..i + 1][..i] == observed[..i];
      sum := Add(sum, observed[i]);
    }
    assert observed[..|observed|] == observed;
    OneCheckSuffices(observed);
    if !IsSafeInteger(sum) {
      return Err("rollup exceeds the JavaScript safe-integer range");
    }
    return Ok(Some(sum.value));
  }
}
