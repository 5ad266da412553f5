/** Rounding twice: a quotient of short numbers, rounded to a wide float and then to a
    narrow one, is the quotient rounded once. */
module DoubleRounding {
  import opened Rounding

  /** `x` added `n` times, which is `n * x`. */
  function Copies(n: nat, x: real): real {
    if n == 0 then 0.0 else x + Copies(n - 1, x)
  }

  lemma {:induction false} CopiesTimes(n: nat, x: real)
    ensures Copies(n, x) == n as real * x
  {
    if n > 0 {
      CopiesTimes(n - 1, x);
      OneMore((n - 1) as real, x);
    }
  }

  lemma OneMore(a: real, x: real)
    ensures (a + 1.0) * x == x + a * x
  {
  }

  lemma {:induction false} CopiesDouble(n: nat, x: real)
    ensures Copies(2 * n, x) == 2.0 * Copies(n, x) == Copies(n, 2.0 * x)
  {
    if n > 0 {
      CopiesDouble(n - 1, x);
      assert Copies(2 * n, x) == x + Copies(2 * n - 1, x);
    }
  }

  lemma {:induction false} CopiesMinus(n: nat, x: real, y: real)
    ensures Copies(n, x - y) == Copies(n, x) - Copies(n, y)
  {
    if n > 0 {
      CopiesMinus(n - 1, x, y);
    }
  }

  lemma {:induction false} CopiesLess(n: nat, x: real, y: real)
    requires n > 0 && x < y
    ensures Copies(n, x) < Copies(n, y)
  {
    if n > 1 {
      CopiesLess(n - 1, x, y);
    }
  }

  lemma CopiesOrder(n: nat, x: real, y: real)
    requires n > 0
    ensures x < y <==> Copies(n, x) < Copies(n, y)
  {
    if x < y {
      CopiesLess(n, x, y);
    } else if y < x {
      CopiesLess(n, y, x);
    }
  }

  lemma {:induction false} CopiesGrow(m: nat, n: nat, x: real)
    requires m < n && x > 0.0
    ensures Copies(m, x) < Copies(n, x)
  {
    if m < n - 1 {
      CopiesGrow(m, n - 1, x);
    }
  }

  lemma {:induction false} CopiesOfInt(n: nat, m: int)
    ensures Copies(n, m as real) == (n * m) as real
  {
    if n > 0 {
      CopiesOfInt(n - 1, m);
      assert n * m == m + (n - 1) * m;
    }
  }

  lemma {:induction false} CopiesAtLeast(n: nat, x: real)
    requires x >= 1.0
    ensures Copies(n, x) >= n as real
  {
    if n > 0 {
      CopiesAtLeast(n - 1, x);
    }
  }

  lemma {:induction false} ShiftCopies(x: real, k: nat)
    ensures Shift(x, k) == Copies(Pow2(k), x)
  {
    if k > 0 {
      ShiftCopies(x, k - 1);
      CopiesDouble(Pow2(k - 1), x);
    }
  }

  // ------------------------------------------------------- rounding in a binade

  lemma NearestOfInt(n: int)
    ensures Nearest(n as real) == n
  {
  }

  /** In its binade, borders included, a number is rounded to an integer. */
  lemma RoundInBinade(p: nat, x: real)
    requires p > 0 && Pow2(p - 1) as real <= x <= Pow2(p) as real
    ensures x > 0.0 && Round(p, x) == Nearest(x) as real
  {
    Pow2Positive(p - 1);
    if x == Pow2(p) as real {
      assert Round(p, x) == 2.0 * Round(p, x / 2.0);
      assert x / 2.0 == Pow2(p - 1) as real;
      NearestOfInt(Pow2(p - 1));
      NearestOfInt(Pow2(p));
    }
  }

  function Middle(f: int): real {
    f as real + 0.5
  }

  lemma CopiesOfMiddle(n: nat, f: int)
    ensures 2.0 * Copies(n, Middle(f)) == (n * (2 * f + 1)) as real
  {
    CopiesDouble(n, Middle(f));
    assert 2.0 * Middle(f) == (2 * f + 1) as real;
    CopiesOfInt(n, 2 * f + 1);
  }

  lemma NearestError(y: real)
    ensures -0.5 <= Nearest(y) as real - y <= 0.5
  {
  }

  /** `r` is `x` rounded to a multiple of `1 / w`. */
  predicate RoundedTo(w: nat, x: real, r: real) {
    w > 0 && Copies(w, r) == Nearest(Copies(w, x)) as real
  }

  lemma OddHalf(odd: int, n: int, half: real)
    requires 2.0 * half == odd as real
    ensures n as real < half ==> half - n as real >= 0.5
    ensures n as real > half ==> n as real - half >= 0.5
  {
    var twice := 2 * n;
    assert twice as real == 2.0 * n as real;
    if twice < odd {
      assert (twice + 1) as real <= odd as real;
    } else if twice > odd {
      assert (odd + 1) as real <= twice as real;
    }
  }

  /** A quotient that is not halfway between two integers is away from the middle by
      at least half of one part in its denominator. */
  lemma GapBelow(n: nat, b: nat, x: real, f: int)
    requires b > 0 && Copies(b, x) == n as real && x < Middle(f)
    ensures Copies(b, Middle(f) - x) >= 0.5
  {
    CopiesOrder(b, x, Middle(f));
    CopiesOfMiddle(b, f);
    CopiesMinus(b, Middle(f), x);
    OddHalf(b * (2 * f + 1), n, Copies(b, Middle(f)));
  }

  lemma GapAbove(n: nat, b: nat, x: real, f: int)
    requires b > 0 && Copies(b, x) == n as real && x > Middle(f)
    ensures Copies(b, x - Middle(f)) >= 0.5
  {
    CopiesOrder(b, Middle(f), x);
    CopiesOfMiddle(b, f);
    CopiesMinus(b, x, Middle(f));
    OddHalf(b * (2 * f + 1), n, Copies(b, Middle(f)));
  }

  /** Rounded to multiples of a smaller unit it stays on its side of the middle. */
  lemma SideBelow(n: nat, b: nat, w: nat, x: real, r: real, f: int)
    requires 0 < b < w && Copies(b, x) == n as real && RoundedTo(w, x, r)
    requires x < Middle(f)
    ensures r < Middle(f)
  {
    GapBelow(n, b, x, f);
    CopiesGrow(b, w, Middle(f) - x);
    CopiesMinus(w, Middle(f), x);
    NearestError(Copies(w, x));
    CopiesOrder(w, r, Middle(f));
  }

  lemma SideAbove(n: nat, b: nat, w: nat, x: real, r: real, f: int)
    requires 0 < b < w && Copies(b, x) == n as real && RoundedTo(w, x, r)
    requires x > Middle(f)
    ensures r > Middle(f)
  {
    GapAbove(n, b, x, f);
    CopiesGrow(b, w, x - Middle(f));
    CopiesMinus(w, x, Middle(f));
    NearestError(Copies(w, x));
    CopiesOrder(w, Middle(f), r);
  }

  lemma StaysAbove(f: int, w: nat, x: real, r: real)
    requires RoundedTo(w, x, r) && f as real <= x
    ensures f as real <= r
  {
    CopiesOrder(w, x, f as real);
    CopiesOfInt(w, f);
    NearestOfInt(w * f);
    NearestMonotone(Copies(w, f as real), Copies(w, x));
    CopiesOrder(w, r, f as real);
  }

  lemma StaysBelow(f: int, w: nat, x: real, r: real)
    requires RoundedTo(w, x, r) && x <= f as real
    ensures r <= f as real
  {
    CopiesOrder(w, f as real, x);
    CopiesOfInt(w, f);
    NearestOfInt(w * f);
    NearestMonotone(Copies(w, x), Copies(w, f as real));
    CopiesOrder(w, f as real, r);
  }

  lemma MiddleIsKept(v: nat, w: nat, x: real, r: real)
    requires w == 2 * v && RoundedTo(w, x, r) && x == Middle(x.Floor)
    ensures r == x
  {
    CopiesDouble(v, x);
    CopiesOfMiddle(v, x.Floor);
    NearestOfInt(v * (2 * x.Floor + 1));
    CopiesOrder(w, r, x);
    CopiesOrder(w, x, r);
  }

  lemma NearestTwice(n: nat, b: nat, v: nat, w: nat, x: real, r: real)
    requires 0 < b < w && w == 2 * v && Copies(b, x) == n as real && RoundedTo(w, x, r)
    ensures Nearest(r) == Nearest(x)
  {
    var f := x.Floor;
    StaysAbove(f, w, x, r);
    StaysBelow(f + 1, w, x, r);
    if x == Middle(f) {
      MiddleIsKept(v, w, x, r);
    } else if x < Middle(f) {
      SideBelow(n, b, w, x, r, f);
    } else {
      SideAbove(n, b, w, x, r, f);
    }
  }

  lemma {:induction false} ShiftMonotone(x: real, y: real, k: nat)
    requires x <= y
    ensures Shift(x, k) <= Shift(y, k)
  {
    if k > 0 {
      ShiftMonotone(x, y, k - 1);
    }
  }

  lemma {:induction false} ShiftPow2(d: nat, k: nat)
    ensures Shift(Pow2(d) as real, k) == Pow2(d + k) as real
  {
    if k > 0 {
      ShiftPow2(d, k - 1);
    }
  }

  lemma ScaledRound(d: nat, p: nat, x: real)
    requires 0 < d < p && x > 0.0 && Pow2(d - 1) as real <= x <= Pow2(d) as real
    ensures Shift(Round(p, x), p - d) == Nearest(Shift(x, p - d)) as real
  {
    var q := p - d;
    ShiftMonotone(Pow2(d - 1) as real, x, q);
    ShiftMonotone(x, Pow2(d) as real, q);
    ShiftPow2(d - 1, q);
    ShiftPow2(d, q);
    RoundInBinade(p, Shift(x, q));
    RoundShift(p, x, q);
  }

  lemma NearestOfRounded(d: nat, p: nat, n: nat, b: nat, x: real)
    requires 0 < d < p && 0 < b < Pow2(p - d) && Copies(b, x) == n as real && x > 0.0
    requires Pow2(d - 1) as real <= x < Pow2(d) as real
    ensures Nearest(Round(p, x)) == Nearest(x)
  {
    ScaledRound(d, p, x);
    ShiftCopies(x, p - d);
    ShiftCopies(Round(p, x), p - d);
    NearestTwice(n, b, Pow2(p - d - 1), Pow2(p - d), x, Round(p, x));
  }

  lemma RoundTwiceInBinade(d: nat, p: nat, n: nat, b: nat, x: real)
    requires 0 < d < p && 0 < b < Pow2(p - d) && Copies(b, x) == n as real && x > 0.0
    requires Pow2(d - 1) as real <= x < Pow2(d) as real
    ensures Round(p, x) > 0.0 && Round(d, Round(p, x)) == Round(d, x)
  {
    NearestOfRounded(d, p, n, b, x);
    KeepsBinade(d, p, x);
    RoundInBinade(d, x);
    RoundInBinade(d, Round(p, x));
  }

  lemma KeepsBinade(d: nat, p: nat, x: real)
    requires 0 < d < p && x > 0.0 && Pow2(d - 1) as real <= x <= Pow2(d) as real
    ensures Pow2(d - 1) as real <= Round(p, x) <= Pow2(d) as real
  {
    Pow2Positive(d - 1);
    Pow2Monotone(d, p - 1);
    Pow2Positive(p - 1);
    RoundInteger(p, Pow2(d - 1));
    RoundInteger(p, Pow2(d));
    RoundMonotone(p, Pow2(d - 1) as real, x);
    RoundMonotone(p, x, Pow2(d) as real);
  }

  /** The integer nearest to `n / b`; of two equally near ones, the even one. */
  function NearestQuotient(n: nat, b: nat): nat
    requires b > 0
  {
    var f, rest := n / b, n % b;
    if 2 * rest < b || (2 * rest == b && f % 2 == 0) then f else f + 1
  }

  lemma NearestIsInteger(n: nat, b: nat, x: real)
    requires b > 0 && Copies(b, x) == n as real
    ensures Nearest(x) == NearestQuotient(n, b)
  {
    var f := n / b;
    var part := x - f as real;
    CopiesMinus(b, x, f as real);
    CopiesOfInt(b, f);
    assert n == b * f + n % b;
    PartOfUnit(b, part, n % b);
  }

  lemma PartOfUnit(b: nat, part: real, rest: nat)
    requires b > 0 && rest < b && Copies(b, part) == rest as real
    ensures 0.0 <= part < 1.0
    ensures part < 0.5 <==> 2 * rest < b
    ensures part > 0.5 <==> 2 * rest > b
  {
    CopiesOfInt(b, 0);
    CopiesOfInt(b, 1);
    CopiesDouble(b, 0.5);
    CopiesOrder(b, part, 0.0);
    CopiesOrder(b, part, 1.0);
    CopiesOrder(b, part, 0.5);
    CopiesOrder(b, 0.5, part);
  }

  // ------------------------------------------------------------ normalisation

  /** The exponent that brings a number into the binade of `d`-bit integers. */
  lemma {:induction false} FindBinade(d: nat, x: real) returns (k: int)
    requires d > 0 && x > 0.0
    ensures Pow2(d - 1) as real <= Shift(x, k) < Pow2(d) as real
    decreases Away(d, x)
  {
    Pow2Positive(d - 1);
    if x >= Pow2(d) as real {
      k := FindBinade(d, x / 2.0);
      ShiftHalf(x, k);
      k := k - 1;
    } else if x < Pow2(d - 1) as real {
      k := FindBinade(d, 2.0 * x);
      ShiftTwice(x, k);
      k := k + 1;
    } else {
      k := 0;
    }
  }

  lemma {:induction false} ShiftTwice(x: real, k: int)
    ensures Shift(2.0 * x, k) == Shift(x, k + 1)
    decreases if k < 0 then -k else k
  {
    if k > 0 {
      ShiftTwice(x, k - 1);
    } else if k < 0 {
      ShiftTwice(x, k + 1);
    }
  }

  lemma ShiftHalf(x: real, k: int)
    ensures Shift(x / 2.0, k) == Shift(x, k - 1)
  {
    ShiftTwice(x / 2.0, k - 1);
  }

  function Up(k: int): nat {
    if k >= 0 then Pow2(k) else 1
  }

  function Numerator(n: nat, k: int): nat {
    n * Up(k)
  }

  function Denominator(b: nat, k: int): nat {
    b * Up(-k)
  }

  /** Brought into another binade, a multiple has its factor or its value scaled. */
  lemma {:induction false} ScaleCopies(b: nat, x: real, k: int)
    ensures Copies(Denominator(b, k), Shift(x, k)) == Shift(Copies(b, x), if k >= 0 then k else 0)
    decreases if k < 0 then -k else k
  {
    if k > 0 {
      ScaleCopies(b, x, k - 1);
      CopiesDouble(b, Shift(x, k - 1));
    } else if k < 0 {
      ScaleCopies(b, x, k + 1);
      CopiesDouble(Denominator(b, k + 1), Shift(x, k));
      IntDoubleProduct(b, Pow2(-k - 1));
    }
  }

  lemma {:induction false} ShiftInteger(n: nat, k: nat)
    ensures Shift(n as real, k) == (n * Pow2(k)) as real
  {
    if k > 0 {
      ShiftInteger(n, k - 1);
      IntDoubleProduct(n, Pow2(k - 1));
    }
  }

  /** A quotient brought into another binade: the numerator or the denominator takes
      the power of two. */
  lemma ShiftQuotient(n: nat, b: nat, x: real, k: int)
    requires b > 0 && Copies(b, x) == n as real
    ensures Denominator(b, k) > 0 && Copies(Denominator(b, k), Shift(x, k)) == Numerator(n, k) as real
    ensures if k >= 0 then Denominator(b, k) == b else Numerator(n, k) == n
  {
    ScaleCopies(b, x, k);
    if k >= 0 {
      ShiftInteger(n, k);
    } else {
      Pow2Positive(-k);
      PositiveProduct(b, Pow2(-k));
    }
  }

  lemma PositiveProduct(a: nat, b: nat)
    requires a > 0 && b > 0
    ensures a * b > 0
  {
  }

  lemma HarmlessInBinade(d: nat, p: nat, bits: nat, n: nat, b: nat, x: real) returns (k: int)
    requires 0 < d && p >= d + bits && 0 < n < Pow2(bits) && 0 < b < Pow2(bits)
    requires x > 0.0 && Copies(b, x) == n as real
    ensures Shift(x, k) > 0.0 && Round(p, Shift(x, k)) > 0.0
    ensures Round(d, Round(p, Shift(x, k))) == Round(d, Shift(x, k))
  {
    k := FindBinade(d, x);
    ShiftQuotient(n, b, x, k);
    Pow2Positive(d - 1);
    if k < 0 {
      CopiesAtLeast(Denominator(b, k), Shift(x, k));
    }
    assert bits > 0;
    Pow2Monotone(bits, p - d);
    RoundTwiceInBinade(d, p, Numerator(n, k), Denominator(b, k), Shift(x, k));
  }

  /** Double rounding is harmless: for numerator and denominator of at most `bits`
      bits, a wide float of `d + bits` bits or more leaves no trace in the narrow one. */
  lemma DoubleRoundingIsHarmless(d: nat, p: nat, bits: nat, n: nat, b: nat, x: real)
    requires 0 < d && p >= d + bits && 0 < n < Pow2(bits) && 0 < b < Pow2(bits)
    requires x > 0.0 && Copies(b, x) == n as real
    ensures Round(p, x) > 0.0 && Round(d, Round(p, x)) == Round(d, x)
  {
    var k := HarmlessInBinade(d, p, bits, n, b, x);
    RoundTwiceShift(d, p, x, k);
  }

  lemma RoundTwiceShift(d: nat, p: nat, x: real, k: int)
    requires d > 0 && p > 0 && x > 0.0 && Shift(x, k) > 0.0 && Round(p, Shift(x, k)) > 0.0
    requires Round(d, Round(p, Shift(x, k))) == Round(d, Shift(x, k))
    ensures Round(p, x) > 0.0 && Round(d, Round(p, x)) == Round(d, x)
  {
    RoundBorders(p, x);
    RoundShift(p, x, k);
    RoundShift(d, x, k);
    RoundShift(d, Round(p, x), k);
    ShiftInjective(Round(d, Round(p, x)), Round(d, x), k);
  }

  lemma {:induction false} ShiftInjective(x: real, y: real, k: int)
    requires Shift(x, k) == Shift(y, k)
    ensures x == y
    decreases if k < 0 then -k else k
  {
    if k > 0 {
      ShiftInjective(x, y, k - 1);
    } else if k < 0 {
      ShiftInjective(x, y, k + 1);
    }
  }
}
