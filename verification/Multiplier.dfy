/** `to_multiplier` and `from_multiplier`: difficulties as multiples of a base
    difficulty, through a wide binary float of `p` significant bits and a double. */
module Multipliers {
  import opened Rounding
  import opened DoubleRounding

  /** Significant bits of a double, and width of a difficulty. */
  const DOUBLE: nat := 53
  const WIDTH: nat := 128

  predicate Difficulty(d: nat) {
    d < Pow2(WIDTH)
  }

  /** A positive double; its exponent range is no constraint for these quotients. */
  ghost predicate IsDouble(m: real) {
    m > 0.0 && Fits(DOUBLE, m)
  }

  datatype Converted = InRange(value: nat) | OutOfRange

  /** Rounded to the wide float, then to a double. */
  function RoundTwice(p: nat, x: real): (m: real)
    requires p > 0 && x > 0.0
    ensures m > 0.0
  {
    RoundBorders(p, x);
    RoundBorders(DOUBLE, Round(p, x));
    Round(DOUBLE, Round(p, x))
  }

  function Quotient(d: nat, b: nat): (x: real)
    requires d > 0 && b > 0
    ensures x > 0.0 && b as real * x == d as real
  {
    d as real / b as real
  }

  function ToMultiplier(p: nat, d: nat, b: nat): (m: real)
    requires p > 0 && d > 0 && b > 0
    ensures m > 0.0
  {
    RoundTwice(p, Quotient(d, b))
  }

  /** Rounded to the wide float, then truncated to an unsigned 128-bit integer. */
  function Truncate(p: nat, x: real): Converted
    requires p > 0 && x > 0.0
  {
    RoundBorders(p, x);
    var wide := Round(p, x);
    if wide.Floor < Pow2(WIDTH) then InRange(wide.Floor) else OutOfRange
  }

  function Product(b: nat, m: real): (x: real)
    requires m > 0.0
    ensures b > 0 ==> x > 0.0
    ensures b == 0 ==> x == 0.0
  {
    b as real * m
  }

  function FromMultiplier(p: nat, m: real, b: nat): Converted
    requires p > 0 && m > 0.0
  {
    if b == 0 then InRange(0) else Truncate(p, Product(b, m))
  }

  // ------------------------------------------------------------ from_multiplier

  lemma ProductBound(a: nat, b: nat, c: nat, d: nat)
    requires 0 < a < b && 0 < c < d
    ensures 0 < a * c < b * d
  {
    assert a * c < a * d;
    assert a * d < b * d;
  }

  lemma ProductWidth(p: nat, b: nat, n: int)
    requires p >= WIDTH + DOUBLE && 0 < b && Difficulty(b) && 0 < n < Pow2(DOUBLE)
    ensures 0 < b * n < Pow2(p)
  {
    ProductBound(b, Pow2(WIDTH), n, Pow2(DOUBLE));
    Pow2Add(WIDTH, DOUBLE);
    Pow2Monotone(WIDTH + DOUBLE, p);
  }

  lemma ProductShift(b: nat, m: real, n: int, k: int)
    requires m > 0.0 && m == Shift(n as real, k)
    ensures Product(b, m) == Shift((b * n) as real, k)
  {
    ShiftScale(b, n, k);
  }

  /** The significand of the product of a 128-bit number and a double. */
  lemma ProductSignificand(p: nat, b: nat, m: real, n: int, k: int)
    requires p >= WIDTH + DOUBLE && 0 < b && Difficulty(b) && m > 0.0 && Significand(DOUBLE, m, n, k)
    ensures Significand(p, Product(b, m), b * n, k)
  {
    ProductWidth(p, b, n);
    ProductShift(b, m, n, k);
  }

  lemma ProductFits(p: nat, m: real, b: nat)
    requires p >= WIDTH + DOUBLE && IsDouble(m) && 0 < b && Difficulty(b)
    ensures Fits(p, Product(b, m))
  {
    var n, k :| Significand(DOUBLE, m, n, k);
    ProductSignificand(p, b, m, n, k);
  }

  /** What truncating a number without rounding it gives. */
  function Floored(x: real): Converted
    requires x >= 0.0
  {
    if x.Floor < Pow2(WIDTH) then InRange(x.Floor) else OutOfRange
  }

  lemma TruncateExact(p: nat, x: real)
    requires p > 0 && x > 0.0 && Fits(p, x)
    ensures Truncate(p, x) == Floored(x)
  {
    FitsRound(p, x);
  }

  /** `from_multiplier` makes no rounding error: it is the integer part of the exact
      product, and out of range exactly when that does not fit 128 bits. */
  lemma FromMultiplierExact(p: nat, m: real, b: nat)
    requires p >= WIDTH + DOUBLE && IsDouble(m) && Difficulty(b)
    ensures FromMultiplier(p, m, b) == Floored(Product(b, m))
  {
    if b > 0 {
      ProductFits(p, m, b);
      TruncateExact(p, Product(b, m));
    } else {
      Pow2Positive(WIDTH);
    }
  }

  lemma Range()
    ensures Pow2(128) == 0x1_0000_0000_0000_0000_0000_0000_0000_0000
  {
    Literals();
    Pow2Add(60, 4);
    assert Pow2(4) == 16;
    Pow2Add(64, 64);
  }

  lemma FlooredIs(x: real, v: nat)
    requires x >= 0.0
    ensures Floored(x) == InRange(v) <==> v as real <= x < (v + 1) as real && v < Pow2(WIDTH)
  {
  }

  /** The same in numbers, for a base below 2^128, a multiplier of 53 bits and their
      exact product. */
  lemma FromMultiplierIs(p: nat, m: real, b: nat, product: real, v: nat)
    requires p >= 181 && m > 0.0 && Fits(53, m) && b < 0x1_0000_0000_0000_0000_0000_0000_0000_0000
    requires product == b as real * m
    ensures
      FromMultiplier(p, m, b) == InRange(v) <==>
      v as real <= product < (v + 1) as real && v < 0x1_0000_0000_0000_0000_0000_0000_0000_0000
  {
    Range();
    ProductIs(b, m, product);
    FromMultiplierExact(p, m, b);
    FlooredIs(product, v);
  }

  lemma ProductIs(b: nat, m: real, product: real)
    requires m > 0.0 && product == b as real * m
    ensures Product(b, m) == product >= 0.0
  {
  }

  lemma ProductGrows(b: nat, m: real, n: real)
    requires 0.0 < m <= n
    ensures Product(b, m) <= Product(b, n)
  {
    ProductMonotone(m, n, b as real);
  }

  /** A larger multiplier of the same base never lowers the difficulty. */
  lemma FromMultiplierMonotone(p: nat, m: real, n: real, b: nat)
    requires p >= WIDTH + DOUBLE && IsDouble(m) && IsDouble(n) && m <= n && Difficulty(b)
    ensures FromMultiplier(p, n, b).InRange? ==>
              FromMultiplier(p, m, b).InRange? && FromMultiplier(p, m, b).value <= FromMultiplier(p, n, b).value
  {
    FromMultiplierExact(p, m, b);
    FromMultiplierExact(p, n, b);
    ProductGrows(b, m, n);
  }

  // -------------------------------------------------------------- to_multiplier

  lemma QuotientGrows(d: nat, e: nat, b: nat)
    requires 0 < d <= e && b > 0
    ensures Quotient(d, b) <= Quotient(e, b)
  {
    var x, y := Quotient(d, b), Quotient(e, b);
    if x > y {
      StrictProduct(y, x, b as real);
    }
  }

  lemma RoundTwiceMonotone(p: nat, x: real, y: real)
    requires p > 0 && 0.0 < x <= y
    ensures RoundTwice(p, x) <= RoundTwice(p, y)
  {
    RoundMonotone(p, x, y);
    RoundBorders(p, x);
    RoundMonotone(DOUBLE, Round(p, x), Round(p, y));
  }

  /** A larger difficulty never has a smaller multiplier. */
  lemma ToMultiplierMonotone(p: nat, d: nat, e: nat, b: nat)
    requires p > 0 && 0 < d <= e && b > 0
    ensures ToMultiplier(p, d, b) <= ToMultiplier(p, e, b)
  {
    QuotientGrows(d, e, b);
    RoundTwiceMonotone(p, Quotient(d, b), Quotient(e, b));
  }

  lemma RoundTwiceIsDouble(p: nat, x: real)
    requires p > 0 && x > 0.0
    ensures IsDouble(RoundTwice(p, x))
  {
    RoundBorders(p, x);
    var m, k := RoundFits(DOUBLE, Round(p, x));
  }

  // ----------------------------------------------------------------- round trip

  lemma Literals()
    ensures Pow2(52) == 0x10_0000_0000_0000 && Pow2(53) == 0x20_0000_0000_0000 && Pow2(60) == 0x1000_0000_0000_0000
  {
    assert Pow2(10) == 1024;
    Pow2Add(10, 10);
    Pow2Add(20, 20);
    Pow2Add(40, 10);
    assert Pow2(51) == 2 * Pow2(50) && Pow2(52) == 2 * Pow2(51) && Pow2(53) == 2 * Pow2(52);
    Pow2Add(40, 20);
  }

  /** A relative error stays one under multiplication. */
  lemma WithinTimes(n: real, b: real, x: real, r: real, bx: real, br: real)
    requires b > 0.0 && bx == b * x && br == b * r && (r - x) * n <= x
    ensures (br - bx) * n <= bx
  {
    Distribute(b, r, x, n);
    ProductMonotone((r - x) * n, x, b);
  }

  lemma Distribute(b: real, r: real, x: real, n: real)
    ensures (b * r - b * x) * n == ((r - x) * n) * b
  {
  }

  lemma RoundTwiceError(p: nat, x: real)
    requires p >= WIDTH + DOUBLE && x > 0.0
    ensures Round(p, x) > 0.0
    ensures Within(0x1000_0000_0000_0000, x, Round(p, x))
    ensures Within(0x20_0000_0000_0000, Round(p, x), RoundTwice(p, x))
  {
    RoundBorders(p, x);
    RoundError(p, x);
    RoundError(DOUBLE, Round(p, x));
    Literals();
    Pow2Monotone(60, p);
    WithinWeaken(Pow2(p), Pow2(60), x, Round(p, x));
  }

  lemma TimesWithin(n: nat, b: real, x: real, r: real, bx: real, br: real)
    requires b > 0.0 && bx == b * x && br == b * r && Within(n, x, r)
    ensures Within(n, bx, br)
  {
    WithinTimes(n as real, b, x, r, bx, br);
    WithinTimesBelow(n as real, b, x, r, bx, br);
  }

  lemma WithinTimesBelow(n: real, b: real, x: real, r: real, bx: real, br: real)
    requires b > 0.0 && bx == b * x && br == b * r && (x - r) * n <= x
    ensures (bx - br) * n <= bx
  {
    Distribute(b, x, r, n);
    ProductMonotone((x - r) * n, x, b);
  }

  lemma TwoErrors(d: real, mid: real, back: real)
    requires d > 0.0 && Within(0x1000_0000_0000_0000, d, mid) && Within(0x20_0000_0000_0000, mid, back)
    ensures -d < (back - d) * 0x10_0000_0000_0000 as real < d
  {
  }

  lemma TwoRoundings(d: nat, b: nat, x: real, wide: real, m: real)
    requires d > 0 && b > 0 && b as real * x == d as real && m > 0.0
    requires Within(0x1000_0000_0000_0000, x, wide) && Within(0x20_0000_0000_0000, wide, m)
    ensures
      var error := Product(b, m) - d as real;
      -(d as real) < error * 0x10_0000_0000_0000 as real < d as real
  {
    var mid, back := b as real * wide, b as real * m;
    TimesWithin(0x1000_0000_0000_0000, b as real, x, wide, d as real, mid);
    TimesWithin(0x20_0000_0000_0000, b as real, wide, m, mid, back);
    TwoErrors(d as real, mid, back);
  }

  /** The exact product of base and multiplier is off the difficulty by less than
      the 2^52th part of it. */
  lemma BackProductError(p: nat, d: nat, b: nat)
    requires p >= WIDTH + DOUBLE && d > 0 && b > 0
    ensures
      var error := Product(b, ToMultiplier(p, d, b)) - d as real;
      -(d as real) < error * 0x10_0000_0000_0000 as real < d as real
  {
    var x := Quotient(d, b);
    RoundTwiceError(p, x);
    TwoRoundings(d, b, x, Round(p, x), RoundTwice(p, x));
  }

  lemma TruncatedBounds(d: nat, back: real)
    requires d > 0 && -(d as real) < (back - d as real) * 0x10_0000_0000_0000 as real < d as real
    ensures
      var v := back.Floor;
      && (v - d) * 0x10_0000_0000_0000 <= d
      && (d - v) * 0x10_0000_0000_0000 <= d + 0x10_0000_0000_0000
  {
    var v := back.Floor;
    assert v as real <= back < v as real + 1.0;
  }

  lemma TruncatedError(d: nat, back: real)
    requires d > 0 && -(d as real) < (back - d as real) * 0x10_0000_0000_0000 as real < d as real
    ensures
      var v := back.Floor;
      && (v - d) * 0x10_0000_0000_0000 <= d + 0x10_0000_0000_0000
      && (d - v) * 0x10_0000_0000_0000 <= d + 0x10_0000_0000_0000
      && (d < 0x10_0000_0000_0000 ==> v == d || v == d - 1)
      && (d < 0x10_0000_0000_0000 ==> (v == d <==> back >= d as real))
  {
    TruncatedBounds(d, back);
    var v := back.Floor;
    assert v >= d ==> v as real >= d as real;
    assert v < d ==> v as real <= d as real - 1.0;
  }

  /** The round trip from a difficulty to its multiplier and back, when the product
      fits 128 bits: off by at most d / 2^52 + 1; below 2^52 it gives d or d - 1,
      and it gives d exactly when the multiplier was not rounded below d / b. */
  lemma RoundTrip(p: nat, d: nat, b: nat)
    requires p >= WIDTH + DOUBLE && 0 < d && 0 < b && Difficulty(d) && Difficulty(b)
    requires FromMultiplier(p, ToMultiplier(p, d, b), b).InRange?
    ensures
      var v := FromMultiplier(p, ToMultiplier(p, d, b), b).value;
      && (v - d) * Pow2(52) <= d + Pow2(52) && (d - v) * Pow2(52) <= d + Pow2(52)
      && (d < Pow2(52) ==> v == d || v == d - 1)
      && (d < Pow2(52) ==> (v == d <==> ToMultiplier(p, d, b) >= Quotient(d, b)))
  {
    var m := ToMultiplier(p, d, b);
    RoundTwiceIsDouble(p, Quotient(d, b));
    FromMultiplierExact(p, m, b);
    BackProductError(p, d, b);
    Literals();
    TruncatedError(d, Product(b, m));
    BackComparison(d, b, m);
  }

  lemma BackComparison(d: nat, b: nat, m: real)
    requires d > 0 && b > 0 && m > 0.0
    ensures Product(b, m) >= d as real <==> m >= Quotient(d, b)
  {
    var x := Quotient(d, b);
    if m < x {
      StrictProduct(m, x, b as real);
    } else {
      ProductMonotone(x, m, b as real);
    }
  }

  /** If d / b has at most 53 significant bits the round trip is exact. */
  lemma RoundTripExact(p: nat, d: nat, b: nat)
    requires p >= WIDTH + DOUBLE && 0 < d && 0 < b && Difficulty(d) && Difficulty(b)
    requires Fits(DOUBLE, Quotient(d, b))
    ensures FromMultiplier(p, ToMultiplier(p, d, b), b) == InRange(d)
  {
    var x := Quotient(d, b);
    RoundTwiceExact(p, x);
    FromMultiplierExact(p, x, b);
  }

  lemma RoundTwiceExact(p: nat, x: real)
    requires p >= DOUBLE && x > 0.0 && Fits(DOUBLE, x)
    ensures RoundTwice(p, x) == x
  {
    var m, k :| Significand(DOUBLE, x, m, k);
    Pow2Monotone(DOUBLE, p);
    assert Significand(p, x, m, k);
    FitsRound(p, x);
    FitsRound(DOUBLE, x);
  }

  /** Difficulties not too close to 2^128 never leave the range. */
  lemma RoundTripInRange(p: nat, d: nat, b: nat)
    requires p >= WIDTH + DOUBLE && 0 < d && 0 < b && Difficulty(b) && d + Pow2(WIDTH - 52) <= Pow2(WIDTH)
    ensures FromMultiplier(p, ToMultiplier(p, d, b), b).InRange?
  {
    var m := ToMultiplier(p, d, b);
    RoundTwiceIsDouble(p, Quotient(d, b));
    FromMultiplierExact(p, m, b);
    BackProductError(p, d, b);
    Literals();
    Pow2Add(WIDTH - 52, 52);
    BelowRange(d, Product(b, m), Pow2(WIDTH - 52), Pow2(WIDTH));
  }

  lemma BelowRange(d: nat, back: real, slack: nat, range: nat)
    requires (back - d as real) * 0x10_0000_0000_0000 as real < d as real
    requires range == slack * 0x10_0000_0000_0000 && d + slack <= range
    ensures back.Floor < range
  {
  }

  // -------------------------------------------------- when the round trip is exact

  /** The two roundings of `to_multiplier` come to one: a wide float of 181 bits or
      more leaves no trace in the double. */
  lemma RoundsOnce(p: nat, d: nat, b: nat)
    requires p >= WIDTH + DOUBLE && 0 < d && 0 < b && Difficulty(d) && Difficulty(b)
    ensures ToMultiplier(p, d, b) == Round(DOUBLE, Quotient(d, b))
  {
    QuotientCopies(d, b);
    DoubleRoundingIsHarmless(DOUBLE, p, WIDTH, d, b, Quotient(d, b));
  }

  /** The same in numbers. */
  lemma ToMultiplierIs(p: nat, d: nat, b: nat)
    requires p >= 181
    requires 0 < d < 0x1_0000_0000_0000_0000_0000_0000_0000_0000
    requires 0 < b < 0x1_0000_0000_0000_0000_0000_0000_0000_0000
    ensures d as real / b as real > 0.0 && ToMultiplier(p, d, b) == Round(53, d as real / b as real)
  {
    Range();
    assert Quotient(d, b) == d as real / b as real;
    RoundsOnce(p, d, b);
  }

  lemma QuotientCopies(d: nat, b: nat)
    requires d > 0 && b > 0
    ensures Copies(b, Quotient(d, b)) == d as real
  {
    CopiesTimes(b, Quotient(d, b));
  }

  lemma ExactIffProduct(p: nat, d: nat, b: nat)
    requires p >= WIDTH + DOUBLE && 0 < d && 0 < b && Difficulty(d) && Difficulty(b)
    ensures FromMultiplier(p, ToMultiplier(p, d, b), b) == InRange(d) <==>
            d as real <= Product(b, ToMultiplier(p, d, b)) < (d + 1) as real
  {
    RoundTwiceIsDouble(p, Quotient(d, b));
    FromMultiplierExact(p, ToMultiplier(p, d, b), b);
  }

  /** The round trip gives the difficulty back exactly when the double nearest to
      d / b is neither below it nor as large as (d + 1) / b. */
  lemma RoundTripExactIff(p: nat, d: nat, b: nat)
    requires p >= WIDTH + DOUBLE && 0 < d && 0 < b && Difficulty(d) && Difficulty(b)
    ensures FromMultiplier(p, ToMultiplier(p, d, b), b) == InRange(d) <==>
            Quotient(d, b) <= Round(DOUBLE, Quotient(d, b)) < Quotient(d + 1, b)
  {
    RoundsOnce(p, d, b);
    ExactIffProduct(p, d, b);
    BackComparison(d, b, ToMultiplier(p, d, b));
    BackComparison(d + 1, b, ToMultiplier(p, d, b));
  }

  /** `k` brings d / b to 53 bits in front of the point. */
  predicate IsExponent(d: nat, b: nat, k: int) {
    && Pow2(DOUBLE - 1) * Denominator(b, k) <= Numerator(d, k)
    && Numerator(d, k) < Pow2(DOUBLE) * Denominator(b, k)
  }

  lemma ExponentExists(d: nat, b: nat) returns (k: int)
    requires d > 0 && b > 0
    ensures IsExponent(d, b, k)
  {
    k := FindBinade(DOUBLE, Quotient(d, b));
    QuotientCopies(d, b);
    ShiftQuotient(d, b, Quotient(d, b), k);
    BinadeOfCopies(Numerator(d, k), Denominator(b, k), Shift(Quotient(d, b), k), Pow2(DOUBLE - 1), Pow2(DOUBLE));
  }

  lemma BelowInteger(n: nat, b: nat, x: real, bound: nat)
    requires b > 0 && Copies(b, x) == n as real
    ensures x < bound as real <==> n < bound * b
  {
    CopiesOrder(b, x, bound as real);
    CopiesOfInt(b, bound);
  }

  lemma BinadeOfCopies(n: nat, b: nat, x: real, low: nat, high: nat)
    requires b > 0 && Copies(b, x) == n as real
    ensures low as real <= x < high as real <==> low * b <= n < high * b
  {
    BelowInteger(n, b, x, low);
    BelowInteger(n, b, x, high);
  }

  /** In integers: the significand of the double nearest to d / b, times the base, is
      at most the scaled difficulty too large for the next integer, and not below. */
  predicate Survives(d: nat, b: nat, k: int)
    requires Denominator(b, k) > 0
  {
    var product := Denominator(b, k) * NearestQuotient(Numerator(d, k), Denominator(b, k));
    Numerator(d, k) <= product < Numerator(d, k) + Up(k)
  }

  /** The nearest double of d / b in integers. */
  lemma ScaledMultiplier(d: nat, b: nat, k: int)
    requires 0 < d && 0 < b && IsExponent(d, b, k)
    ensures Denominator(b, k) > 0
    ensures Shift(Round(DOUBLE, Quotient(d, b)), k) == NearestQuotient(Numerator(d, k), Denominator(b, k)) as real
  {
    var x := Quotient(d, b);
    QuotientCopies(d, b);
    ShiftQuotient(d, b, x, k);
    BinadeOfCopies(Numerator(d, k), Denominator(b, k), Shift(x, k), Pow2(DOUBLE - 1), Pow2(DOUBLE));
    RoundInBinade(DOUBLE, Shift(x, k));
    RoundShift(DOUBLE, x, k);
    NearestIsInteger(Numerator(d, k), Denominator(b, k), Shift(x, k));
  }

  lemma ProductCopies(b: nat, m: real)
    requires m > 0.0
    ensures Product(b, m) == Copies(b, m)
  {
    CopiesTimes(b, m);
  }

  /** Comparing the product with the difficulty before and after scaling. */
  lemma ScaledProduct(d: nat, b: nat, k: int, m: real, s: nat)
    requires m > 0.0 && Shift(m, k) == s as real
    ensures Denominator(b, k) * s >= Numerator(d, k) <==> Copies(b, m) >= d as real
  {
    ScaleCopies(b, m, k);
    CopiesOfInt(Denominator(b, k), s);
    if k >= 0 {
      ShiftInteger(d, k);
      ShiftOrder(d as real, Copies(b, m), k);
    }
  }

  lemma ShiftOrder(x: real, y: real, k: nat)
    ensures Shift(x, k) <= Shift(y, k) <==> x <= y
  {
    if x <= y {
      ShiftMonotone(x, y, k);
    } else {
      ShiftMonotone(y, x, k);
      if Shift(x, k) == Shift(y, k) {
        ShiftInjective(x, y, k);
      }
    }
  }

  /** The condition in terms of difficulty and base alone, in integer arithmetic. */
  lemma RoundTripSurvivesIff(p: nat, d: nat, b: nat, k: int)
    requires p >= WIDTH + DOUBLE && 0 < d && 0 < b && Difficulty(d) && Difficulty(b)
    requires IsExponent(d, b, k)
    ensures Denominator(b, k) > 0
    ensures FromMultiplier(p, ToMultiplier(p, d, b), b) == InRange(d) <==> Survives(d, b, k)
  {
    ScaledMultiplier(d, b, k);
    var m := ToMultiplier(p, d, b);
    var s := NearestQuotient(Numerator(d, k), Denominator(b, k));
    RoundsOnce(p, d, b);
    ExactIffProduct(p, d, b);
    ProductCopies(b, m);
    ScaledProduct(d, b, k, m, s);
    ScaledProduct(d + 1, b, k, m, s);
    NextNumerator(d, k);
  }

  /** So for every difficulty and base there is a test in integers. */
  lemma RoundTripInIntegers(p: nat, d: nat, b: nat) returns (k: int)
    requires p >= WIDTH + DOUBLE && 0 < d && 0 < b && Difficulty(d) && Difficulty(b)
    ensures IsExponent(d, b, k) && Denominator(b, k) > 0
    ensures FromMultiplier(p, ToMultiplier(p, d, b), b) == InRange(d) <==> Survives(d, b, k)
  {
    k := ExponentExists(d, b);
    RoundTripSurvivesIff(p, d, b, k);
  }

  lemma NextNumerator(d: nat, k: int)
    ensures Numerator(d + 1, k) == Numerator(d, k) + Up(k)
  {
  }

  /** The round trip is not the identity: difficulty 1 over base 3 comes back as 0. */
  lemma RoundTripLosesOne(p: nat)
    requires p >= WIDTH + DOUBLE
    ensures FromMultiplier(p, ToMultiplier(p, 1, 3), 3) == InRange(0)
  {
    Literals();
    Pow2Add(76, 52);
    Pow2Monotone(0, WIDTH - 52);
    assert Pow2(54) == 2 * Pow2(53);
    assert Numerator(1, 54) == 0x40_0000_0000_0000 && Denominator(3, 54) == 3;
    RoundTripInRange(p, 1, 3);
    RoundTrip(p, 1, 3);
    RoundTripSurvivesIff(p, 1, 3, 54);
  }
}
