/** Binary floating point with `p` significant bits and an unbounded exponent: round
    to nearest, ties to even (section 4.3.1 of IEEE 754-2019). */
module Rounding {

  function Pow2(n: nat): nat {
    if n == 0 then 1 else 2 * Pow2(n - 1)
  }

  /** The nearest integer; of two equally near ones, the even one. */
  function Nearest(x: real): int {
    var f := x.Floor;
    if x - f as real < 0.5 then f
    else if x - f as real > 0.5 then f + 1
    else if f % 2 == 0 then f
    else f + 1
  }

  /** How often to double a number to reach the binade of `p`-bit integers. */
  function Doublings(p: nat, x: real): nat
    requires p > 0 && x > 0.0
    decreases if x < Pow2(p - 1) as real then (Pow2(p) as real / x).Floor else 0
  {
    if x < Pow2(p - 1) as real then
      HalvesQuotient(Pow2(p) as real, x);
      1 + Doublings(p, 2.0 * x)
    else 0
  }

  /** A measure of the distance from that binade. */
  function Away(p: nat, x: real): nat
    requires p > 0 && x > 0.0
  {
    if x >= Pow2(p) as real then x.Floor else Doublings(p, x)
  }

  /** Rounds to `p` significant bits: brings the number into the binade in which the
      last of the `p` bits is the unit, rounds there, and scales back. */
  function Round(p: nat, x: real): real
    requires p > 0 && x > 0.0
    decreases Away(p, x)
  {
    if x >= Pow2(p) as real then
      Pow2Positive(p);
      2.0 * Round(p, x / 2.0)
    else if x < Pow2(p - 1) as real then
      Round(p, 2.0 * x) / 2.0
    else
      Nearest(x) as real
  }

  lemma {:induction false} Pow2Positive(n: nat)
    ensures Pow2(n) > 0
  {
    if n > 0 {
      Pow2Positive(n - 1);
    }
  }

  lemma {:induction false} Pow2Monotone(m: nat, n: nat)
    requires m <= n
    ensures Pow2(m) <= Pow2(n)
  {
    if m < n {
      Pow2Monotone(m, n - 1);
    }
  }

  lemma {:induction false} Pow2Add(m: nat, n: nat)
    ensures Pow2(m + n) == Pow2(m) * Pow2(n)
  {
    if n > 0 {
      Pow2Add(m, n - 1);
      IntDoubleProduct(Pow2(m), Pow2(n - 1));
    }
  }

  lemma IntDoubleProduct(a: nat, b: nat)
    ensures a * (2 * b) == 2 * (a * b)
  {
  }

  lemma QuotientAbove(b: real, x: real)
    requires 0.0 < x && 1.0 * x < b
    ensures b / x > 1.0
  {
    var q := b / x;
    assert q * x == b;
    if q <= 1.0 {
      ProductMonotone(q, 1.0, x);
    }
  }

  lemma HalvesQuotient(b: real, x: real)
    requires 0.0 < x && 2.0 * x < b
    ensures 0 <= (b / (2.0 * x)).Floor < (b / x).Floor
  {
    var q := b / (2.0 * x);
    QuotientAbove(b, 2.0 * x);
    assert q * (2.0 * x) == b;
    assert (2.0 * q) * x == b;
    assert b / x == 2.0 * q;
  }

  lemma ProductMonotone(a: real, b: real, c: real)
    requires a <= b && c >= 0.0
    ensures a * c <= b * c
  {
  }

  lemma StrictProduct(a: real, b: real, c: real)
    requires a < b && c > 0.0
    ensures c * a < c * b
  {
  }

  // -------------------------------------------------------------------- binades

  lemma NearestBetween(lo: int, x: real, hi: int)
    requires lo as real <= x <= hi as real
    ensures lo <= Nearest(x) <= hi
  {
  }

  lemma NearestMonotone(x: real, y: real)
    requires x <= y
    ensures Nearest(x) <= Nearest(y)
  {
  }

  /** Rounding does not cross the borders of the binade of `p`-bit integers. */
  lemma {:induction false} RoundBorders(p: nat, x: real)
    requires p > 0 && x > 0.0
    ensures Round(p, x) > 0.0
    ensures x >= Pow2(p) as real ==> Round(p, x) >= Pow2(p) as real
    ensures x <= Pow2(p) as real ==> Round(p, x) <= Pow2(p) as real
    ensures x >= Pow2(p - 1) as real ==> Round(p, x) >= Pow2(p - 1) as real
    ensures x <= Pow2(p - 1) as real ==> Round(p, x) <= Pow2(p - 1) as real
    decreases Away(p, x)
  {
    Pow2Positive(p - 1);
    assert Pow2(p) == 2 * Pow2(p - 1);
    if x >= Pow2(p) as real {
      RoundBorders(p, x / 2.0);
      assert Round(p, x) == 2.0 * Round(p, x / 2.0);
    } else if x < Pow2(p - 1) as real {
      RoundBorders(p, 2.0 * x);
      assert Round(p, x) == Round(p, 2.0 * x) / 2.0;
    } else {
      assert Round(p, x) == Nearest(x) as real;
      NearestBetween(Pow2(p - 1), x, Pow2(p));
    }
  }

  /** Rounding commutes with doubling. */
  lemma RoundDouble(p: nat, x: real)
    requires p > 0 && x > 0.0
    ensures Round(p, 2.0 * x) == 2.0 * Round(p, x)
  {
    Pow2Positive(p - 1);
    if Pow2(p - 1) as real <= x < Pow2(p) as real {
      assert Round(p, 2.0 * x) == 2.0 * Round(p, (2.0 * x) / 2.0);
    } else if x >= Pow2(p) as real {
      assert Round(p, 2.0 * x) == 2.0 * Round(p, (2.0 * x) / 2.0);
    }
  }

  lemma {:induction false} RoundMonotone(p: nat, x: real, y: real)
    requires p > 0 && 0.0 < x <= y
    ensures Round(p, x) <= Round(p, y)
    decreases
      if y >= Pow2(p) as real then y.Floor else 0,
      Doublings(p, x)
  {
    Pow2Positive(p - 1);
    RoundBorders(p, x);
    RoundBorders(p, y);
    if y < Pow2(p - 1) as real {
      RoundMonotone(p, 2.0 * x, 2.0 * y);
      assert Round(p, x) == Round(p, 2.0 * x) / 2.0 && Round(p, y) == Round(p, 2.0 * y) / 2.0;
    } else if x >= Pow2(p) as real {
      RoundMonotone(p, x / 2.0, y / 2.0);
      assert Round(p, x) == 2.0 * Round(p, x / 2.0) && Round(p, y) == 2.0 * Round(p, y / 2.0);
    } else if x >= Pow2(p - 1) as real && y < Pow2(p) as real {
      NearestMonotone(x, y);
    }
  }

  // ---------------------------------------------------------------------- error

  /** `r` is off `x` by at most the `n`-th part of `x`. */
  predicate Within(n: nat, x: real, r: real) {
    (r - x) * n as real <= x && (x - r) * n as real <= x
  }

  lemma WithinScale(n: nat, x: real, r: real)
    requires Within(n, x, r)
    ensures Within(n, 2.0 * x, 2.0 * r) && Within(n, x / 2.0, r / 2.0)
  {
    assert (2.0 * r - 2.0 * x) * n as real == 2.0 * ((r - x) * n as real);
    assert (2.0 * x - 2.0 * r) * n as real == 2.0 * ((x - r) * n as real);
    assert (r / 2.0 - x / 2.0) * n as real == ((r - x) * n as real) / 2.0;
    assert (x / 2.0 - r / 2.0) * n as real == ((x - r) * n as real) / 2.0;
  }

  lemma HalfProduct(e: real, w: real, x: real)
    requires e <= 0.5 && 0.0 <= w <= 2.0 * x
    ensures e * w <= x
  {
    ProductMonotone(e, 0.5, w);
  }

  lemma WithinHalf(n: nat, x: real, r: real)
    requires -0.5 <= r - x <= 0.5 && x >= n as real / 2.0
    ensures Within(n, x, r)
  {
    HalfProduct(r - x, n as real, x);
    HalfProduct(x - r, n as real, x);
  }

  /** The relative error of one rounding is at most 2^-p. */
  lemma {:induction false} RoundError(p: nat, x: real)
    requires p > 0 && x > 0.0
    ensures Within(Pow2(p), x, Round(p, x))
    decreases Away(p, x)
  {
    Pow2Positive(p - 1);
    if x >= Pow2(p) as real {
      RoundError(p, x / 2.0);
      WithinScale(Pow2(p), x / 2.0, Round(p, x / 2.0));
    } else if x < Pow2(p - 1) as real {
      RoundError(p, 2.0 * x);
      WithinScale(Pow2(p), 2.0 * x, Round(p, 2.0 * x));
    } else {
      WithinHalf(Pow2(p), x, Nearest(x) as real);
    }
  }

  lemma WithinWeaken(n: nat, m: nat, x: real, r: real)
    requires Within(n, x, r) && m <= n && x > 0.0
    ensures Within(m, x, r)
  {
    if r >= x {
      ProductMonotone(m as real, n as real, r - x);
      ProductMonotone(x - r, 0.0, m as real);
    } else {
      ProductMonotone(m as real, n as real, x - r);
      ProductMonotone(r - x, 0.0, m as real);
    }
  }

  // ------------------------------------------------------------------- exactness

  /** `x` times two to the power `k`. */
  function Shift(x: real, k: int): real
    decreases if k < 0 then -k else k
  {
    if k == 0 then x else if k > 0 then 2.0 * Shift(x, k - 1) else Shift(x, k + 1) / 2.0
  }

  /** `x` has a significand of at most `p` bits. */
  predicate Significand(p: nat, x: real, m: int, k: int) {
    0 < m < Pow2(p) && x == Shift(m as real, k)
  }

  ghost predicate Fits(p: nat, x: real) {
    exists m, k :: Significand(p, x, m, k)
  }

  lemma {:induction false} RoundShift(p: nat, x: real, k: int)
    requires p > 0 && x > 0.0
    ensures Shift(x, k) > 0.0 && Round(p, Shift(x, k)) == Shift(Round(p, x), k)
    decreases if k < 0 then -k else k
  {
    if k > 0 {
      RoundShift(p, x, k - 1);
      RoundDouble(p, Shift(x, k - 1));
    } else if k < 0 {
      RoundShift(p, x, k + 1);
      RoundDouble(p, Shift(x, k));
    }
  }

  lemma {:induction false} RoundInteger(p: nat, m: int)
    requires p > 0 && 0 < m < Pow2(p)
    ensures Round(p, m as real) == m as real
    decreases (Pow2(p) - m)
  {
    if m < Pow2(p - 1) {
      assert Pow2(p) == 2 * Pow2(p - 1) && (2 * m) as real == 2.0 * m as real;
      RoundInteger(p, 2 * m);
      RoundDouble(p, m as real);
    }
  }

  /** A number with at most `p` significant bits is left alone. */
  lemma FitsRound(p: nat, x: real)
    requires p > 0 && x > 0.0 && Fits(p, x)
    ensures Round(p, x) == x
  {
    var m, k :| Significand(p, x, m, k);
    RoundInteger(p, m);
    RoundShift(p, m as real, k);
  }

  /** Every rounded number has at most `p` significant bits. */
  lemma {:induction false} RoundFits(p: nat, x: real) returns (m: int, k: int)
    requires p > 0 && x > 0.0
    ensures Significand(p, Round(p, x), m, k)
    decreases Away(p, x)
  {
    Pow2Positive(p - 1);
    if x >= Pow2(p) as real {
      m, k := RoundFits(p, x / 2.0);
      k := k + 1;
      ShiftStep(m as real, k - 1);
    } else if x < Pow2(p - 1) as real {
      m, k := RoundFits(p, 2.0 * x);
      k := k - 1;
      ShiftStep(m as real, k);
    } else {
      NearestBetween(Pow2(p - 1), x, Pow2(p));
      m, k := Nearest(x), 0;
      if m == Pow2(p) {
        m, k := Pow2(p - 1), 1;
        ShiftStep(m as real, 0);
      }
    }
  }

  lemma ShiftStep(x: real, k: int)
    ensures Shift(x, k + 1) == 2.0 * Shift(x, k)
  {
  }

  lemma {:induction false} ShiftTimes(x: real, k: nat)
    ensures Shift(x, k) == x * Pow2(k) as real
  {
    if k > 0 {
      ShiftTimes(x, k - 1);
    }
  }

  lemma {:induction false} ShiftScale(b: nat, m: int, k: int)
    ensures b as real * Shift(m as real, k) == Shift((b * m) as real, k)
    decreases if k < 0 then -k else k
  {
    if k > 0 {
      ShiftScale(b, m, k - 1);
      DoubleProduct(b as real, Shift(m as real, k - 1));
    } else if k < 0 {
      ShiftScale(b, m, k + 1);
      DoubleProduct(b as real, Shift(m as real, k));
    }
  }

  lemma DoubleProduct(a: real, b: real)
    ensures a * (2.0 * b) == 2.0 * (a * b)
  {
  }

  // ------------------------------------------------------------ nearest number

  function Distance(x: real, y: real): real {
    if x <= y then y - x else x - y
  }

  lemma {:induction false} ShiftOfInt(m: int, k: nat) returns (n: int)
    ensures Shift(m as real, k) == n as real
  {
    if k == 0 {
      n := m;
    } else {
      n := ShiftOfInt(m, k - 1);
      n := 2 * n;
    }
  }

  lemma {:induction false} ShiftDown(m: int, k: int)
    requires m > 0 && k < 0
    ensures Shift(m as real, k) <= m as real / 2.0
    decreases -k
  {
    if k < -1 {
      ShiftDown(m, k + 1);
    }
  }

  lemma NearestIsNearest(x: real, n: int)
    ensures Distance(x, Nearest(x) as real) <= Distance(x, n as real)
  {
    if n <= x.Floor {
      assert n as real <= x.Floor as real;
    } else {
      assert (x.Floor + 1) as real <= n as real;
    }
  }

  /** No number of `p` significant bits is nearer than the rounded one. */
  lemma {:induction false} RoundNearest(p: nat, x: real, m: int, k: int)
    requires p > 0 && x > 0.0 && 0 < m < Pow2(p)
    ensures Distance(x, Round(p, x)) <= Distance(x, Shift(m as real, k))
    decreases Away(p, x)
  {
    Pow2Positive(p - 1);
    if x >= Pow2(p) as real {
      ShiftStep(m as real, k - 1);
      RoundNearest(p, x / 2.0, m, k - 1);
    } else if x < Pow2(p - 1) as real {
      ShiftStep(m as real, k);
      RoundNearest(p, 2.0 * x, m, k + 1);
    } else if k >= 0 {
      var n := ShiftOfInt(m, k);
      NearestIsNearest(x, n);
    } else {
      ShiftDown(m, k);
      NearestIsNearest(x, Pow2(p - 1));
    }
  }

  lemma TieIsEven(x: real, n: int)
    requires n != Nearest(x) && Distance(x, Nearest(x) as real) == Distance(x, n as real)
    ensures Nearest(x) % 2 == 0
  {
    if n <= x.Floor {
      assert n as real <= x.Floor as real;
    } else {
      assert (x.Floor + 1) as real <= n as real;
    }
  }

  /** Where another number of `p` significant bits is equally near, the last bit of
      the rounded one, written with all its bits, is zero. */
  lemma {:induction false} RoundTiesToEven(p: nat, x: real, m: int, k: int) returns (n: int, e: int)
    requires p > 0 && x > 0.0 && 0 < m < Pow2(p)
    requires Shift(m as real, k) != Round(p, x) && Distance(x, Round(p, x)) == Distance(x, Shift(m as real, k))
    ensures Pow2(p - 1) <= n <= Pow2(p) && Round(p, x) == Shift(n as real, e) && n % 2 == 0
    decreases Away(p, x)
  {
    Pow2Positive(p - 1);
    if x >= Pow2(p) as real {
      ShiftStep(m as real, k - 1);
      n, e := RoundTiesToEven(p, x / 2.0, m, k - 1);
      e := e + 1;
      ShiftStep(n as real, e - 1);
    } else if x < Pow2(p - 1) as real {
      ShiftStep(m as real, k);
      n, e := RoundTiesToEven(p, 2.0 * x, m, k + 1);
      e := e - 1;
      ShiftStep(n as real, e);
    } else {
      NearestBetween(Pow2(p - 1), x, Pow2(p));
      n, e := Nearest(x), 0;
      if k >= 0 {
        var other := ShiftOfInt(m, k);
        TieIsEven(x, other);
      } else {
        ShiftDown(m, k);
        NearestIsNearest(x, Pow2(p - 1));
      }
    }
  }
}
