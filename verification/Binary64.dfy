/** Rounding to IEEE 754 binary64, as in section 4.3.1 of IEEE 754-2019: to nearest,
    ties to even.  Overflow to infinity is not part of this model: the grid of the
    largest numbers goes on above them. */
module Binary64 {

  const MIN_EXP: int := -1074   // exponent of the last bit of a subnormal number
  const MAX_EXP: int := 971     // exponent of the last bit of the largest numbers

  function Pow2(e: int): (p: real)
    ensures 0.0 < p
    decreases if e < 0 then -e else e
  {
    if e == 0 then 1.0 else if e > 0 then 2.0 * Pow2(e - 1) else Pow2(e + 1) / 2.0
  }

  // e is the exponent of the last bit of the doubles around x.
  predicate InBinade(x: real, e: int) {
    && MIN_EXP <= e <= MAX_EXP
    && (e == MAX_EXP || x < Pow2(e + 53))
    && (e == MIN_EXP || Pow2(e + 52) <= x)
  }

  // The search for that exponent, upwards from e.
  function UlpExpFrom(x: real, e: int): (r: int)
    requires MIN_EXP <= e <= MAX_EXP && (e == MIN_EXP || Pow2(e + 52) <= x)
    ensures InBinade(x, r)
    decreases MAX_EXP - e, x
  {
    if e == MAX_EXP || x < Pow2(e + 53) then e else UlpExpFrom(x, e + 1)
  }

  function UlpExp(x: real): (e: int)
    ensures InBinade(x, e)
  {
    UlpExpFrom(x, MIN_EXP)
  }

  // The spacing of the doubles around x.
  function Ulp(x: real): (u: real)
    ensures 0.0 < u
  {
    Pow2(UlpExp(x))
  }

  function RoundEven(q: real): (n: int)
    ensures -0.5 <= n as real - q <= 0.5
  {
    var f := q.Floor;
    var d := q - f as real;
    if d < 0.5 then f else if d > 0.5 then f + 1 else if f % 2 == 0 then f else f + 1
  }

  function OnGridOf(x: real, u: real): real
    requires 0.0 < u
  {
    RoundEven(x / u) as real * u
  }

  // The double nearest to x.
  function Fl(x: real): real {
    if x < 0.0 then -OnGridOf(-x, Ulp(-x)) else OnGridOf(x, Ulp(x))
  }

  function Abs(x: real): real {
    if x < 0.0 then -x else x
  }

  // The finite doubles.
  ghost predicate IsDouble(y: real) {
    exists m: int, e: int :: MIN_EXP <= e <= MAX_EXP && Scaled(m, e, y)
  }

  ghost predicate Scaled(m: int, e: int, y: real) {
    -0x20_0000_0000_0000 < m < 0x20_0000_0000_0000 && y == m as real * Pow2(e)
  }

  // ----- powers of two

  lemma Pow2Step(e: int)
    ensures Pow2(e + 1) == 2.0 * Pow2(e)
  {
  }

  lemma {:induction false} Pow2Monotone(a: int, b: int)
    requires a <= b
    ensures Pow2(a) <= Pow2(b)
    decreases b - a
  {
    if a < b {
      Pow2Monotone(a, b - 1);
      Pow2Step(b - 1);
    }
  }

  lemma Pow2Binade(e: int)
    ensures Pow2(e + 52) == 4503599627370496.0 * Pow2(e)
    ensures Pow2(e + 53) == 9007199254740992.0 * Pow2(e)
  {
    Pow2By8(e);
    Pow2By8(e + 8);
    Pow2By8(e + 16);
    Pow2By8(e + 24);
    Pow2By8(e + 32);
    Pow2By8(e + 40);
    Pow2Step(e + 48);
    Pow2Step(e + 49);
    Pow2Step(e + 50);
    Pow2Step(e + 51);
    Pow2Step(e + 52);
  }

  lemma Pow2By8(e: int)
    ensures Pow2(e + 8) == 256.0 * Pow2(e)
  {
    Pow2Step(e);
    Pow2Step(e + 1);
    Pow2Step(e + 2);
    Pow2Step(e + 3);
    Pow2Step(e + 4);
    Pow2Step(e + 5);
    Pow2Step(e + 6);
    Pow2Step(e + 7);
  }

  // ----- the binade of a number

  lemma BinadeIsUnique(x: real, e: int, r: int)
    requires InBinade(x, e) && InBinade(x, r)
    ensures r == e
  {
    if r < e {
      Pow2Monotone(r + 53, e + 52);
    } else if e < r {
      Pow2Monotone(e + 53, r + 52);
    }
  }

  lemma UlpMonotone(x: real, y: real)
    requires x <= y
    ensures UlpExp(x) <= UlpExp(y)
  {
    var ex, ey := UlpExp(x), UlpExp(y);
    if ey < ex {
      Pow2Monotone(ey + 53, ex + 52);
    }
  }

  lemma UlpBelow(x: real, e: int)
    requires MIN_EXP <= e <= MAX_EXP && x < Pow2(e + 53)
    ensures UlpExp(x) <= e && Ulp(x) <= Pow2(e)
  {
    var r := UlpExp(x);
    if e < r {
      Pow2Monotone(e + 53, r + 52);
    }
    Pow2Monotone(r, e);
  }

  // ----- rounding to a grid

  lemma RoundEvenMonotone(p: real, q: real)
    requires p <= q
    ensures RoundEven(p) <= RoundEven(q)
  {
  }

  lemma Times(a: real, b: real, u: real)
    requires a <= b && 0.0 < u
    ensures a * u <= b * u
  {
    assert 0.0 <= (b - a) * u;
  }

  // The quotient that a rounding to a grid looks at.
  lemma Quotient(x: real, u: real) returns (q: real)
    requires 0.0 < u
    ensures q * u == x && OnGridOf(x, u) == RoundEven(q) as real * u
  {
    q := x / u;
    Divides(x, u, q);
  }

  lemma Divides(x: real, u: real, q: real)
    requires 0.0 < u && q == x / u
    ensures q * u == x
  {
  }

  lemma Regroup(m: int, n: int, u: real)
    ensures (m * n) as real * u == m as real * (n as real * u)
  {
  }

  lemma Distribute(a: real, b: real, d: real, u: real)
    requires d == a - b
    ensures d * u == a * u - b * u
  {
  }

  // Rounding to a grid of spacing u: the quotient, the chosen multiple, and the error.
  lemma GridPoint(x: real, u: real) returns (q: real, n: int, d: real)
    requires 0.0 < u
    ensures q * u == x
    ensures n == RoundEven(q) && OnGridOf(x, u) == n as real * u
    ensures d == n as real - q && OnGridOf(x, u) - x == d * u
  {
    hide RoundEven, OnGridOf;
    q := Quotient(x, u);
    n := RoundEven(q);
    d := n as real - q;
    Distribute(n as real, q, d, u);
  }

  lemma GridError(x: real, u: real)
    requires 0.0 < u
    ensures -u <= 2.0 * (OnGridOf(x, u) - x) <= u
  {
    hide RoundEven, OnGridOf;
    var q, n, d := GridPoint(x, u);
    HalfAtMost(d, u, OnGridOf(x, u) - x);
  }

  lemma HalfAtMost(d: real, u: real, p: real)
    requires 0.0 < u && -0.5 <= d <= 0.5 && p == d * u
    ensures -u <= 2.0 * p <= u
  {
    UpperHalf(d, u, p);
    UpperHalf(-d, u, -p) by {
      assert (-d) * u == -(d * u);
    }
  }

  lemma UpperHalf(d: real, u: real, p: real)
    requires 0.0 < u && d <= 0.5 && p == d * u
    ensures 2.0 * p <= u
  {
    Times(d, 0.5, u);
  }

  lemma AbsScaled(d: real, c: real, u: real, p: real, r: real)
    requires 0.0 < u && Abs(d) <= Abs(c) && p == d * u && r == c * u
    ensures Abs(p) <= Abs(r)
  {
    hide Abs;
    AbsProduct(d, u, p);
    AbsProduct(c, u, r);
    Times(Abs(d), Abs(c), u);
  }

  lemma AbsProduct(d: real, u: real, p: real)
    requires 0.0 < u && p == d * u
    ensures Abs(p) == Abs(d) * u
  {
    if d < 0.0 {
      Strictly(d, 0.0, u);
      assert (-d) * u == -p;
    } else {
      Times(0.0, d, u);
    }
  }

  lemma RoundEvenIsNearest(q: real, k: int)
    ensures Abs(RoundEven(q) as real - q) <= Abs(k as real - q)
  {
    hide RoundEven;
    var n := RoundEven(q);
    if k < n {
      assert k as real <= n as real - 1.0;
    } else if n < k {
      assert n as real <= k as real - 1.0;
    }
  }

  lemma GridNearest(x: real, u: real, k: int)
    requires 0.0 < u
    ensures Abs(OnGridOf(x, u) - x) <= Abs(k as real * u - x)
  {
    hide OnGridOf, RoundEven, Abs;
    var q, n, d := GridPoint(x, u);
    var c := k as real - q;
    RoundEvenIsNearest(q, k);
    Distribute(k as real, q, c, u);
    AbsScaled(d, c, u, OnGridOf(x, u) - x, k as real * u - x);
  }

  lemma GridMonotone(x: real, y: real, u: real)
    requires 0.0 < u && x <= y
    ensures OnGridOf(x, u) <= OnGridOf(y, u)
  {
    hide RoundEven, OnGridOf;
    var p, m, _ := GridPoint(x, u);
    var q, n, _ := GridPoint(y, u);
    if q < p {
      Strictly(q, p, u);
    }
    RoundEvenMonotone(p, q);
    Times(m as real, n as real, u);
  }

  lemma Strictly(a: real, b: real, u: real)
    requires a < b && 0.0 < u
    ensures a * u < b * u
  {
    assert 0.0 < (b - a) * u;
  }

  lemma GridFixed(k: int, u: real)
    requires 0.0 < u
    ensures OnGridOf(k as real * u, u) == k as real * u
  {
    hide RoundEven, OnGridOf;
    GridNearest(k as real * u, u, k);
  }

  // ----- rounding to binary64

  /** The error of one rounding is at most half a unit in the last place. */
  lemma RoundingError(x: real)
    requires 0.0 <= x
    ensures -Ulp(x) <= 2.0 * (Fl(x) - x) <= Ulp(x)
  {
    GridError(x, Ulp(x));
  }

  lemma BinadeBounds(x: real)
    requires 0.0 <= x
    ensures UlpExp(x) < MAX_EXP ==> Fl(x) <= Pow2(UlpExp(x) + 53)
    ensures MIN_EXP < UlpExp(x) ==> Pow2(UlpExp(x) + 52) <= Fl(x)
    ensures 0.0 <= Fl(x)
  {
    hide RoundEven, OnGridOf;
    var e, u := UlpExp(x), Ulp(x);
    Pow2Binade(e);
    GridFixed(0, u);
    GridMonotone(0.0, x, u);
    if e < MAX_EXP {
      GridFixed(0x20_0000_0000_0000, u);
      GridMonotone(x, 9007199254740992.0 * u, u);
    }
    if MIN_EXP < e {
      GridFixed(0x10_0000_0000_0000, u);
      GridMonotone(4503599627370496.0 * u, x, u);
    }
  }

  /** Rounding to binary64 preserves order. */
  lemma FlMonotone(x: real, y: real)
    requires 0.0 <= x <= y
    ensures Fl(x) <= Fl(y)
  {
    UlpMonotone(x, y);
    if UlpExp(x) == UlpExp(y) {
      GridMonotone(x, y, Ulp(x));
    } else {
      BinadeBounds(x);
      BinadeBounds(y);
      Pow2Monotone(UlpExp(x) + 53, UlpExp(y) + 52);
    }
  }

  lemma AtMost53Bits(x: real)
    requires 0.0 <= x && UlpExp(x) < MAX_EXP
    ensures 0.0 <= Fl(x) <= 9007199254740992.0 * Ulp(x)
  {
    hide Fl, RoundEven;
    Pow2Binade(UlpExp(x));
    BinadeBounds(x);
  }

  // The multiple that a rounding chooses has at most 53 bits.
  lemma Mantissa(x: real) returns (m: int)
    requires 0.0 <= x && UlpExp(x) < MAX_EXP
    ensures 0 <= m <= 0x20_0000_0000_0000 && Fl(x) == m as real * Ulp(x)
  {
    hide RoundEven, OnGridOf, Pow2, Ulp;
    var q, n, _ := GridPoint(x, Ulp(x));
    m := n;
    AtMost53Bits(x);
    Factor(0, m, Ulp(x), 0.0, Fl(x));
    Factor(m, 0x20_0000_0000_0000, Ulp(x), Fl(x), 9007199254740992.0 * Ulp(x));
  }

  lemma Factor(a: int, b: int, u: real, p: real, r: real)
    requires 0.0 < u && p == a as real * u && r == b as real * u && p <= r
    ensures a <= b
  {
    if b < a {
      Strictly(b as real, a as real, u);
    }
  }

  /** The result of a rounding is a double, for every magnitude below the top binade. */
  lemma FlIsDouble(x: real)
    requires 0.0 <= x && UlpExp(x) < MAX_EXP
    ensures IsDouble(Fl(x))
  {
    hide Fl, RoundEven;
    var e := UlpExp(x);
    var m := Mantissa(x);
    if m < 0x20_0000_0000_0000 {
      assert Scaled(m, e, Fl(x));
    } else {
      Pow2Step(e);
      assert Scaled(0x10_0000_0000_0000, e + 1, Fl(x));
    }
  }

  lemma {:induction false} Pow2Multiple(low: int, e: int) returns (n: nat)
    requires low <= e
    ensures Pow2(e) == n as real * Pow2(low) && 1 <= n
    decreases e - low
  {
    if low == e {
      n := 1;
    } else {
      var h := Pow2Multiple(low, e - 1);
      n := 2 * h;
      Pow2Step(e - 1);
      Regroup(2, h, Pow2(low));
    }
  }

  lemma Substitute(m: int, n: int, u: real, v: real)
    requires v == n as real * u
    ensures m as real * v == (m * n) as real * u
  {
    Regroup(m, n, u);
  }

  lemma FlBeats(x: real, k: int)
    requires 0.0 <= x
    ensures Abs(Fl(x) - x) <= Abs(k as real * Ulp(x) - x)
  {
    GridNearest(x, Ulp(x), k);
  }

  /** No double is nearer to x than its rounding. */
  lemma FlIsNearest(x: real, y: real)
    requires 0.0 <= x && IsDouble(y)
    ensures Abs(Fl(x) - x) <= Abs(y - x)
  {
    hide Fl, Pow2, UlpExp, Abs;
    var m: int, e: int :| MIN_EXP <= e <= MAX_EXP && Scaled(m, e, y);
    if UlpExp(x) <= e {
      BeatsCoarser(x, y, m, e);
    } else {
      BeatsFiner(x, y, m, e);
    }
  }

  lemma BeatsCoarser(x: real, y: real, m: int, e: int)
    requires 0.0 <= x && UlpExp(x) <= e && y == m as real * Pow2(e)
    ensures Abs(Fl(x) - x) <= Abs(y - x)
  {
    hide Fl, Pow2, UlpExp;
    var n := Pow2Multiple(UlpExp(x), e);
    Substitute(m, n, Ulp(x), Pow2(e));
    FlBeats(x, m * n);
  }

  lemma BeatsFiner(x: real, y: real, m: int, e: int)
    requires 0.0 <= x && MIN_EXP <= e < UlpExp(x) && Scaled(m, e, y)
    ensures Abs(Fl(x) - x) <= Abs(y - x)
  {
    hide Fl, Pow2, UlpExp;
    SmallDouble(x, m, e);
    FlBeats(x, 0x10_0000_0000_0000);
  }

  // A double of a finer binade lies below the whole binade of x.
  lemma SmallDouble(x: real, m: int, e: int)
    requires e < UlpExp(x) && m < 0x20_0000_0000_0000 && MIN_EXP <= e
    ensures m as real * Pow2(e) <= 4503599627370496.0 * Ulp(x) <= x
  {
    hide Fl, Pow2;
    var ex := UlpExp(x);
    Pow2Binade(ex);
    Pow2Binade(e);
    Pow2Monotone(e + 53, ex + 52);
    Times(m as real, 9007199254740992.0, Pow2(e));
  }

  // ----- subtraction

  lemma MultipleOf(x: real, low: int) returns (k: int)
    requires 0.0 <= x && MIN_EXP <= low <= UlpExp(x)
    ensures Fl(x) == k as real * Pow2(low)
  {
    hide OnGridOf, RoundEven, Pow2;
    var q, m, _ := GridPoint(x, Ulp(x));
    var n := Pow2Multiple(low, UlpExp(x));
    Substitute(m, n, Pow2(low), Ulp(x));
    k := m * n;
  }

  lemma FixedMultiple(x: real, n: int)
    requires 0.0 <= x && x == n as real * Ulp(x)
    ensures Fl(x) == x
  {
    GridNearest(x, Ulp(x), n);
  }

  lemma PowerIsFixed(e: int)
    requires MIN_EXP <= e <= MAX_EXP
    ensures Fl(Pow2(e)) == Pow2(e)
  {
    hide Fl, RoundEven, Pow2;
    var r := UlpExp(Pow2(e));
    if e < r {
      Pow2Monotone(e, r);
      Pow2Binade(r);
    }
    var n := Pow2Multiple(r, e);
    FixedMultiple(Pow2(e), n);
  }

  // Two different multiples of u are at least u apart.
  lemma Apart(i: int, j: int, u: real, x: real, y: real)
    requires 0.0 < u && x == i as real * u && y == j as real * u && x < y
    ensures u <= y - x
  {
    if j <= i {
      Times(j as real, i as real, u);
    } else {
      Times((i + 1) as real, j as real, u);
      Distribute((i + 1) as real, i as real, 1.0, u);
    }
  }

  lemma GapRoundsToPositive(x: real, y: real)
    requires 0.0 <= x && 0.0 <= y && Fl(x) < Fl(y)
    ensures 0.0 < Fl(Fl(y) - Fl(x))
  {
    hide Fl, RoundEven, Pow2;
    var low := if UlpExp(x) < UlpExp(y) then UlpExp(x) else UlpExp(y);
    var i := MultipleOf(x, low);
    var j := MultipleOf(y, low);
    Apart(i, j, Pow2(low), Fl(x), Fl(y));
    PowerIsFixed(low);
    FlMonotone(Pow2(low), Fl(y) - Fl(x));
  }

  /** A number strictly closest to a multiple of its spacing rounds to that multiple. */
  lemma RoundsTo(x: real, e: int, k: int, y: real)
    requires 0.0 <= x && InBinade(x, e)
    requires y == k as real * Pow2(e) && 2.0 * Abs(y - x) < Pow2(e)
    ensures Fl(x) == y
  {
    hide Fl, Pow2, Abs;
    BinadeIsUnique(x, e, UlpExp(x));
    ClosestMultiple(x, k, y);
  }

  lemma ClosestMultiple(x: real, k: int, y: real)
    requires 0.0 <= x && y == k as real * Ulp(x) && 2.0 * Abs(y - x) < Ulp(x)
    ensures Fl(x) == y
  {
    hide *;
    var m := OwnMultiple(x);
    SameMultiple(m, k, Ulp(x), Fl(x), y, x);
  }

  lemma OwnMultiple(x: real) returns (m: int)
    requires 0.0 <= x
    ensures Fl(x) == m as real * Ulp(x)
    ensures -Ulp(x) <= 2.0 * (Fl(x) - x) <= Ulp(x)
  {
    hide OnGridOf, RoundEven, Ulp;
    RoundingError(x);
    var q, n, _ := GridPoint(x, Ulp(x));
    m := n;
  }

  lemma SameMultiple(m: int, k: int, u: real, p: real, y: real, x: real)
    requires 0.0 < u && p == m as real * u && y == k as real * u
    requires -u <= 2.0 * (p - x) <= u && 2.0 * Abs(y - x) < u
    ensures p == y
  {
    if p < y {
      Apart(m, k, u, p, y);
    } else if y < p {
      Apart(k, m, u, y, p);
    }
  }

  /** The sign of a floating-point difference of two rounded numbers is the sign of
      their order: a subtraction of doubles never rounds to the wrong side of zero. */
  lemma DifferenceSign(x: real, y: real)
    requires 0.0 <= x && 0.0 <= y
    ensures Fl(Fl(x) - Fl(y)) < 0.0 <==> Fl(x) < Fl(y)
  {
    if Fl(x) < Fl(y) {
      GapRoundsToPositive(x, y);
    } else {
      BinadeBounds(Fl(x) - Fl(y));
    }
  }
}
