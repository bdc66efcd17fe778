/** Currency conversion: decimal multiplication under a 28-digit context, then quantization to
    cents, both rounding half to even (roundTiesToEven, section 4.3.1 of IEEE 754-2008). */
module Converter {
  import opened Errors

  /** A finite decimal: coef * 10^exp. */
  datatype Decimal = Decimal(coef: int, exp: int)

  const PREC: nat := 28

  function Pow10(n: nat): (p: nat)
    ensures p >= 1
  {
    if n == 0 then 1 else 10 * Pow10(n - 1)
  }

  function Abs(n: int): nat {
    if n < 0 then -n else n
  }

  /** The length of the coefficient's digit string. */
  function Digits(n: nat): (d: nat)
    ensures d >= 1
  {
    if n < 10 then 1 else 1 + Digits(n / 10)
  }

  function RoundMagnitude(n: nat, d: nat): int
    requires d > 0
  {
    var q, r := n / d, n % d;
    if 2 * r > d || (2 * r == d && q % 2 == 1) then q + 1 else q
  }

  /** Round n/d to an integer: sign and magnitude apart, ties to the even neighbour. */
  function RoundHalfEven(n: int, d: nat): int
    requires d > 0
  {
    if n < 0 then -RoundMagnitude(-n, d) else RoundMagnitude(n, d)
  }

  /** How many low digits the context drops from a coefficient. */
  function Excess(c: int): nat {
    if Digits(Abs(c)) <= PREC then 0 else Digits(Abs(c)) - PREC
  }

  /** Fit a result to the context: round to 28 digits, and renormalize if that carried. */
  function Fix(x: Decimal): Decimal {
    var d := Excess(x.coef);
    if d == 0 then x
    else
      var q := RoundHalfEven(x.coef, Pow10(d));
      if Abs(q) == Pow10(PREC) then Decimal(q / 10, x.exp + d + 1) else Decimal(q, x.exp + d)
  }

  function Times(x: Decimal, y: Decimal): Decimal {
    Fix(Decimal(x.coef * y.coef, x.exp + y.exp))
  }

  /** The coefficient at exponent -2, before its length is checked. */
  function AtCents(x: Decimal): int {
    if x.exp >= -2 then x.coef * Pow10(x.exp + 2) else RoundHalfEven(x.coef, Pow10(-2 - x.exp))
  }

  /** `x.quantize(Decimal("0.01"))` in cents; None is InvalidOperation, raised when the result
      needs more digits than the context has. */
  function QuantizeToCents(x: Decimal): Option<int> {
    var q := AtCents(x);
    if Digits(Abs(q)) > PREC then None else Some(q)
  }

  /** `convert_to_usd`, in cents. */
  function ConvertToUsd(amount: Decimal, rate: Decimal): Option<int> {
    QuantizeToCents(Times(amount, rate))
  }

  // ----- what the result means, over the reals -----

  /** x * 10^e, also for negative e. */
  function Shift(x: real, e: int): real
    decreases Abs(e)
  {
    if e == 0 then x else if e > 0 then 10.0 * Shift(x, e - 1) else Shift(x, e + 1) / 10.0
  }

  function Value(x: Decimal): real {
    Shift(x.coef as real, x.exp)
  }

  /** The exact product in cents. */
  function TrueCents(amount: Decimal, rate: Decimal): real {
    Shift((amount.coef * rate.coef) as real, amount.exp + rate.exp + 2)
  }

  /** q is the integer nearest to x, the even one of two equally near. */
  predicate IsNearest(x: real, q: int) {
    && -0.5 <= x - q as real <= 0.5
    && (x - q as real == 0.5 || x - q as real == -0.5 ==> q % 2 == 0)
  }

  lemma NearestIsMonotone(x: real, p: int, y: real, q: int)
    requires x <= y && IsNearest(x, p) && IsNearest(y, q)
    ensures p <= q
  {
  }

  lemma NearestIsUnique(x: real, p: int, q: int)
    requires IsNearest(x, p) && IsNearest(x, q)
    ensures p == q
  {
    NearestIsMonotone(x, p, x, q);
    NearestIsMonotone(x, q, x, p);
  }

  /** IsNearest for a quotient, in integers. */
  predicate Nearest(n: int, d: int, q: int) {
    && -d <= 2 * (n - q * d) <= d
    && (2 * (n - q * d) == d || 2 * (n - q * d) == -d ==> q % 2 == 0)
  }

  lemma RoundsToNearest(n: int, d: nat)
    requires d > 0
    ensures Nearest(n, d, RoundHalfEven(n, d))
  {
    MagnitudeIsNearest(Abs(n), d);
    NegatedProduct(RoundMagnitude(Abs(n), d), d);
  }

  lemma MagnitudeIsNearest(n: nat, d: nat)
    requires d > 0
    ensures Nearest(n, d, RoundMagnitude(n, d))
  {
    DivisionIs(n, d);
    NextMultiple(n / d, d);
  }

  lemma DivisionIs(n: int, d: nat)
    requires d > 0
    ensures n == (n / d) * d + n % d && 0 <= n % d < d
  {}

  lemma NextMultiple(q: int, d: int)
    ensures (q + 1) * d == q * d + d
  {}

  lemma NearestQuotient(n: int, d: nat, q: int)
    requires d > 0
    ensures Nearest(n, d, q) <==> IsNearest(n as real / d as real, q)
  {
    var t, k := n as real / d as real - q as real, n - q * d;
    Residue(n, d, q, q * d, t);
    HalfOf(t, d as real, k as real);
    SameHalves(k, d, q, t);
  }

  lemma Residue(n: int, d: nat, q: int, qd: int, t: real)
    requires d > 0 && qd == q * d && t == n as real / d as real - q as real
    ensures t * d as real == (n - qd) as real
  {
    RealProduct(q, d, qd);
  }

  lemma HalfOf(t: real, d: real, td: real)
    requires d > 0.0 && td == t * d
    ensures t <= 0.5 <==> 2.0 * td <= d
    ensures t >= -0.5 <==> 2.0 * td >= -d
    ensures t == 0.5 <==> 2.0 * td == d
    ensures t == -0.5 <==> 2.0 * td == -d
  {
    assert 2.0 * td - d == (2.0 * t - 1.0) * d;
    assert 2.0 * td + d == (2.0 * t + 1.0) * d;
  }

  /** The linear step: comparing t with one half is comparing 2k with d. */
  lemma SameHalves(k: int, d: int, q: int, t: real)
    requires t <= 0.5 <==> 2.0 * k as real <= d as real
    requires t >= -0.5 <==> 2.0 * k as real >= -(d as real)
    requires t == 0.5 <==> 2.0 * k as real == d as real
    requires t == -0.5 <==> 2.0 * k as real == -(d as real)
    ensures (-d <= 2 * k <= d && (2 * k == d || 2 * k == -d ==> q % 2 == 0))
       <==> (-0.5 <= t <= 0.5 && (t == 0.5 || t == -0.5 ==> q % 2 == 0))
  {}

  lemma NearestUnique(n: int, d: nat, p: int, q: int)
    requires d > 0 && Nearest(n, d, p) && Nearest(n, d, q)
    ensures p == q
  {
    NearestQuotient(n, d, p);
    NearestQuotient(n, d, q);
    NearestIsUnique(n as real / d as real, p, q);
  }

  // ----- digits and powers of ten -----

  lemma {:induction false} PowerSum(m: nat, n: nat)
    ensures Pow10(m + n) == Pow10(m) * Pow10(n)
  {
    if m > 0 {
      PowerSum(m - 1, n);
      assert 10 * (Pow10(m - 1) * Pow10(n)) == Pow10(m) * Pow10(n);
    }
  }

  /** n is written with at most k digits exactly when it is below 10^k. */
  lemma {:induction false} DigitsBound(n: nat, k: nat)
    requires k >= 1
    ensures Digits(n) <= k <==> n < Pow10(k)
  {
    if k == 1 {
      assert Pow10(1) == 10 * Pow10(0) == 10;
    } else if n < 10 {
      assert Pow10(k) == 10 * Pow10(k - 1);
    } else {
      DigitsBound(n / 10, k - 1);
      assert Pow10(k) == 10 * Pow10(k - 1);
    }
  }

  lemma {:induction false} ShiftTwice(x: real, m: int, n: int)
    ensures Shift(Shift(x, m), n) == Shift(x, m + n)
    decreases Abs(n)
  {
    if n > 0 {
      ShiftTwice(x, m, n - 1);
    } else if n < 0 {
      ShiftTwice(x, m, n + 1);
    }
  }

  lemma {:induction false} ShiftMonotone(x: real, y: real, e: int)
    requires x <= y
    ensures Shift(x, e) <= Shift(y, e)
    ensures x < y ==> Shift(x, e) < Shift(y, e)
    ensures Shift(-x, e) == -Shift(x, e)
    decreases Abs(e)
  {
    if e > 0 {
      ShiftMonotone(x, y, e - 1);
    } else if e < 0 {
      ShiftMonotone(x, y, e + 1);
    }
  }

  lemma {:induction false} ShiftFurther(x: real, m: int, n: int)
    requires x >= 0.0 && m <= n
    ensures 0.0 <= Shift(x, m) <= Shift(x, n)
    decreases n - m
  {
    ShiftMonotone(0.0, x, m);
    ShiftZero(m);
    if m < n {
      ShiftFurther(x, m + 1, n);
      ShiftTwice(x, m, 1);
      assert Shift(Shift(x, m), 1) == 10.0 * Shift(Shift(x, m), 0);
    }
  }

  lemma {:induction false} ShiftZero(e: int)
    ensures Shift(0.0, e) == 0.0
    decreases Abs(e)
  {
    if e > 0 { ShiftZero(e - 1); } else if e < 0 { ShiftZero(e + 1); }
  }

  /** Shifting up is a product, and shifting down a quotient, by a power of ten. */
  lemma {:induction false} ShiftIsPower(c: int, s: nat)
    ensures Shift(c as real, s) == (c * Pow10(s)) as real
  {
    if s > 0 {
      ShiftIsPower(c, s - 1);
      assert c * Pow10(s) == 10 * (c * Pow10(s - 1));
    }
  }

  lemma ShiftedDown(c: int, s: nat)
    ensures Shift(c as real, -(s as int)) == c as real / Pow10(s) as real
  {
    var p := Pow10(s) as real;
    var y := c as real / p;
    ShiftScales(p, y, c as real, -(s as int));
    ShiftIsPower(1, s);
    ShiftTwice(1.0, s, -(s as int));
    assert p * y == c as real;
  }

  lemma {:induction false} ShiftScales(x: real, y: real, xy: real, e: int)
    requires xy == x * y
    ensures Shift(xy, e) == Shift(x, e) * y
    decreases Abs(e)
  {
    if e > 0 {
      ShiftScales(x, y, xy, e - 1);
      TenTimes(Shift(x, e - 1), y);
    } else if e < 0 {
      ShiftScales(x, y, xy, e + 1);
      TenTimes(Shift(x, e), y);
    }
  }

  lemma TenTimes(x: real, y: real)
    ensures 10.0 * (x * y) == (10.0 * x) * y
  {}

  lemma ShiftScalesRight(x: real, y: real, xy: real, e: int)
    requires xy == x * y
    ensures Shift(xy, e) == x * Shift(y, e)
  {
    Commutes(x, y);
    ShiftScales(y, x, xy, e);
    Commutes(Shift(y, e), x);
  }

  lemma TrueCentsIsProduct(amount: Decimal, rate: Decimal)
    ensures TrueCents(amount, rate) == 100.0 * (Value(amount) * Value(rate))
  {
    var c := Coefficient(amount, rate);
    var z := ProductInCents(c, Value(amount), rate.coef as real, Value(rate), amount.exp, rate.exp);
  }

  /** The coefficient c of the product; scaled like the amount, it is the amount times b. */
  lemma Coefficient(amount: Decimal, rate: Decimal) returns (c: real)
    ensures TrueCents(amount, rate) == Shift(c, amount.exp + rate.exp + 2)
    ensures Shift(c, amount.exp) == Value(amount) * rate.coef as real
  {
    c := (amount.coef * rate.coef) as real;
    RealProduct(amount.coef, rate.coef, amount.coef * rate.coef);
    ShiftScales(amount.coef as real, rate.coef as real, c, amount.exp);
  }

  /** The product z of the two values, and its hundredfold. */
  lemma ProductInCents(c: real, x: real, b: real, y: real, m: int, n: int) returns (z: real)
    requires Shift(c, m) == x * b && y == Shift(b, n)
    ensures z == x * y && Shift(c, m + n + 2) == 100.0 * z
  {
    z := Shift(c, m + n);
    ShiftScalesRight(x, b, Shift(c, m), n);
    ShiftTwice(c, m, n);
    Doubly(c, m + n);
  }

  lemma Doubly(c: real, e: int)
    ensures Shift(c, e + 2) == 100.0 * Shift(c, e)
  {
    ShiftTwice(c, e, 2);
    Hundredfold(Shift(c, e));
  }

  lemma Hundredfold(x: real)
    ensures Shift(x, 2) == 100.0 * x
  {
    assert Shift(x, 1) == 10.0 * Shift(x, 0);
  }

  lemma Commutes(x: real, y: real)
    ensures x * y == y * x
  {}

  lemma RealProduct(a: int, b: int, ab: int)
    requires ab == a * b
    ensures ab as real == a as real * b as real
  {}

  // ----- the two rounding stages -----

  lemma TenfoldNearest(n: int, d: int, q: int)
    ensures Nearest(10 * n, 10 * d, q) <==> Nearest(n, d, q)
  {
    assert q * (10 * d) == 10 * (q * d);
  }

  /** The cents of a decimal do not depend on trailing zeros of its coefficient. */
  lemma TrailingZero(k: int, e: int)
    ensures AtCents(Decimal(10 * k, e)) == AtCents(Decimal(k, e + 1))
  {
    if e >= -2 {
      assert Pow10(e + 3) == 10 * Pow10(e + 2);
      assert (10 * k) * Pow10(e + 2) == k * (10 * Pow10(e + 2));
    } else {
      var d := Pow10(-3 - e);
      assert Pow10(-2 - e) == 10 * d;
      var q := RoundHalfEven(10 * k, 10 * d);
      RoundsToNearest(10 * k, 10 * d);
      RoundsToNearest(k, d);
      TenfoldNearest(k, d, q);
      NearestUnique(k, d, q, RoundHalfEven(k, d));
      RoundByOne(k);
    }
  }

  lemma RoundByOne(k: int)
    ensures RoundHalfEven(k, Pow10(0)) == k
  {
    assert Pow10(0) == 1;
  }

  lemma NearestAtLeast(n: int, d: int, q: int, t: int)
    requires d > 0 && Nearest(n, d, q) && n >= t * d
    ensures q >= t
  {
    if q < t {
      assert t * d - q * d == (t - q) * d;
      MulAtLeast(t - q, d);
      assert false;
    }
  }

  lemma MulAtLeast(k: int, d: int)
    requires k >= 1 && d > 0
    ensures k * d >= d
  {}

  lemma RoundIsOdd(n: int, d: nat)
    requires d > 0
    ensures RoundHalfEven(-n, d) == -RoundHalfEven(n, d)
    ensures n >= 0 ==> RoundHalfEven(n, d) >= 0
    ensures Abs(RoundHalfEven(n, d)) == RoundHalfEven(Abs(n), d)
  {
    MagnitudeIsNonNegative(Abs(n), d);
  }

  lemma MagnitudeIsNonNegative(n: nat, d: nat)
    requires d > 0
    ensures RoundMagnitude(n, d) >= 0 && (n == 0 ==> RoundMagnitude(n, d) == 0)
  {
    if n == 0 { QuotientIs(0, d, 0, 0); } else { QuotientIsNonNegative(n, d); }
  }

  lemma QuotientIsNonNegative(n: nat, d: nat)
    requires d > 0
    ensures n / d >= 0
  {}

  /** The coefficient after rounding to 28 digits keeps at least 28 of them. */
  lemma RoundedKeepsDigits(c: int)
    requires Excess(c) > 0
    ensures Abs(RoundHalfEven(c, Pow10(Excess(c)))) >= Pow10(PREC - 1)
  {
    var d := Excess(c);
    DigitsBound(Abs(c), PREC - 1 + d);
    PowerSum(PREC - 1, d);
    RoundIsOdd(c, Pow10(d));
    RoundsToNearest(Abs(c), Pow10(d));
    NearestAtLeast(Abs(c), Pow10(d), RoundHalfEven(Abs(c), Pow10(d)), Pow10(PREC - 1));
  }

  /** Multiplying 28 digits by a positive power of ten does not fit the context. */
  lemma TooLong(p: int, n: nat)
    requires Abs(p) >= Pow10(PREC - 1) && n > 0
    ensures Digits(Abs(p * Pow10(n))) > PREC
  {
    var t := Pow10(n);
    assert t >= 10;
    assert Abs(p * t) == Abs(p) * t;
    MulMonotone(Pow10(PREC - 1), Abs(p), 10, t);
    assert Pow10(PREC) == 10 * Pow10(PREC - 1);
    DigitsBound(Abs(p * t), PREC);
  }

  lemma MulMonotone(a: nat, b: nat, x: nat, y: nat)
    requires a <= b && x <= y
    ensures a * x <= b * y
  {
    assert a * x <= b * x;
  }

  lemma TenDivides(p: int, t: int)
    requires Abs(p) == 10 * t
    ensures p == 10 * (p / 10)
  {}

  lemma Renormalized(p: int, e: int)
    requires Abs(p) == Pow10(PREC)
    ensures AtCents(Decimal(p / 10, e + 1)) == AtCents(Decimal(p, e))
  {
    TenDivides(p, Pow10(PREC - 1));
    TrailingZero(p / 10, e);
  }

  /** The conversion as one rounding to 28 digits followed by one to cents. */
  lemma TwoStages(c: int, e: int, p: int)
    requires p == RoundHalfEven(c, Pow10(Excess(c)))
    ensures AtCents(Fix(Decimal(c, e))) == AtCents(Decimal(p, e + Excess(c)))
  {
    if Excess(c) == 0 {
      RoundByOne(c);
    } else if Abs(p) == Pow10(PREC) {
      Renormalized(p, e + Excess(c));
    }
  }

  lemma FitsAfterDropping(p: int, x: int)
    requires Abs(p) >= Pow10(PREC - 1) && QuantizeToCents(Decimal(p, x)).Some?
    ensures x <= -2
  {
    if x > -2 {
      TooLong(p, x + 2);
    }
  }

  /** What a successful conversion of the product c * 10^e computed: p is c with its d lowest
      digits rounded off, and q is p rounded to cents, s digits above c. */
  lemma Stages(c: int, e: int, q: int) returns (s: int, d: nat, p: int)
    requires QuantizeToCents(Fix(Decimal(c, e))) == Some(q)
    ensures s == -2 - e && d == Excess(c) && p == RoundHalfEven(c, Pow10(d))
    ensures d > 0 ==> s >= d
    ensures q == if s <= d then p * Pow10(d - s) else RoundHalfEven(p, Pow10(s - d))
  {
    s, d := -2 - e, Excess(c);
    p := RoundHalfEven(c, Pow10(d));
    assert q == AtCents(Decimal(p, e + d)) by { TwoStages(c, e, p); }
    if d > 0 {
      RoundedKeepsDigits(c);
      FitsAfterDropping(p, e + d);
    }
  }

  /** The 28-digit rounding landed exactly on half a cent although the product is not there,
      and came from the side of the odd cent. */
  predicate MisroundedTie(amount: Decimal, rate: Decimal) {
    var c, s := amount.coef * rate.coef, -2 - amount.exp - rate.exp;
    var d := Excess(c);
    s > d && TieFromOddSide(c, Pow10(d), RoundHalfEven(c, Pow10(d)), Pow10(s - d))
  }

  /** p*u is an odd multiple of half of u*w, c is not, and c lies on the side of the odd
      multiple of u*w. */
  predicate TieFromOddSide(c: int, u: int, p: int, w: int)
    requires w > 0
  {
    c != p * u && 2 * (p % w) == w && (c < p * u <==> (p / w) % 2 == 1)
  }

  /** Rounding to a multiple of u and then to a multiple of u*w differs from rounding once
      exactly when the first step creates a tie that the second resolves the wrong way. */
  lemma DoubleRounding(c: int, u: int, p: int, w: int, q: int)
    requires u > 0 && w > 0 && w % 2 == 0
    requires Nearest(c, u, p) && Nearest(p, w, q)
    ensures Nearest(c, u * w, q) <==> !TieFromOddSide(c, u, p, w)
  {
    var k := p - q * w;
    Regrouped(p, q, w, u);
    MulAtLeast(w, u);
    ResidueInside(k, u, w);
    ResidueInside(-k, u, w);
    if k >= 0 { QuotientIs(p, w, q, k); } else { QuotientIs(p, w, q - 1, k + w); }
    Sided(c, u, p * u, k, k * u, w, u * w, q, q * (u * w));
    assert p / w == (if k >= 0 then q else q - 1);
    assert p % w == (if k >= 0 then k else k + w);
  }

  /** The linear core: n is q*u*w, which lies ku below p*u. */
  lemma Sided(c: int, u: int, pu: int, k: int, ku: int, w: int, uw: int, q: int, n: int)
    requires 0 < u <= uw && w > 0 && -u <= 2 * (c - pu) <= u && -w <= 2 * k <= w
    requires n == pu - ku
    requires 2 * k == w ==> q % 2 == 0 && 2 * ku == uw
    requires 2 * k == -w ==> q % 2 == 0 && 2 * ku == -uw
    requires -w < 2 * k < w ==> 2 * u - uw <= 2 * ku <= uw - 2 * u
    ensures (-uw <= 2 * (c - n) <= uw
             && (2 * (c - n) == uw || 2 * (c - n) == -uw ==> q % 2 == 0))
       <==> !(c != pu && (2 * k == w || 2 * k == -w)
             && (c < pu <==> (if k >= 0 then q else q - 1) % 2 == 1))
  {}

  lemma Regrouped(p: int, q: int, w: int, u: int)
    ensures q * (u * w) == p * u - (p - q * w) * u
  {
    assert (p - q * w) * u == p * u - (q * w) * u;
    assert (q * w) * u == q * (u * w);
  }

  lemma ResidueInside(k: int, u: int, w: int)
    requires u > 0 && w % 2 == 0 && 2 * k <= w
    ensures (-k) * u == -(k * u)
    ensures 2 * k == w ==> 2 * (k * u) == u * w
    ensures 2 * k < w ==> 2 * (k * u) <= u * w - 2 * u
  {
    var h := w / 2;
    assert w == 2 * h;
    assert 2 * (h * u) == u * w;
    if k < h {
      assert (h - k) * u == h * u - k * u;
      MulAtLeast(h - k, u);
    }
  }

  lemma QuotientIs(n: int, d: int, q: int, r: int)
    requires n == q * d + r && 0 <= r < d
    ensures n / d == q && n % d == r
  {
    var t := n / d - q;
    assert t * d == r - n % d;
    if t >= 1 {
      MulAtLeast(t, d);
    } else if t <= -1 {
      MulAtLeast(-t, d);
    }
  }

  lemma EvenPower(n: nat)
    requires n > 0
    ensures Pow10(n) % 2 == 0
  {
    assert Pow10(n) == 2 * (5 * Pow10(n - 1));
  }

  /** Exactly when the code rounds the true product correctly.  The docstring's claim that the
      28-digit context never affects the result fails on MisroundedTie, and only there. */
  lemma CorrectUnlessMisroundedTie(amount: Decimal, rate: Decimal, q: int)
    requires ConvertToUsd(amount, rate) == Some(q)
    ensures IsNearest(TrueCents(amount, rate), q) <==> !MisroundedTie(amount, rate)
  {
    var c := amount.coef * rate.coef;
    var s, d, p := Stages(c, amount.exp + rate.exp, q);
    StagesAreCorrect(c, s, d, p, q);
  }

  /** The docstring's claim does hold of every product that fits the context. */
  lemma ShortProductsAreCorrect(amount: Decimal, rate: Decimal, q: int)
    requires ConvertToUsd(amount, rate) == Some(q) && Abs(amount.coef * rate.coef) < Pow10(PREC)
    ensures IsNearest(TrueCents(amount, rate), q)
  {
    var c := amount.coef * rate.coef;
    DigitsBound(Abs(c), PREC);
    RoundByOne(c);
    CorrectUnlessMisroundedTie(amount, rate, q);
  }

  lemma StagesAreCorrect(c: int, s: int, d: nat, p: int, q: int)
    requires d > 0 ==> s >= d
    requires p == RoundHalfEven(c, Pow10(d))
    requires q == if s <= d then p * Pow10(d - s) else RoundHalfEven(p, Pow10(s - d))
    ensures IsNearest(Shift(c as real, -s), q)
       <==> !(s > d && TieFromOddSide(c, Pow10(d), p, Pow10(s - d)))
  {
    RoundsToNearest(c, Pow10(d));
    if s <= 0 {
      RoundByOne(c);
      ShiftIsPower(c, -s);
    } else {
      ShiftedDown(c, s);
      if s <= d {
        NearestQuotient(c, Pow10(d), p);
      } else {
        RoundsToNearest(p, Pow10(s - d));
        EvenPower(s - d);
        PowerSum(d, s - d);
        DoubleRounding(c, Pow10(d), p, Pow10(s - d), q);
        NearestQuotient(c, Pow10(s), q);
      }
    }
  }

  /** However large the product, two roundings stay strictly within one cent of it. */
  lemma WithinOneCent(amount: Decimal, rate: Decimal, q: int)
    requires ConvertToUsd(amount, rate) == Some(q)
    ensures -1.0 < TrueCents(amount, rate) - q as real < 1.0
  {
    var c := amount.coef * rate.coef;
    var s, d, p := Stages(c, amount.exp + rate.exp, q);
    if s > d {
      StagesAreClose(c, s, d, p, q);
    } else {
      StagesAreCorrect(c, s, d, p, q);
    }
  }

  lemma StagesAreClose(c: int, s: int, d: nat, p: int, q: int)
    requires s > d && p == RoundHalfEven(c, Pow10(d)) && q == RoundHalfEven(p, Pow10(s - d))
    ensures -1.0 < Shift(c as real, -s) - q as real < 1.0
  {
    RoundsToNearest(c, Pow10(d));
    RoundsToNearest(p, Pow10(s - d));
    PowerSum(d, s - d);
    TwoErrors(c, Pow10(d), p, Pow10(s - d), q);
    QuotientWithin(c, Pow10(s), q);
    ShiftedDown(c, s);
  }

  lemma TwoErrors(c: int, u: int, p: int, w: int, q: int)
    requires u > 0 && w > 1
    requires Nearest(c, u, p) && Nearest(p, w, q)
    ensures -(u * w) < c - q * (u * w) < u * w
  {
    var k := p - q * w;
    Regrouped(p, q, w, u);
    Bounded(2 * k, w, u);
    MulAtLeast(w - 1, u);
    assert (2 * k) * u == 2 * (k * u);
    assert (w - 1) * u == w * u - u;
  }

  lemma Bounded(k: int, w: int, u: int)
    requires u > 0 && -w <= k <= w
    ensures -(w * u) <= k * u <= w * u
  {
    assert (w - k) * u >= 0 && (w + k) * u >= 0;
  }

  lemma QuotientWithin(n: int, d: int, q: int)
    requires d > 0 && -d < n - q * d < d
    ensures -1.0 < n as real / d as real - q as real < 1.0
  {
    var t := n as real / d as real - q as real;
    Residue(n, d, q, q * d, t);
    UnitOf(t, d as real, (n - q * d) as real);
  }

  lemma UnitOf(t: real, d: real, td: real)
    requires d > 0.0 && td == t * d && -d < td < d
    ensures -1.0 < t < 1.0
  {
    assert (t - 1.0) * d == td - d;
    assert (t + 1.0) * d == td + d;
  }

  // ----- products below 10^16 -----

  /** At most 4 decimals in the amount and 8 in the rate, and a product below 10^16 units. */
  ghost predicate ShortProduct(amount: Decimal, rate: Decimal) {
    && amount.exp >= -4 && rate.exp >= -8
    && -Shift(1.0, 18) < TrueCents(amount, rate) < Shift(1.0, 18)
  }

  lemma CoefficientFits(c: int, e: int)
    requires e >= -10 && -Shift(1.0, 18) < Shift(c as real, e) < Shift(1.0, 18)
    ensures Abs(c) < Pow10(PREC)
  {
    var a := Abs(c) as real;
    assert Shift(a, e) < Shift(1.0, 18) by {
      assert a == c as real || a == -(c as real);
      ShiftMonotone(c as real, c as real, e);
    }
    ShiftFurther(a, -10, e);
    if a >= Shift(1.0, 28) {
      ShiftMonotone(Shift(1.0, 28), a, -10);
      ShiftTwice(1.0, 28, -10);
    }
    ShiftIsPower(1, PREC);
  }

  /** Below that bound the conversion succeeds and is the correct rounding of the true product. */
  lemma ExactIfShort(amount: Decimal, rate: Decimal) returns (q: int)
    requires ShortProduct(amount, rate)
    ensures ConvertToUsd(amount, rate) == Some(q) && IsNearest(TrueCents(amount, rate), q)
  {
    var c, e := amount.coef * rate.coef, amount.exp + rate.exp;
    q := ExactCoefficient(c, e);
    ConvertsProduct(amount, rate, c);
  }

  lemma ExactCoefficient(c: int, e: int) returns (q: int)
    requires e >= -12 && -Shift(1.0, 18) < Shift(c as real, e + 2) < Shift(1.0, 18)
    ensures QuantizeToCents(Fix(Decimal(c, e))) == Some(q) && IsNearest(Shift(c as real, e + 2), q)
  {
    CoefficientFits(c, e + 2);
    ShortIsUnchanged(c, e);
    q := AtCents(Decimal(c, e));
    ExactStage(c, -2 - e, q);
    NearestFits(Shift(c as real, e + 2), q);
  }

  /** What can be stored is correct: with operands inside their columns' scales, any result that
      fits its own column, Numeric(18, 4), is the correct rounding of the true product. */
  lemma StoredIsCorrect(amount: Decimal, rate: Decimal, q: int)
    requires amount.exp >= -4 && rate.exp >= -8
    requires ConvertToUsd(amount, rate) == Some(q) && Abs(q) < Pow10(16)
    ensures IsNearest(TrueCents(amount, rate), q)
  {
    WithinOneCent(amount, rate, q);
    ShiftIsPower(1, 18);
    assert Pow10(18) == 100 * Pow10(16);
    var q' := ExactIfShort(amount, rate);
  }

  lemma ShortIsUnchanged(c: int, e: int)
    requires Abs(c) < Pow10(PREC)
    ensures Fix(Decimal(c, e)) == Decimal(c, e)
  {
    DigitsBound(Abs(c), PREC);
  }

  lemma ExactStage(c: int, s: int, q: int)
    requires q == AtCents(Decimal(c, -2 - s))
    ensures IsNearest(Shift(c as real, -s), q)
  {
    if s <= 0 {
      ShiftIsPower(c, -s);
    } else {
      RoundsToNearest(c, Pow10(s));
      ShiftedDown(c, s);
      NearestQuotient(c, Pow10(s), q);
    }
  }

  lemma NearestFits(x: real, q: int)
    requires IsNearest(x, q) && -Shift(1.0, 18) < x < Shift(1.0, 18)
    ensures Digits(Abs(q)) <= PREC
  {
    ShiftIsPower(1, 18);
    PowerTable();
    NearestWithin(x, q, Pow10(18));
    DigitsBound(Abs(q), PREC);
  }

  lemma NearestWithin(x: real, q: int, bound: nat)
    requires IsNearest(x, q) && -(bound as real) < x < bound as real
    ensures Abs(q) <= bound
  {}

  // ----- symmetry, order and totals -----

  lemma FixIsOdd(c: int, e: int)
    ensures Fix(Decimal(-c, e)).exp == Fix(Decimal(c, e)).exp
    ensures Fix(Decimal(-c, e)).coef == -Fix(Decimal(c, e)).coef
  {
    var d := Excess(c);
    var q := RoundHalfEven(c, Pow10(d));
    RoundIsOdd(c, Pow10(d));
    TenthIsOdd(q);
  }

  lemma TenthIsOdd(q: int)
    ensures q % 10 == 0 ==> (-q) / 10 == -(q / 10)
    ensures Abs(q) == Pow10(PREC) ==> q % 10 == 0
  {
    if Abs(q) == Pow10(PREC) { TenDivides(q, Pow10(PREC - 1)); }
  }

  lemma QuantizeIsOdd(x: Decimal, y: Decimal)
    requires y.exp == x.exp && y.coef == -x.coef
    ensures AtCents(y) == -AtCents(x)
  {
    if x.exp >= -2 {
      assert (-x.coef) * Pow10(x.exp + 2) == -(x.coef * Pow10(x.exp + 2));
    } else {
      RoundIsOdd(x.coef, Pow10(-2 - x.exp));
    }
  }

  function Negated(r: Option<int>): Option<int> {
    if r.None? then None else Some(-r.value)
  }

  lemma ProductIsOdd(c: int, e: int)
    ensures QuantizeToCents(Fix(Decimal(-c, e))) == Negated(QuantizeToCents(Fix(Decimal(c, e))))
  {
    FixIsOdd(c, e);
    QuantizeIsOdd(Fix(Decimal(c, e)), Fix(Decimal(-c, e)));
  }

  /** A refund converts to exactly the negative of the charge, for every input. */
  lemma ConversionIsOdd(amount: Decimal, rate: Decimal)
    ensures ConvertToUsd(Decimal(-amount.coef, amount.exp), rate)
         == Negated(ConvertToUsd(amount, rate))
  {
    var c := ProductOf(amount, rate);
    ProductIsOdd(c, amount.exp + rate.exp);
  }

  /** The coefficient of the product decides the conversion, and its negative the negated one. */
  lemma ProductOf(amount: Decimal, rate: Decimal) returns (c: int)
    ensures ConvertToUsd(amount, rate) == QuantizeToCents(Fix(Decimal(c, amount.exp + rate.exp)))
    ensures ConvertToUsd(Decimal(-amount.coef, amount.exp), rate)
         == QuantizeToCents(Fix(Decimal(-c, amount.exp + rate.exp)))
  {
    c := amount.coef * rate.coef;
    ConvertsProduct(amount, rate, c);
    NegatedProduct(amount.coef, rate.coef);
    ConvertsProduct(Decimal(-amount.coef, amount.exp), rate, -c);
  }

  lemma NegatedProduct(a: int, b: int)
    ensures (-a) * b == -(a * b)
  {}

  lemma ConvertsProduct(amount: Decimal, rate: Decimal, c: int)
    requires c == amount.coef * rate.coef
    ensures ConvertToUsd(amount, rate) == QuantizeToCents(Fix(Decimal(c, amount.exp + rate.exp)))
  {}

  // ----- order, for products of every length -----

  /** The conversion of the product c * 10^e, before its length is checked. */
  function Cents(c: int, e: int): int {
    AtCents(Fix(Decimal(c, e)))
  }

  /** c rounded to 28 digits, at its own exponent. */
  function Rounded(c: int): int {
    RoundHalfEven(c, Pow10(Excess(c))) * Pow10(Excess(c))
  }

  lemma {:induction false} TrailingZeros(p: int, d: nat, e: int)
    ensures AtCents(Decimal(p * Pow10(d), e)) == AtCents(Decimal(p, e + d))
  {
    if d == 0 {
      assert p * Pow10(0) == p;
    } else {
      Regroup10(p, d);
      TrailingZero(p * Pow10(d - 1), e);
      TrailingZeros(p, d - 1, e + 1);
    }
  }

  lemma Regroup10(p: int, d: nat)
    requires d > 0
    ensures p * Pow10(d) == 10 * (p * Pow10(d - 1))
  {}

  lemma CentsOfRounded(c: int, e: int)
    ensures Cents(c, e) == AtCents(Decimal(Rounded(c), e))
  {
    var p := RoundHalfEven(c, Pow10(Excess(c)));
    TwoStages(c, e, p);
    TrailingZeros(p, Excess(c), e);
  }

  lemma RoundMonotone(m: int, n: int, d: nat)
    requires d > 0 && m <= n
    ensures RoundHalfEven(m, d) <= RoundHalfEven(n, d)
  {
    RoundsToNearest(m, d);
    RoundsToNearest(n, d);
    NearestQuotient(m, d, RoundHalfEven(m, d));
    NearestQuotient(n, d, RoundHalfEven(n, d));
    QuotientMonotone(m, n, d);
    NearestIsMonotone(m as real / d as real, RoundHalfEven(m, d), n as real / d as real, RoundHalfEven(n, d));
  }

  lemma QuotientMonotone(m: int, n: int, d: nat)
    requires d > 0 && m <= n
    ensures m as real / d as real <= n as real / d as real
  {}

  lemma ScaleMonotone(m: int, n: int, t: nat)
    requires m <= n
    ensures m * t <= n * t
  {}

  lemma AtCentsMonotone(m: int, n: int, e: int)
    requires m <= n
    ensures AtCents(Decimal(m, e)) <= AtCents(Decimal(n, e))
  {
    if e >= -2 {
      ScaleMonotone(m, n, Pow10(e + 2));
    } else {
      RoundMonotone(m, n, Pow10(-2 - e));
    }
  }

  lemma ExcessMonotone(m: nat, n: nat)
    requires m <= n
    ensures Excess(m) <= Excess(n)
  {
    DigitsBound(n, Digits(n));
    DigitsBound(m, Digits(n));
  }

  /** Rounding to 28 digits stays within the power of ten above, and above the one below. */
  lemma RoundedBounds(c: nat)
    ensures Rounded(c) <= Pow10(PREC + Excess(c))
    ensures Excess(c) > 0 ==> Rounded(c) >= Pow10(PREC - 1 + Excess(c))
  {
    var d := Excess(c);
    var p := RoundHalfEven(c, Pow10(d));
    DigitsBound(c, PREC + d);
    PowerSum(PREC, d);
    RoundMonotone(c, Pow10(PREC) * Pow10(d), Pow10(d));
    RoundOfMultiple(Pow10(PREC), Pow10(d));
    ScaleMonotone(p, Pow10(PREC), Pow10(d));
    if d > 0 {
      RoundedKeepsDigits(c);
      RoundIsOdd(c, Pow10(d));
      PowerSum(PREC - 1, d);
      ScaleMonotone(Pow10(PREC - 1), p, Pow10(d));
    }
  }

  lemma RoundOfMultiple(k: nat, d: nat)
    requires d > 0
    ensures RoundHalfEven(k * d, d) == k
  {
    QuotientIs(k * d, d, k, 0);
  }

  lemma RoundedIsOdd(c: int)
    ensures Rounded(-c) == -Rounded(c) && (c >= 0 ==> Rounded(c) >= 0)
  {
    var t := Pow10(Excess(c));
    RoundIsOdd(c, t);
    NegatedProduct(RoundHalfEven(c, t), t);
    if c >= 0 { ScaleMonotone(0, RoundHalfEven(c, t), t); }
  }

  lemma RoundedMonotoneUp(m: nat, n: nat)
    requires m <= n
    ensures Rounded(m) <= Rounded(n)
  {
    var d := Excess(m);
    ExcessMonotone(m, n);
    if d == Excess(n) {
      RoundMonotone(m, n, Pow10(d));
      ScaleMonotone(RoundHalfEven(m, Pow10(d)), RoundHalfEven(n, Pow10(d)), Pow10(d));
    } else {
      RoundedBounds(m);
      RoundedBounds(n);
      PowersGrow(PREC + d, PREC - 1 + Excess(n));
    }
  }

  lemma {:induction false} PowersGrow(m: nat, n: nat)
    requires m <= n
    ensures Pow10(m) <= Pow10(n)
  {
    if m < n { PowersGrow(m, n - 1); }
  }

  lemma RoundedMonotone(m: int, n: int)
    requires m <= n
    ensures Rounded(m) <= Rounded(n)
  {
    RoundedIsOdd(m);
    RoundedIsOdd(n);
    RoundedIsOdd(-m);
    RoundedIsOdd(-n);
    if m >= 0 { RoundedMonotoneUp(m, n); } else if n < 0 { RoundedMonotoneUp(-n, -m); }
  }

  lemma CentsMonotone(m: int, n: int, e: int)
    requires m <= n
    ensures Cents(m, e) <= Cents(n, e)
  {
    CentsOfRounded(m, e);
    CentsOfRounded(n, e);
    RoundedMonotone(m, n);
    AtCentsMonotone(Rounded(m), Rounded(n), e);
  }

  lemma RoundTenfold(k: int, d: nat)
    requires d > 0
    ensures RoundHalfEven(10 * k, 10 * d) == RoundHalfEven(k, d)
  {
    RoundsToNearest(10 * k, 10 * d);
    RoundsToNearest(k, d);
    TenfoldNearest(k, d, RoundHalfEven(10 * k, 10 * d));
    NearestUnique(k, d, RoundHalfEven(10 * k, 10 * d), RoundHalfEven(k, d));
  }

  lemma ExcessTenfold(k: int)
    requires k != 0
    ensures Digits(Abs(k)) < PREC ==> Excess(k) == 0 && Excess(10 * k) == 0
    ensures Digits(Abs(k)) >= PREC ==> Excess(10 * k) == Excess(k) + 1
  {
    assert Abs(10 * k) == 10 * Abs(k) && (10 * Abs(k)) / 10 == Abs(k);
    assert Digits(10 * Abs(k)) == 1 + Digits(Abs(k));
  }

  lemma RoundedTenfold(k: int)
    ensures Rounded(10 * k) == 10 * Rounded(k)
  {
    if k == 0 {
      RoundByOne(0);
    } else {
      var d := Pow10(Excess(k));
      ExcessTenfold(k);
      if Digits(Abs(k)) < PREC {
        RoundByOne(k);
        RoundByOne(10 * k);
      } else {
        RoundTenfold(k, d);
        assert Pow10(Excess(10 * k)) == 10 * d;
        Regroup(RoundHalfEven(k, d), d);
      }
    }
  }

  lemma Regroup(p: int, d: int)
    ensures p * (10 * d) == 10 * (p * d)
  {}

  /** Trailing zeros change nothing. */
  lemma {:induction false} CentsScaled(c: int, e: int, n: nat)
    ensures Cents(c * Pow10(n), e - n) == Cents(c, e)
  {
    if n == 0 {
      assert c * Pow10(0) == c;
    } else {
      Regroup10(c, n);
      CentsTenfold(c * Pow10(n - 1), e - n);
      CentsScaled(c, e, n - 1);
    }
  }

  lemma CentsTenfold(k: int, e: int)
    ensures Cents(10 * k, e) == Cents(k, e + 1)
  {
    CentsOfRounded(10 * k, e);
    RoundedTenfold(k);
    TrailingZero(Rounded(k), e);
    CentsOfRounded(k, e + 1);
  }

  /** The coefficient of the amount at a smaller exponent. */
  function CoefAt(x: Decimal, e: int): int
    requires e <= x.exp
  {
    x.coef * Pow10(x.exp - e)
  }

  lemma ValueAt(x: Decimal, e: int)
    requires e <= x.exp
    ensures Value(x) == Shift(CoefAt(x, e) as real, e)
  {
    ShiftIsPower(x.coef, x.exp - e);
    ShiftTwice(x.coef as real, x.exp - e, e);
  }

  lemma CentsAt(amount: Decimal, r: int, e: int, re: int)
    requires e <= amount.exp
    ensures Cents(CoefAt(amount, e) * r, e + re) == Cents(amount.coef * r, amount.exp + re)
  {
    var n := amount.exp - e;
    CentsScaled(amount.coef * r, amount.exp + re, n);
    SwapFactors(amount.coef, r, Pow10(n));
  }

  lemma ConvertsTo(amount: Decimal, rate: Decimal, q: int, e: int)
    requires ConvertToUsd(amount, rate) == Some(q) && e <= amount.exp
    ensures q == Cents(CoefAt(amount, e) * rate.coef, e + rate.exp)
  {
    ConvertsProduct(amount, rate, amount.coef * rate.coef);
    CentsAt(amount, rate.coef, e, rate.exp);
  }

  lemma SwapFactors(a: int, r: int, t: int)
    ensures (a * r) * t == (a * t) * r
  {}

  /** At one non-negative rate, a larger amount never converts to less: for every two amounts that
      convert, whatever their lengths. */
  lemma ConversionIsMonotone(small: Decimal, large: Decimal, rate: Decimal, p: int, q: int)
    requires rate.coef >= 0 && Value(small) <= Value(large)
    requires ConvertToUsd(small, rate) == Some(p) && ConvertToUsd(large, rate) == Some(q)
    ensures p <= q
  {
    var e := if small.exp <= large.exp then small.exp else large.exp;
    CoefficientsOrdered(small, large, e);
    ProductsMonotone(CoefAt(small, e), CoefAt(large, e), rate.coef, e + rate.exp);
    ConvertsTo(small, rate, p, e);
    ConvertsTo(large, rate, q, e);
  }

  lemma ProductsMonotone(a: int, b: int, r: nat, e: int)
    requires a <= b
    ensures Cents(a * r, e) <= Cents(b * r, e)
  {
    ScaleMonotone(a, b, r);
    CentsMonotone(a * r, b * r, e);
  }

  lemma CoefficientsOrdered(small: Decimal, large: Decimal, e: int)
    requires e <= small.exp && e <= large.exp && Value(small) <= Value(large)
    ensures CoefAt(small, e) <= CoefAt(large, e)
  {
    var a, b := CoefAt(small, e), CoefAt(large, e);
    ValueAt(small, e);
    ValueAt(large, e);
    if a > b { ShiftMonotone(b as real, a as real, e); }
  }

  /** The value fits a column Numeric(18, scale) as it is. */
  predicate FitsColumn(x: Decimal, scale: nat) {
    x.exp >= -(scale as int) && Abs(CoefAt(x, -(scale as int))) < Pow10(18)
  }

  /** Whatever fits the columns converts: only longer operands can raise InvalidOperation. */
  lemma ColumnOperandsConvert(amount: Decimal, rate: Decimal)
    requires FitsColumn(amount, 4) && FitsColumn(rate, 8)
    ensures ConvertToUsd(amount, rate).Some?
  {
    var a, r := CoefAt(amount, -4), CoefAt(rate, -8);
    var q := Cents(amount.coef * rate.coef, amount.exp + rate.exp);
    ProductBound(a, r, Pow10(18));
    PowerSum(18, 18);
    CentsWithin(a * r, 18 + 18);
    AlignedProduct(amount, rate);
    FewDigits(Abs(q), 26);
    ConvertsProduct(amount, rate, amount.coef * rate.coef);
  }

  lemma AlignedProduct(amount: Decimal, rate: Decimal)
    requires amount.exp >= -4 && rate.exp >= -8
    ensures Cents(CoefAt(amount, -4) * CoefAt(rate, -8), -12) == Cents(amount.coef * rate.coef, amount.exp + rate.exp)
  {
    var r := CoefAt(rate, -8);
    CentsAt(amount, r, -4, -8);
    CentsAt(rate, amount.coef, -8, amount.exp);
    Commuted(amount.coef, r);
    Commuted(rate.coef, amount.coef);
  }

  lemma FewDigits(q: nat, n: nat)
    requires q <= Pow10(n) && n < PREC
    ensures Digits(q) <= PREC
  {
    PowersGrow(n + 1, PREC);
    DigitsBound(q, PREC);
  }

  /** A coefficient up to 10^n at exponent -12 converts to at most 10^(n - 10) cents. */
  lemma CentsWithin(c: int, n: nat)
    requires n >= PREC && -(Pow10(n) as int) <= c <= Pow10(n)
    ensures Abs(Cents(c, -12)) <= Pow10(n - 10)
  {
    var t: int := Pow10(n);
    CentsMonotone(c, t, -12);
    CentsMonotone(-t, c, -12);
    CentsOfPower(n);
    FixIsOdd(t, -12);
    QuantizeIsOdd(Fix(Decimal(t, -12)), Fix(Decimal(-t, -12)));
  }

  lemma Commuted(x: int, y: int)
    ensures x * y == y * x
  {}

  lemma ProductBound(a: int, b: int, t: nat)
    requires Abs(a) < t && Abs(b) < t
    ensures -(t * t) <= a * b <= t * t
  {
    MulMonotone(Abs(a), t, Abs(b), t);
    assert Abs(a) * Abs(b) == a * b || Abs(a) * Abs(b) == -(a * b);
  }

  lemma CentsOfPower(n: nat)
    requires n >= PREC
    ensures Cents(Pow10(n), -12) == Pow10(n - 10)
  {
    var c, d := Pow10(n), n + 1 - PREC;
    DigitsBound(c, n);
    DigitsBound(c, n + 1);
    assert Excess(c) == d;
    PowerSum(PREC - 1, d);
    RoundOfMultiple(Pow10(PREC - 1), Pow10(d));
    CentsOfRounded(c, -12);
    PowerSum(n - 10, 10);
    RoundOfMultiple(Pow10(n - 10), Pow10(10));
  }

  // ----- when a conversion fails -----

  lemma NearestReaches(x: real, q: int, limit: int)
    requires IsNearest(x, q) && limit % 2 == 0
    ensures q >= limit <==> x >= limit as real - 0.5
  {}

  /** The last digit kept lies above the cents: cents only add zeros to 28 digits.  Here and
      below k is PREC, named so that its powers are not computed. */
  lemma LongerThanCents(c: nat, e: int, k: nat)
    requires k == PREC && Excess(c) > 0 && e + Excess(c) > -2
    ensures RoundHalfEven(c, Pow10(Excess(c))) >= Pow10(k - 1)
    ensures Shift(c as real, e + 2) >= Pow10(k) as real
  {
    RoundedKeepsDigits(c);
    RoundIsOdd(c, Pow10(Excess(c)));
    DigitsBound(c, k - 1 + Excess(c));
    LongValue(c, k - 1 + Excess(c), e + 2, k);
  }

  lemma LongCents(p: int, x: int, q: int, k: nat)
    requires k > 0 && x > -2 && p >= Pow10(k - 1) && q == AtCents(Decimal(p, x))
    ensures q >= Pow10(k)
  {
    assert Pow10(x + 2) == 10 * Pow10(x + 1);
    MulMonotone(Pow10(k - 1), p, 10, Pow10(x + 2));
  }

  lemma LongValue(c: nat, n: nat, e: int, k: nat)
    requires c >= Pow10(n) && k <= n + e
    ensures Shift(c as real, e) >= Pow10(k) as real
  {
    ShiftIsPower(1, k);
    ShiftIsPower(1, n);
    ShiftMonotone(Pow10(n) as real, c as real, e);
    ShiftTwice(1.0, n, e);
    ShiftFurther(1.0, k, n + e);
  }

  /** The last digit kept lies below the cents: at least one more is dropped. */
  lemma ShorterThanCents(c: nat, e: int, p: int, q: int, k: nat)
    requires k == PREC && Excess(c) > 0 && e + Excess(c) < -2 && p == RoundHalfEven(c, Pow10(Excess(c)))
    requires q == RoundHalfEven(p, Pow10(-2 - e - Excess(c)))
    ensures q < Pow10(k) && Shift(c as real, e + 2) < Pow10(k) as real - 0.5
  {
    RoundedFits(c, k);
    ShortCents(p, -2 - e - Excess(c), k);
    CloseCents(c, -2 - e, p, q);
    FarBelow(Shift(c as real, e + 2), q, Pow10(k - 1), Pow10(k));
  }

  lemma CloseCents(c: nat, s: int, p: int, q: int)
    requires s > Excess(c) && p == RoundHalfEven(c, Pow10(Excess(c))) && q == RoundHalfEven(p, Pow10(s - Excess(c)))
    ensures Shift(c as real, -s) < q as real + 1.0
  {
    StagesAreClose(c, s, Excess(c), p, q);
  }

  lemma FarBelow(x: real, q: int, t: int, limit: int)
    requires x < q as real + 1.0 && q <= t && t >= 1 && limit == 10 * t
    ensures q < limit && x < limit as real - 0.5
  {}

  lemma ShortCents(p: int, n: nat, k: nat)
    requires k > 0 && p <= Pow10(k) && n > 0
    ensures RoundHalfEven(p, Pow10(n)) <= Pow10(k - 1)
  {
    var t, w := Pow10(k - 1), Pow10(n);
    assert w == 10 * Pow10(n - 1);
    MulMonotone(t, t, 10, w);
    RoundMonotone(p, t * w, w);
    RoundOfMultiple(t, w);
  }

  lemma RoundedFits(c: nat, k: nat)
    requires k == PREC && Excess(c) > 0
    ensures RoundHalfEven(c, Pow10(Excess(c))) <= Pow10(k)
  {
    var d := Excess(c);
    DigitsBound(c, k + d);
    PowerSum(k, d);
    RoundMonotone(c, Pow10(k) * Pow10(d), Pow10(d));
    RoundOfMultiple(Pow10(k), Pow10(d));
  }

  /** Nothing is dropped, or exactly the digits below the cents: the value is rounded once. */
  lemma RoundedOnce(c: nat, e: int, q: int)
    requires q == Cents(c, e) && (Excess(c) == 0 || Excess(c) == -2 - e)
    ensures IsNearest(Shift(c as real, e + 2), q)
  {
    var p := RoundHalfEven(c, Pow10(Excess(c)));
    TwoStages(c, e, p);
    if Excess(c) == 0 {
      RoundByOne(c);
      ExactStage(c, -2 - e, q);
    } else {
      StagesAreCorrect(c, -2 - e, Excess(c), p, q);
    }
  }

  lemma RoundedTwice(c: nat, e: int, p: int, q: int, k: nat)
    requires k == PREC && Excess(c) > 0 && e + Excess(c) != -2
    requires p == RoundHalfEven(c, Pow10(Excess(c))) && q == AtCents(Decimal(p, e + Excess(c)))
    ensures q >= Pow10(k) <==> Shift(c as real, e + 2) >= Pow10(k) as real - 0.5
  {
    if e + Excess(c) > -2 {
      LongerThanCents(c, e, k);
      LongCents(p, e + Excess(c), q, k);
    } else {
      ShorterThanCents(c, e, p, q, k);
    }
  }

  lemma TooManyCents(c: nat, e: int, q: int, k: nat)
    requires k == PREC && q == Cents(c, e)
    ensures q >= Pow10(k) <==> Shift(c as real, e + 2) >= Pow10(k) as real - 0.5
  {
    if Excess(c) == 0 || Excess(c) == -2 - e {
      RoundedOnce(c, e, q);
      EvenPower(k);
      NearestReaches(Shift(c as real, e + 2), q, Pow10(k));
    } else {
      var p := RoundHalfEven(c, Pow10(Excess(c)));
      TwoStages(c, e, p);
      RoundedTwice(c, e, p, q, k);
    }
  }

  lemma CentsOfMagnitude(c: int, e: int)
    ensures Abs(Cents(c, e)) == Cents(Abs(c), e)
  {
    FixIsOdd(c, e);
    QuantizeIsOdd(Fix(Decimal(c, e)), Fix(Decimal(-c, e)));
    CentsMonotone(0, Abs(c), e);
    ZeroCents(e);
  }

  lemma ZeroCents(e: int)
    ensures Cents(0, e) == 0
  {
    FixIsOdd(0, e);
    QuantizeIsOdd(Fix(Decimal(0, e)), Fix(Decimal(-0, e)));
  }

  lemma MagnitudeOfShift(c: int, e: int)
    ensures Shift(c as real, e) == (if c < 0 then -Shift(Abs(c) as real, e) else Shift(Abs(c) as real, e))
    ensures Shift(Abs(c) as real, e) >= 0.0
  {
    ShiftMonotone(0.0, Abs(c) as real, e);
    ShiftMonotone(Abs(c) as real, Abs(c) as real, e);
    ShiftZero(e);
    assert c < 0 ==> c as real == -(Abs(c) as real);
  }

  lemma ProductFails(c: int, e: int, k: nat)
    requires k == PREC
    ensures QuantizeToCents(Fix(Decimal(c, e))).None? <==>
      var x, limit := Shift(c as real, e + 2), Shift(1.0, k) - 0.5; x >= limit || x <= -limit
  {
    var q := Cents(Abs(c), e);
    CentsOfMagnitude(c, e);
    DigitsBound(q, k);
    CoefficientFails(c, e, q, k);
  }

  lemma CoefficientFails(c: int, e: int, q: int, k: nat)
    requires k == PREC && q == Cents(Abs(c), e)
    ensures q >= Pow10(k) <==>
      var x, limit := Shift(c as real, e + 2), Shift(1.0, k) - 0.5; x >= limit || x <= -limit
  {
    TooManyCents(Abs(c), e, q, k);
    MagnitudeOfShift(c, e + 2);
    ShiftIsPower(1, k);
    Beyond(q, Shift(Abs(c) as real, e + 2), Shift(c as real, e + 2), Pow10(k));
  }

  lemma Beyond(q: int, magnitude: real, x: real, t: int)
    requires t >= 1 && magnitude >= 0.0 && (x == magnitude || x == -magnitude)
    requires q >= t <==> magnitude >= t as real - 0.5
    ensures q >= t <==> x >= t as real - 0.5 || x <= -(t as real - 0.5)
  {}

  /** A conversion raises InvalidOperation exactly when the true product is 10^28 cents or more,
      rounded half to even, and so has more digits than the context. */
  lemma FailsIfTooLong(amount: Decimal, rate: Decimal)
    ensures ConvertToUsd(amount, rate).None? <==>
      var x, limit := TrueCents(amount, rate), Shift(1.0, 28) - 0.5; x >= limit || x <= -limit
  {
    var c := amount.coef * rate.coef;
    ConvertsProduct(amount, rate, c);
    ProductFails(c, amount.exp + rate.exp, 28);
  }

  // ----- totals -----

  /** The exact total of a list of conversions, in cents, and the total of what was stored. */
  ghost function TrueTotal(jobs: seq<(Decimal, Decimal)>): real {
    if jobs == [] then 0.0 else TrueTotal(jobs[1..]) + TrueCents(jobs[0].0, jobs[0].1)
  }

  function StoredTotal(jobs: seq<(Decimal, Decimal)>): int
    requires forall j <- jobs :: ConvertToUsd(j.0, j.1).Some?
  {
    if jobs == [] then 0 else StoredTotal(jobs[1..]) + ConvertToUsd(jobs[0].0, jobs[0].1).value
  }

  /** A total is off by less than a cent a row whatever the sizes, and by at most half a cent a
      row if every product is short. */
  lemma {:induction false} TotalError(jobs: seq<(Decimal, Decimal)>)
    requires forall j <- jobs :: ConvertToUsd(j.0, j.1).Some?
    ensures var off := TrueTotal(jobs) - StoredTotal(jobs) as real;
      && -(|jobs| as real) <= off <= |jobs| as real
      && ((forall j <- jobs :: ShortProduct(j.0, j.1)) ==> -(|jobs| as real) <= 2.0 * off <= |jobs| as real)
  {
    if jobs != [] {
      TotalError(jobs[1..]);
      var (amount, rate) := jobs[0];
      var q := ConvertToUsd(amount, rate).value;
      WithinOneCent(amount, rate, q);
      if forall j <- jobs :: ShortProduct(j.0, j.1) {
        assert jobs[0] in jobs;
        var q' := ExactIfShort(amount, rate);
      }
    }
  }

  /** 10000000000000.0001 at 1149.99999999: both fit their columns, and the product
      11499999999900000.114999999999 converts to ...00.12 instead of ...00.11.  The result does not
      fit its own column, so it is not stored. */
  lemma ColumnWidthsDoNotSuffice()
    ensures var amount, rate := Decimal(100000000000000001, -4), Decimal(114999999999, -8);
      && FitsColumn(amount, 4) && FitsColumn(rate, 8)
      && ConvertToUsd(amount, rate) == Some(1149999999990000012)
      && MisroundedTie(amount, rate)
      && !IsNearest(TrueCents(amount, rate), 1149999999990000012)
      && !FitsColumn(Decimal(1149999999990000012, -2), 4)
  {
    var c := 11499999999900000114999999999;
    RoundedExample(c);
    var amount, rate := Decimal(100000000000000001, -4), Decimal(114999999999, -8);
    assert Times(amount, rate) == Decimal(1149999999990000011500000000, -11);
    assert ConvertToUsd(amount, rate) == Some(1149999999990000012);
    assert MisroundedTie(amount, rate);
    CorrectUnlessMisroundedTie(amount, rate, 1149999999990000012);
    PowerTable();
    ExampleFits(amount, rate);
  }

  lemma ExampleFits(amount: Decimal, rate: Decimal)
    requires amount == Decimal(100000000000000001, -4) && rate == Decimal(114999999999, -8)
    ensures FitsColumn(amount, 4) && FitsColumn(rate, 8) && !FitsColumn(Decimal(1149999999990000012, -2), 4)
  {
    PowerTable();
    assert Pow10(0) == 1 && Pow10(2) == 100;
  }

  /** 1.0149999999999999999999999999 at 1, an amount with 28 decimals: the service accepts it, and
      stores 1.02 instead of 1.01. */
  lemma LongAmountsAreStoredWrong()
    ensures var amount, rate := Decimal(10149999999999999999999999999, -28), Decimal(1, 0);
      && ConvertToUsd(amount, rate) == Some(102) && FitsColumn(Decimal(102, -2), 4)
      && MisroundedTie(amount, rate)
      && !IsNearest(TrueCents(amount, rate), 102)
  {
    var c := 10149999999999999999999999999;
    LongExample(c);
    var amount, rate := Decimal(c, -28), Decimal(1, 0);
    assert Times(amount, rate) == Decimal(1015000000000000000000000000, -27);
    assert ConvertToUsd(amount, rate) == Some(102);
    assert MisroundedTie(amount, rate);
    CorrectUnlessMisroundedTie(amount, rate, 102);
    PowerTable();
    assert Pow10(2) == 100;
  }

  lemma LongExample(c: int)
    requires c == 10149999999999999999999999999
    ensures Excess(c) == 1 && Pow10(1) == 10 && Pow10(25) == 10000000000000000000000000
    ensures RoundHalfEven(c, 10) == 1015000000000000000000000000
    ensures RoundHalfEven(1015000000000000000000000000, 10000000000000000000000000) == 102
    ensures Digits(102) == 3
  {
    PowerTable();
    DigitsBound(c, 28);
    DigitsBound(c, 29);
  }

  lemma RoundedExample(c: int)
    requires c == 11499999999900000114999999999
    ensures Excess(c) == 1 && Pow10(1) == 10 && Pow10(9) == 1000000000
    ensures RoundHalfEven(c, 10) == 1149999999990000011500000000
    ensures RoundHalfEven(1149999999990000011500000000, 1000000000) == 1149999999990000012
    ensures Digits(1149999999990000012) == 19
  {
    PowerTable();
    DigitsBound(c, 28);
    DigitsBound(c, 29);
    DigitsBound(1149999999990000012, 18);
    DigitsBound(1149999999990000012, 19);
  }

  lemma PowerTable()
    ensures Pow10(1) == 10 && Pow10(9) == 1000000000 && Pow10(10) == 10000000000
    ensures Pow10(18) == 1000000000000000000 && Pow10(19) == 10 * Pow10(18)
    ensures Pow10(25) == 1000000 * Pow10(19)
    ensures Pow10(28) == 1000000000 * Pow10(19) && Pow10(29) == 10 * Pow10(28)
  {}
}
