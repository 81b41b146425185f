/** Exact decimals as reals, with the two roundings the system uses: an
    80-significant-digit HALF_EVEN guard on every operation, and a HALF_UP
    quantization at a fixed scale.
 */
module Decimals {

  const GUARD_PRECISION := 80

  function Abs(x: real): real { if x < 0.0 then -x else x }

  function Min(x: real, y: real): real { if x < y then x else y }

  function Max(x: real, y: real): real { if x < y then y else x }

  function Sum(s: seq<real>): real { if s == [] then 0.0 else Sum(s[..|s| - 1]) + s[|s| - 1] }

  // ------------------------------------------------------------ powers of ten

  ghost predicate TimesTen(f: int -> real, k: int) { f(k + 1) == 10.0 * f(k) }

  /** The powers of ten, characterised by their recurrence in both directions. */
  ghost predicate IsPowerTable(f: int -> real) {
    f(0) == 1.0 && forall k :: TimesTen(f, k)
  }

  function Power(k: int): real
    decreases if k < 0 then -k else k
  {
    if k == 0 then 1.0 else if k > 0 then 10.0 * Power(k - 1) else Power(k + 1) / 10.0
  }

  ghost function PowerTable(): (f: int -> real)
    ensures IsPowerTable(f)
  {
    PowersOfTen();
    assert IsPowerTable(Power);
    var f :| IsPowerTable(f);
    f
  }

  lemma PowersOfTen()
    ensures IsPowerTable(Power)
  {
    forall k ensures TimesTen(Power, k) { PowerSucc(k); }
  }

  lemma PowerSucc(k: int)
    ensures Power(k + 1) == 10.0 * Power(k)
  {
  }

  /** Ten to any integer power. */
  ghost function TenTo(k: int): real { PowerTable()(k) }

  lemma TenToSucc(k: int)
    ensures TenTo(k + 1) == 10.0 * TenTo(k)
    ensures TenTo(0) == 1.0
  {
    assert TimesTen(PowerTable(), k);
  }

  lemma {:induction false} TenToPositive(k: int)
    ensures TenTo(k) > 0.0
    decreases if k < 0 then -k else k
  {
    TenToSucc(k); TenToSucc(k - 1);
    if k > 0 { TenToPositive(k - 1); } else if k < 0 { TenToPositive(k + 1); }
  }

  lemma ScaleBoth(t: real, p: real, q: real, p': real, q': real)
    requires p' == 10.0 * p && q' == 10.0 * q
    ensures p == t * q <==> p' == t * q'
  {
    assert t * (10.0 * q) == 10.0 * (t * q);
  }

  lemma {:induction false} TenToAdd(a: int, b: int)
    ensures TenTo(a + b) == TenTo(a) * TenTo(b)
    decreases if b < 0 then -b else b
  {
    TenToSucc(0);
    if b > 0 {
      TenToAdd(a, b - 1);
      TenToSucc(a + b - 1); TenToSucc(b - 1);
      ScaleBoth(TenTo(a), TenTo(a + b - 1), TenTo(b - 1), TenTo(a + b), TenTo(b));
    } else if b < 0 {
      TenToAdd(a, b + 1);
      TenToSucc(a + b); TenToSucc(b);
      ScaleBoth(TenTo(a), TenTo(a + b), TenTo(b), TenTo(a + b + 1), TenTo(b + 1));
    }
  }

  lemma {:induction false} TenToMonotone(a: int, b: int)
    requires a <= b
    ensures TenTo(a) <= TenTo(b)
    decreases b - a
  {
    if a < b {
      TenToMonotone(a, b - 1);
      TenToSucc(b - 1); TenToPositive(b - 1);
    }
  }

  ghost predicate IsInteger(x: real) { x == x.Floor as real }

  lemma {:induction false} TenToIsInteger(k: nat)
    ensures IsInteger(TenTo(k))
  {
    TenToSucc(k - 1);
    if k > 0 {
      TenToIsInteger(k - 1);
      assert TenTo(k) == (10 * TenTo(k - 1).Floor) as real;
    }
  }

  // ---------------------------------------------------------------- rounding

  /** decimal.js ROUND_HALF_UP: to the nearest integer, ties away from zero. */
  function HalfUp(x: real): int {
    if x >= 0.0 then (x + 0.5).Floor else -((-x + 0.5).Floor)
  }

  /** decimal.js ROUND_HALF_EVEN: to the nearest integer, ties to the even one. */
  function HalfEven(x: real): int {
    var f := x.Floor;
    var d := x - f as real;
    if d < 0.5 then f else if d > 0.5 then f + 1 else if f % 2 == 0 then f else f + 1
  }

  /** The integer HALF_UP picks, stated without computing it. */
  lemma HalfUpNearest(x: real, n: int)
    ensures x >= 0.0 ==> (HalfUp(x) == n <==> n as real - 0.5 <= x < n as real + 0.5)
    ensures x <= 0.0 ==> (HalfUp(x) == n <==> n as real - 0.5 < x <= n as real + 0.5)
  {
    if x < 0.0 {
      assert HalfUp(x) == n <==> (-x + 0.5).Floor == -n;
    }
  }

  lemma HalfUpMonotone(x: real, y: real)
    requires x <= y
    ensures HalfUp(x) <= HalfUp(y)
  {
  }

  /** HALF_EVEN is a nearest integer, never crosses one, and is odd. */
  lemma HalfEvenNearest(x: real, j: int)
    ensures -0.5 <= HalfEven(x) as real - x <= 0.5
    ensures j as real <= x ==> j <= HalfEven(x)
    ensures HalfEven(j as real) == j
    ensures HalfEven(-x) == -HalfEven(x)
  {
    var f := x.Floor;
    if x == f as real {
      assert (-x).Floor == -f;
    } else {
      assert (-x).Floor == -f - 1;
    }
  }

  /** A tie goes to the even neighbour. */
  lemma HalfEvenTies(x: real)
    ensures HalfEven(x) as real - x == 0.5 || x - HalfEven(x) as real == 0.5 ==> HalfEven(x) % 2 == 0
  {
  }

  /** quantizeDecimal(value, s, "HALF_UP"). */
  ghost function Quantize(x: real, s: nat): real
  {
    TenToPositive(s);
    HalfUp(x * TenTo(s)) as real / TenTo(s)
  }

  // -------------------------------------------------------- 80-digit guard

  /** The decimal exponent of a positive number. */
  ghost function Exponent(x: real): (e: int)
    requires x > 0.0
    ensures TenTo(e) <= x < TenTo(e + 1)
    decreases if x >= 10.0 then x.Floor else if x < 1.0 then (1.0 / x).Floor else 0
  {
    TenToSucc(0);
    if x >= 10.0 then
      var e := Exponent(x / 10.0);
      TenToSucc(e); TenToSucc(e + 1);
      e + 1
    else if x < 1.0 then
      InverseShrinks(x);
      var e := Exponent(10.0 * x);
      TenToSucc(e - 1); TenToSucc(e);
      e - 1
    else
      0
  }

  lemma InverseShrinks(x: real)
    requires 0.0 < x < 1.0
    ensures 1.0 / x > 1.0
    ensures 1.0 / (10.0 * x) == (1.0 / x) / 10.0
  {
    var y := 1.0 / x;
    assert y * x == 1.0;
    assert (y / 10.0) * (10.0 * x) == 1.0;
  }

  /** The unit in the last of 80 significant digits. */
  ghost function Unit(x: real): (u: real)
    requires x > 0.0
    ensures u > 0.0
  {
    var k := Exponent(x) - (GUARD_PRECISION - 1);
    TenToPositive(k);
    TenTo(k)
  }

  /** The multiple of u nearest to x, ties to the even multiple. */
  function RoundTo(x: real, u: real): real
    requires u > 0.0
  {
    HalfEven(x / u) as real * u
  }

  /** One arithmetic result kept to 80 significant digits, ties to even. */
  ghost function Guard(x: real): real {
    if x == 0.0 then 0.0 else RoundTo(x, Unit(Abs(x)))
  }

  function Times(j: int, u: real): real { j as real * u }

  ghost predicate Multiple(m: real, u: real) { exists j: int :: m == Times(j, u) }

  lemma RoundToOdd(x: real, u: real)
    requires u > 0.0
    ensures RoundTo(-x, u) == -RoundTo(x, u)
  {
    var q := x / u;
    assert -x / u == -q;
    HalfEvenNearest(q, 0);
    var n := HalfEven(q) as real;
    assert (-n) * u == -(n * u);
  }

  lemma GuardOdd(x: real)
    ensures Guard(-x) == -Guard(x)
  {
    if x != 0.0 { RoundToOdd(x, Unit(Abs(x))); }
  }

  lemma QuantizeOdd(x: real, s: nat)
    ensures Quantize(-x, s) == -Quantize(x, s)
  {
    TenToPositive(s);
    var y := x * TenTo(s);
    assert -x * TenTo(s) == -y;
    HalfUpNearest(y, HalfUp(y)); HalfUpNearest(-y, -HalfUp(y));
    var n := HalfUp(y) as real;
    assert (-n) / TenTo(s) == -(n / TenTo(s));
  }

  lemma RoundToNear(x: real, u: real)
    requires u > 0.0
    ensures -u / 2.0 <= RoundTo(x, u) - x <= u / 2.0
  {
    hide HalfEven;
    var q := x / u;
    assert q * u == x;
    HalfEvenNearest(q, 0);
    ScaleBound(HalfEven(q) as real, q, u);
  }

  lemma RoundToMultiple(x: real, u: real, m: real)
    requires u > 0.0 && Multiple(m, u)
    ensures m <= x ==> m <= RoundTo(x, u)
    ensures m == x ==> RoundTo(x, u) == x
  {
    var j: int :| m == Times(j, u);
    hide *;
    RoundToTimes(x, u, j);
  }

  lemma RoundToTimes(x: real, u: real, j: int)
    requires u > 0.0
    ensures Times(j, u) <= x ==> Times(j, u) <= RoundTo(x, u)
    ensures Times(j, u) == x ==> RoundTo(x, u) == x
  {
    hide *;
    var q := x / u;
    var n := HalfEven(q);
    RoundToIs(x, u);
    TimesDivide(j, u, x);
    HalfEvenNearest(q, j);
    assert j as real == q ==> n == j;
    if j <= n { TimesOrder(j, n, u); }
  }

  lemma RoundToIs(x: real, u: real)
    requires u > 0.0
    ensures RoundTo(x, u) == Times(HalfEven(x / u), u)
  {
    hide HalfEven;
  }

  lemma TimesDivide(j: int, u: real, x: real)
    requires u > 0.0
    ensures (Times(j, u) <= x <==> j as real <= x / u) && (Times(j, u) == x <==> j as real == x / u)
  {
    DivideThrough(j as real, u, x);
  }

  lemma TimesOrder(j: int, n: int, u: real)
    requires u > 0.0 && j <= n
    ensures Times(j, u) <= Times(n, u)
  {
    ScaleOrder(j as real, n as real, u);
  }

  /** The guard never crosses a multiple of the unit. */
  lemma GuardNear(x: real, m: real)
    requires x > 0.0 && Multiple(m, Unit(x))
    ensures m <= x ==> m <= Guard(x)
    ensures m == x ==> Guard(x) == x
  {
    RoundToMultiple(x, Unit(x), m);
  }

  lemma ScaleBound(n: real, q: real, u: real)
    requires u > 0.0 && -0.5 <= n - q <= 0.5
    ensures -u / 2.0 <= n * u - q * u <= u / 2.0
  {
    var r := n - q;
    assert r * u == n * u - q * u;
    ScaleOrder(-0.5, r, u);
    ScaleOrder(r, 0.5, u);
  }

  lemma ScaleOrder(x: real, y: real, u: real)
    requires u > 0.0 && x <= y
    ensures x * u <= y * u
  {
  }

  lemma DivideThrough(y: real, u: real, x: real)
    requires u > 0.0
    ensures y * u <= x <==> y <= x / u
    ensures y * u == x <==> y == x / u
  {
    var q := x / u;
    assert q * u == x;
    if y <= q { ScaleOrder(y, q, u); } else { assert (y - q) * u > 0.0; }
  }

  lemma DivideThroughAbove(y: real, u: real, x: real)
    requires u > 0.0
    ensures x <= y * u <==> x / u <= y
  {
    var q := x / u;
    assert q * u == x;
    if q <= y { ScaleOrder(q, y, u); } else { assert (q - y) * u > 0.0; }
  }

  // ------------------------------------------- guard, then quantize: one rounding

  /** The operands of a quotient a / d fit the digit budget for scale s. */
  ghost predicate WithinBudget(a: int, s: nat) {
    Abs(a as real) * TenTo(s) < TenTo(GUARD_PRECISION - 1)
  }

  /** Every value with at most s + 1 decimals is a multiple of the unit of a budgeted quotient. */
  lemma UnitDivides(x: real, s: nat, n: int, m: real)
    requires x > 0.0 && x * TenTo(s) < TenTo(GUARD_PRECISION - 1)
    requires m == n as real * TenTo(-(s + 1))
    ensures Multiple(m, Unit(x))
  {
    hide *;
    BudgetExponent(x, s);
    UnitPower(x);
    var e := Exponent(x);
    var k := (GUARD_PRECISION - 1) - e - (s + 1);
    ScaleFacts(k);
    TenToAdd(k, e - (GUARD_PRECISION - 1));
    MultipleOf(n, TenTo(k).Floor, Unit(x), m);
  }

  lemma BudgetExponent(x: real, s: nat)
    requires x > 0.0 && x * TenTo(s) < TenTo(GUARD_PRECISION - 1)
    ensures Exponent(x) + s < GUARD_PRECISION - 1
  {
    hide *;
    var e := Exponent(x);
    TenToPositive(s);
    ScaleOrder(TenTo(e), x, TenTo(s));
    TenToAdd(e, s);
    if e + s >= GUARD_PRECISION - 1 { TenToMonotone(GUARD_PRECISION - 1, e + s); }
  }

  lemma MultipleOf(n: int, t: int, u: real, m: real)
    requires m == n as real * (t as real * u)
    ensures Multiple(m, u)
  {
    Regroup(n, t, u);
    assert m == Times(n * t, u);
  }

  lemma Regroup(n: int, t: int, u: real)
    ensures n as real * (t as real * u) == Times(n * t, u)
  {
    IntProduct(n, t);
    assert n as real * (t as real * u) == (n as real * t as real) * u;
  }

  lemma {:induction false} IntProduct(n: int, t: int)
    ensures (n * t) as real == n as real * t as real
    decreases if t < 0 then -t else t
  {
    if t > 0 {
      IntProduct(n, t - 1);
      assert n * t == n * (t - 1) + n;
      assert n as real * t as real == n as real * (t - 1) as real + n as real;
    } else if t < 0 {
      IntProduct(n, t + 1);
      assert n * t == n * (t + 1) - n;
      assert n as real * t as real == n as real * (t + 1) as real - n as real;
    }
  }

  /** A quotient strictly below a midpoint stays below it: both sides are fractions over 2d. */
  lemma MidpointGap(a: int, d: int, p: int, n: int, q: real)
    requires d > 0 && q * d as real == a as real
    requires q * p as real < n as real + 0.5
    ensures (n as real + 0.5 - q * p as real) * d as real >= 0.5
  {
    IntProduct(2 * n + 1, d); IntProduct(a, p);
    var lhs := ((2 * n + 1) * d) as real;
    var rhs := (2 * (a * p)) as real;
    var x := n as real + 0.5 - q * p as real;
    assert q * p as real * d as real == a as real * p as real;
    assert 2.0 * (x * d as real) == lhs - rhs;
    assert x * d as real > 0.0;
    assert (2 * n + 1) * d > 2 * (a * p);
  }

  /** Raw arithmetic of the upper side: t = 10^e <= q, u = 10^(e-79), big = 10^79. */
  lemma GuardBelowMidpoint(a: int, d: int, p: int, n: int, q: real, u: real, g: real, big: real, t: real)
    requires d > 0 && p > 0 && u > 0.0 && big > 0.0
    requires q * d as real == a as real && q * p as real < n as real + 0.5
    requires t == u * big && t <= q && a as real * p as real < big
    requires g - q <= u / 2.0
    ensures g * p as real < n as real + 0.5
  {
    var D, P := d as real, p as real;
    MidpointGap(a, d, p, n, q);
    ScaleOrder(t, q, D);
    ScaleOrder(t * D, a as real, P);
    var z := u * (P * D);
    assert t * D * P == z * big;
    assert z < 1.0 by {
      if z >= 1.0 { ScaleOrder(1.0, z, big); }
    }
    ScaleOrder(g - q, u / 2.0, P * D);
    assert u / 2.0 * (P * D) == z / 2.0;
    StaysBelow(q, g, P, D, n as real + 0.5);
  }

  lemma StaysBelow(q: real, g: real, p: real, d: real, m: real)
    requires d > 0.0 && (g - q) * (p * d) < 0.5 && (m - q * p) * d >= 0.5
    ensures g * p < m
  {
    assert (g - q) * (p * d) == (g * p - q * p) * d;
    if g * p >= m { ScaleOrder(m - q * p, g * p - q * p, d); }
  }

  /** Raw arithmetic of the lower side: m is a midpoint the guard cannot cross. */
  lemma GuardAboveMidpoint(q: real, g: real, p: real, m: real, n: real)
    requires p > 0.0 && m * p == n - 0.5 && n - 0.5 <= q * p
    requires m <= q ==> m <= g
    ensures n - 0.5 <= g * p
  {
    DivideThrough(m, p, q * p);
    assert q * p / p == q;
    ScaleOrder(m, g, p);
  }

  lemma MidpointHasDecimals(n: int, s: nat, m: real)
    requires m == (10 * n - 5) as real * TenTo(-(s + 1))
    ensures m * TenTo(s) == n as real - 0.5
  {
    hide *;
    var x, y, z := (10 * n - 5) as real, TenTo(-(s + 1)), TenTo(s);
    TenToAdd(-(s + 1), s); TenToSucc(-1);
    assert (x * y) * z == x * (y * z);
  }

  lemma LowerSide(q: real, s: nat)
    requires q > 0.0 && q * TenTo(s) < TenTo(GUARD_PRECISION - 1)
    ensures Guard(q) >= 0.0
    ensures HalfUp(q * TenTo(s)) as real - 0.5 <= Guard(q) * TenTo(s)
  {
    hide *;
    TenToPositive(s);
    NonNegativeProduct(q, TenTo(s));
    var n := HalfUp(q * TenTo(s));
    HalfUpNearest(q * TenTo(s), n);
    var m := (10 * n - 5) as real * TenTo(-(s + 1));
    UnitDivides(q, s, 10 * n - 5, m); GuardNear(q, m);
    UnitDivides(q, s, 0, 0.0); GuardNear(q, 0.0);
    MidpointHasDecimals(n, s, m);
    GuardAboveMidpoint(q, Guard(q), TenTo(s), m, n as real);
  }

  lemma UnitPower(q: real)
    requires q > 0.0
    ensures Unit(q) == TenTo(Exponent(q) - (GUARD_PRECISION - 1)) > 0.0
  {
  }

  lemma GuardError(q: real)
    requires q > 0.0
    ensures -Unit(q) / 2.0 <= Guard(q) - q <= Unit(q) / 2.0
  {
    RoundToNear(q, Unit(q));
  }

  lemma ScaleFacts(s: nat)
    ensures TenTo(s) > 0.0 && TenTo(s).Floor > 0 && TenTo(s) == TenTo(s).Floor as real
  {
    TenToPositive(s); TenToIsInteger(s);
  }

  lemma QuantizeIs(x: real, s: nat, y: real, n: int)
    requires y == x * TenTo(s) && HalfUp(y) == n
    ensures TenTo(s) > 0.0 && Quantize(x, s) == n as real / TenTo(s)
  {
    TenToPositive(s);
  }

  lemma UpperSide(a: int, d: int, s: nat, q: real)
    requires a > 0 && d > 0 && a as real * TenTo(s) < TenTo(GUARD_PRECISION - 1)
    requires q * d as real == a as real && q > 0.0
    ensures Guard(q) * TenTo(s) < HalfUp(q * TenTo(s)) as real + 0.5
  {
    hide *;
    ScaleFacts(s);
    NonNegativeProduct(q, TenTo(s));
    var n := HalfUp(q * TenTo(s));
    HalfUpNearest(q * TenTo(s), n);
    UnitPower(q); GuardError(q);
    TenToAdd(Exponent(q) - (GUARD_PRECISION - 1), GUARD_PRECISION - 1);
    TenToPositive(GUARD_PRECISION - 1);
    GuardBelowMidpoint(a, d, TenTo(s).Floor, n, q, Unit(q), Guard(q),
                       TenTo(GUARD_PRECISION - 1), TenTo(Exponent(q)));
  }

  lemma QuotientRoundsOncePositive(a: int, d: int, s: nat, q: real)
    requires a > 0 && d > 0 && a as real * TenTo(s) < TenTo(GUARD_PRECISION - 1)
    requires q * d as real == a as real && q > 0.0
    ensures Quantize(Guard(q), s) == Quantize(q, s)
  {
    hide *;
    TenToPositive(s);
    QuotientAtMost(q, a as real, d as real, TenTo(s));
    LowerSide(q, s);
    UpperSide(a, d, s, q);
    NonNegativeProduct(Guard(q), TenTo(s));
    var n, y := HalfUp(q * TenTo(s)), Guard(q) * TenTo(s);
    HalfUpNearest(y, n);
    assert n as real - 0.5 <= y < n as real + 0.5;
    assert HalfUp(y) == n;
    QuantizeIs(q, s, q * TenTo(s), n);
    QuantizeIs(Guard(q), s, y, n);
  }

  lemma PositiveQuotient(a: real, d: real)
    requires a > 0.0 && d > 0.0
    ensures a / d > 0.0 && a / d * d == a
  {
  }

  lemma NonNegativeProduct(x: real, y: real)
    requires x >= 0.0 && y >= 0.0
    ensures x * y >= 0.0
  {
  }

  lemma QuotientAtMost(q: real, a: real, d: real, p: real)
    requires q > 0.0 && d >= 1.0 && q * d == a && p > 0.0
    ensures q * p <= a * p
  {
    assert q * (d - 1.0) >= 0.0;
    ScaleOrder(q, a, p);
  }

  /** Dividing with the 80-digit guard and then quantizing HALF_UP equals rounding the exact
      quotient once, for every numerator within the budget and every positive denominator. */
  lemma QuotientRoundsOnce(a: int, d: int, s: nat)
    requires d > 0 && WithinBudget(a, s)
    ensures Quantize(Guard(a as real / d as real), s) == Quantize(a as real / d as real, s)
  {
    hide *;
    var x := a as real / d as real;
    BudgetSides(a, s);
    if a > 0 {
      PositiveQuotient(a as real, d as real);
      QuotientRoundsOncePositive(a, d, s, x);
    } else if a < 0 {
      PositiveQuotient((-a) as real, d as real);
      NegatedQuotient(a, d);
      var q := (-a) as real / d as real;
      QuotientRoundsOncePositive(-a, d, s, q);
      GuardOdd(q); QuantizeOdd(q, s); QuantizeOdd(Guard(q), s);
    } else {
      ZeroQuotient(d);
    }
  }

  lemma NegatedQuotient(a: int, d: int)
    requires d > 0
    ensures a as real / d as real == -((-a) as real / d as real)
  {
  }

  lemma ZeroQuotient(d: int)
    requires d > 0
    ensures 0 as real / d as real == 0.0 && Guard(0.0) == 0.0
  {
  }

  lemma BudgetSides(a: int, s: nat)
    requires WithinBudget(a, s)
    ensures a > 0 ==> a as real * TenTo(s) < TenTo(GUARD_PRECISION - 1)
    ensures a < 0 ==> (-a) as real * TenTo(s) < TenTo(GUARD_PRECISION - 1)
  {
  }

  /** A decimal n * 10^-k of at most 80 digits passes the guard unchanged. */
  lemma GuardExact(x: real, n: int, k: nat)
    requires x == n as real * TenTo(0 - k)
    requires -TenTo(GUARD_PRECISION) < n as real < TenTo(GUARD_PRECISION)
    ensures Guard(x) == x
  {
    hide *;
    if n < 0 {
      assert -x == (-n) as real * TenTo(0 - k);
      GuardExactPositive(-x, -n, k);
      GuardOdd(-x);
    } else if n > 0 {
      GuardExactPositive(x, n, k);
    } else {
      GuardZero(x);
    }
  }

  lemma GuardZero(x: real)
    requires x == 0.0
    ensures Guard(x) == x
  {
  }

  lemma GuardExactPositive(x: real, n: int, k: nat)
    requires x == n as real * TenTo(0 - k)
    requires 0 < n && n as real < TenTo(GUARD_PRECISION)
    ensures Guard(x) == x
  {
    var t := TenTo(0 - k);
    assert t > 0.0 && x > 0.0 by { TenToPositive(0 - k); }
    assert x < TenTo(GUARD_PRECISION - k) by {
      TenToAdd(GUARD_PRECISION, 0 - k);
      assert (TenTo(GUARD_PRECISION) - n as real) * t > 0.0;
    }
    assert Multiple(x, Unit(x)) by { UnitDividesPower(n, k, x); }
    hide *;
    GuardNear(x, x);
  }

  lemma UnitDividesPower(n: int, k: nat, x: real)
    requires x > 0.0 && x == n as real * TenTo(0 - k) && x < TenTo(GUARD_PRECISION - k)
    ensures Multiple(x, Unit(x))
  {
    hide *;
    UnitPower(x);
    var e := Exponent(x);
    var j := 0 - k - (e - (GUARD_PRECISION - 1));
    if j < 0 { TenToMonotone(GUARD_PRECISION - k, e); }
    ScaleFacts(j);
    TenToAdd(j, e - (GUARD_PRECISION - 1));
    MultipleOf(n, TenTo(j).Floor, Unit(x), x);
  }
}

