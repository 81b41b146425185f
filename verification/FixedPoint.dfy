/** Values held at a fixed number of decimals: NUMERIC columns, fixed4/money4 and fixed8/money8. */
module FixedPoint {
  import opened Decimals

  /** fixed4 and money4: quantizeDecimal(x, 4, "HALF_UP"). */
  function Fixed4(x: real): real { HalfUp(x * 10000.0) as real / 10000.0 }

  /** fixed8 and money8: quantizeDecimal(x, 8, "HALF_UP"). */
  function Fixed8(x: real): real { HalfUp(x * 100000000.0) as real / 100000000.0 }

  predicate At4(x: real) { x * 10000.0 == (x * 10000.0).Floor as real }

  predicate At6(x: real) { x * 1000000.0 == (x * 1000000.0).Floor as real }

  /** fixed6, the rounding of a NUMERIC(20,6) column on insert. */
  function Fixed6(x: real): real { HalfUp(x * 1000000.0) as real / 1000000.0 }

  predicate At14(x: real) { x * 100000000000000.0 == (x * 100000000000000.0).Floor as real }

  predicate At8(x: real) { x * 100000000.0 == (x * 100000000.0).Floor as real }

  /** fitsPrecisionScale(x, 20, 4). */
  predicate FitsMoney(x: real) { At4(x) && -10000000000000000.0 < x < 10000000000000000.0 }

  /** fitsPrecisionScale(x, 20, 6). */
  predicate FitsQuantity(x: real) { At6(x) && -100000000000000.0 < x < 100000000000000.0 }

  /** fitsPrecisionScale(x, 20, 8). */
  predicate FitsFactor(x: real) { At8(x) && -1000000000000.0 < x < 1000000000000.0 }

  /** A base quantity before it is stored: a quantity times a conversion factor, never quantized.
      A larger one overflows its NUMERIC(20,6) column and aborts the command. */
  predicate FitsBase(x: real) { At14(x) && -100000000000000.0 < x < 100000000000000.0 }

  /** A NUMERIC(24,8) column. */
  predicate FitsCost(x: real) { At8(x) && -10000000000000000.0 < x < 10000000000000000.0 }

  /** x is the integer n of a column's last place, and n has at most the column's digits. */
  predicate IsNumeric(x: real, n: int, unit: real, bound: int) { x * unit == n as real && -bound < n < bound }

  lemma MoneyColumn(x: real)
    ensures FitsMoney(x) <==> exists n :: IsNumeric(x, n, 10000.0, 100_000_000_000_000_000_000)
  {
    if FitsMoney(x) { assert IsNumeric(x, (x * 10000.0).Floor, 10000.0, 100_000_000_000_000_000_000); }
  }

  lemma QuantityColumn(x: real)
    ensures FitsQuantity(x) <==> exists n :: IsNumeric(x, n, 1000000.0, 100_000_000_000_000_000_000)
  {
    if FitsQuantity(x) { assert IsNumeric(x, (x * 1000000.0).Floor, 1000000.0, 100_000_000_000_000_000_000); }
  }

  lemma FactorColumn(x: real)
    ensures FitsFactor(x) <==> exists n :: IsNumeric(x, n, 100000000.0, 100_000_000_000_000_000_000)
  {
    if FitsFactor(x) { assert IsNumeric(x, (x * 100000000.0).Floor, 100000000.0, 100_000_000_000_000_000_000); }
  }

  lemma CostColumn(x: real)
    ensures FitsCost(x) <==> exists n :: IsNumeric(x, n, 100000000.0, 1_000_000_000_000_000_000_000_000)
  {
    if FitsCost(x) { assert IsNumeric(x, (x * 100000000.0).Floor, 100000000.0, 1_000_000_000_000_000_000_000_000); }
  }

  /** The readers' limits are those of the columns: so many digits, so many of them after the point. */
  lemma NumericColumns(x: real)
    ensures FitsMoney(x) <==> exists n :: IsNumeric(x, n, 10000.0, 100_000_000_000_000_000_000)
    ensures FitsQuantity(x) <==> exists n :: IsNumeric(x, n, 1000000.0, 100_000_000_000_000_000_000)
    ensures FitsFactor(x) <==> exists n :: IsNumeric(x, n, 100000000.0, 100_000_000_000_000_000_000)
    ensures FitsCost(x) <==> exists n :: IsNumeric(x, n, 100000000.0, 1_000_000_000_000_000_000_000_000)
  {
    hide *;
    MoneyColumn(x); QuantityColumn(x); FactorColumn(x); CostColumn(x);
  }

  function Product(x: real, y: real): real { x * y }

  function Quotient(x: real, y: real): real
    requires y != 0.0
  {
    x / y
  }

  const HALF4 := 0.00005
  const HALF6 := 0.0000005
  const HALF8 := 0.000000005

  /** HALF_UP moves a value by half a unit at most, and an integer not at all. */
  lemma HalfUpNear(z: real)
    ensures -0.5 <= HalfUp(z) as real - z <= 0.5
    ensures z == z.Floor as real <==> HalfUp(z) as real == z
  {
    HalfUpNearest(z, HalfUp(z));
    HalfUpNearest(z, z.Floor);
  }

  lemma Fixed4Near(x: real)
    ensures -HALF4 <= Fixed4(x) - x <= HALF4
    ensures At4(Fixed4(x))
    ensures At4(x) ==> Fixed4(x) == x
  {
    var n := HalfUp(x * 10000.0);
    HalfUpNear(x * 10000.0);
    hide HalfUp;
    IntegerOf(Fixed4(x) * 10000.0, n);
  }

  lemma Fixed6Near(x: real)
    ensures -HALF6 <= Fixed6(x) - x <= HALF6
    ensures At6(Fixed6(x))
    ensures At6(x) <==> Fixed6(x) == x
  {
    var n := HalfUp(x * 1000000.0);
    HalfUpNear(x * 1000000.0);
    hide HalfUp;
    IntegerOf(Fixed6(x) * 1000000.0, n);
  }

  lemma Fixed6Monotone(x: real, y: real)
    requires x <= y
    ensures Fixed6(x) <= Fixed6(y)
  {
    HalfUpMonotone(x * 1000000.0, y * 1000000.0);
  }

  /** Taking a value on the scale away commutes with the rounding, as long as nothing is negative. */
  lemma Fixed6Shift(x: real, a: real)
    requires At6(a) && 0.0 <= a <= x
    ensures Fixed6(x - a) == Fixed6(x) - a
  {
    var z, n := x * 1000000.0, (a * 1000000.0).Floor;
    assert (x - a) * 1000000.0 == z - n as real;
    assert (z - n as real + 0.5).Floor == (z + 0.5).Floor - n;
  }

  lemma Fixed8Near(x: real)
    ensures -HALF8 <= Fixed8(x) - x <= HALF8
    ensures At8(Fixed8(x))
    ensures At8(x) ==> Fixed8(x) == x
  {
    var n := HalfUp(x * 100000000.0);
    HalfUpNear(x * 100000000.0);
    hide HalfUp;
    IntegerOf(Fixed8(x) * 100000000.0, n);
  }

  lemma Fixed8Monotone(x: real, y: real)
    requires x <= y
    ensures Fixed8(x) <= Fixed8(y)
  {
    HalfUpMonotone(x * 100000000.0, y * 100000000.0);
  }

  /** Rounding keeps a value between two bounds that are themselves at scale. */
  lemma Fixed8Between(lo: real, x: real, hi: real)
    requires lo <= x <= hi && At8(lo) && At8(hi)
    ensures lo <= Fixed8(x) <= hi
  {
    Fixed8Near(lo); Fixed8Near(hi);
    Fixed8Monotone(lo, x); Fixed8Monotone(x, hi);
  }

  lemma IntegerOf(z: real, n: int)
    requires z == n as real
    ensures z == z.Floor as real
  {
  }

  lemma IntegerSum(x: real, y: real, m: int, n: int)
    requires x == m as real && y == n as real
    ensures (x + y) == (x + y).Floor as real && (x - y) == (x - y).Floor as real
  {
    IntegerOf(x + y, m + n);
    IntegerOf(x - y, m - n);
  }

  lemma ZeroAtScale()
    ensures At4(0.0) && At6(0.0) && FitsMoney(0.0)
  {
    IntegerOf(0.0 * 10000.0, 0); IntegerOf(0.0 * 1000000.0, 0);
  }

  lemma At4Sum(x: real, y: real)
    requires At4(x) && At4(y)
    ensures At4(x + y) && At4(x - y)
  {
    IntegerSum(x * 10000.0, y * 10000.0, (x * 10000.0).Floor, (y * 10000.0).Floor);
  }

  lemma At6Sum(x: real, y: real)
    requires At6(x) && At6(y)
    ensures At6(x + y) && At6(x - y)
  {
    IntegerSum(x * 1000000.0, y * 1000000.0, (x * 1000000.0).Floor, (y * 1000000.0).Floor);
  }

  /** A positive quantity at scale 6 is at least one millionth. */
  lemma SmallestQuantity(x: real)
    requires At6(x) && x > 0.0
    ensures x >= 0.000001
  {
    assert (x * 1000000.0).Floor >= 1;
  }

  // -------------------------------------------- the engine's calls are exact

  lemma Powers()
    ensures TenTo(0) == 1.0 && TenTo(4) == 10000.0 && TenTo(8) == 100000000.0
    ensures TenTo(-4) == 0.0001 && TenTo(-6) == 0.000001 && TenTo(-10) == 0.0000000001
  {
    TenToSucc(0); TenToSucc(1); TenToSucc(2); TenToSucc(3); TenToSucc(4); TenToSucc(5); TenToSucc(6); TenToSucc(7);
    TenToSucc(-1); TenToSucc(-2); TenToSucc(-3); TenToSucc(-4); TenToSucc(-5); TenToSucc(-6); TenToSucc(-7);
    TenToSucc(-8); TenToSucc(-9); TenToSucc(-10);
  }

  const TEN64 := 10000000000000000000000000000000000000000000000000000000000000000.0

  lemma LargePower()
    ensures TEN64 <= TenTo(GUARD_PRECISION - 1) <= TenTo(GUARD_PRECISION)
  {
    Powers();
    TenToAdd(8, 8); TenToAdd(16, 16); TenToAdd(32, 32);
    assert TenTo(16) == 10000000000000000.0;
    assert TenTo(32) == 100000000000000000000000000000000.0;
    TenToMonotone(64, GUARD_PRECISION - 1); TenToMonotone(GUARD_PRECISION - 1, GUARD_PRECISION);
  }

  lemma Fixed4IsQuantize(x: real)
    ensures Fixed4(x) == Quantize(x, 4)
  {
    Powers();
  }

  lemma Fixed8IsQuantize(x: real)
    ensures Fixed8(x) == Quantize(x, 8)
  {
    Powers();
  }

  /** Sums and differences of money amounts pass the 80-digit guard unchanged. */
  lemma GuardAt4(x: real)
    requires At4(x) && -10000000000000000000000000000000000000000.0 < x < 10000000000000000000000000000000000000000.0
    ensures Guard(x) == x
  {
    Powers(); LargePower();
    var n := (x * 10000.0).Floor;
    assert x == n as real * 0.0001;
    assert -TEN64 < n as real < TEN64;
    assert -TenTo(GUARD_PRECISION) < n as real < TenTo(GUARD_PRECISION);
    hide *;
    GuardExact(x, n, 4);
  }

  lemma GuardAt6(x: real)
    requires At6(x) && -10000000000000000000000000000000000000000.0 < x < 10000000000000000000000000000000000000000.0
    ensures Guard(x) == x
  {
    Powers(); LargePower();
    var n := (x * 1000000.0).Floor;
    assert x == n as real * 0.000001;
    assert -TEN64 < n as real < TEN64;
    assert -TenTo(GUARD_PRECISION) < n as real < TenTo(GUARD_PRECISION);
    hide *;
    GuardExact(x, n, 6);
  }

  lemma ProductBelow(x: real, y: real, b: real, c: real)
    requires 0.0 <= x < b && 0.0 <= y < c
    ensures 0.0 <= x * y < b * c
  {
    assert x * y <= x * c by { assert x * (c - y) >= 0.0; }
    assert x * c < b * c by { assert (b - x) * c > 0.0; }
  }

  /** A money amount times a quantity passes the guard unchanged. */
  lemma GuardProduct(x: real, y: real)
    requires FitsMoney(x) && FitsQuantity(y) && x >= 0.0 && y >= 0.0
    ensures Guard(x * y) == x * y
  {
    Powers(); LargePower();
    var m, n := (x * 10000.0).Floor, (y * 1000000.0).Floor;
    var a, b := m as real, n as real;
    IntProduct(m, n);
    assert x == a * 0.0001 && y == b * 0.000001;
    var z := x * y;
    assert z == (a * b) * 0.0000000001;
    hide *;
    ProductBelow(a, b, 100000000000000000000.0, 100000000000000000000.0);
    GuardExact(z, m * n, 10);
  }

  /** The rounded quotient of an exact product by a quantity is rounded once. */
  lemma ShareRoundsOnce(x: real, y: real, z: real)
    requires FitsMoney(x) && FitsQuantity(y) && FitsQuantity(z) && x >= 0.0 && y >= 0.0 && z > 0.0
    ensures Fixed4(Guard(x * y / z)) == Fixed4(x * y / z)
  {
    var m, n, d := (x * 10000.0).Floor, (y * 1000000.0).Floor, (z * 1000000.0).Floor;
    assert x == m as real * 0.0001 && y == n as real * 0.000001 && z == d as real * 0.000001;
    assert 0.0 <= m as real < 100000000000000000000.0 && 0.0 <= n as real < 100000000000000000000.0 && d > 0;
    var q := x * y / z;
    ScaledShare(x, y, z, m, n, d);
    hide *;
    ScaledShareRounds(m, n, d, q);
  }

  /** fixed4(decimalDivide(decimalMultiply(x, y), z)) rounds the exact value once. */
  lemma GuardedShare(x: real, y: real, z: real)
    requires FitsMoney(x) && FitsQuantity(y) && FitsQuantity(z) && x >= 0.0 && y >= 0.0 && z > 0.0
    ensures Fixed4(Guard(Quotient(Guard(Product(x, y)), z))) == Fixed4(Quotient(Product(x, y), z))
  {
    assert Product(x, y) == x * y && Quotient(Product(x, y), z) == x * y / z;
    hide *;
    GuardProduct(x, y);
    ShareRoundsOnce(x, y, z);
  }

  lemma ScaledShare(x: real, y: real, z: real, m: int, n: int, d: int)
    requires x == m as real * 0.0001 && y == n as real * 0.000001 && z == d as real * 0.000001 && d > 0
    ensures (d * 10000) as real > 0.0 && z > 0.0 && x * y / z == (m * n) as real / (d * 10000) as real
  {
    hide *;
    IntProduct(m, n); IntProduct(d, 10000);
    var a, b, c := m as real, n as real, d as real;
    assert x * y == (a * b) * 0.0000000001;
    SameQuotient(x * y, z, a * b, c * 10000.0, 0.0000000001);
  }

  lemma ScaledShareRounds(m: int, n: int, d: int, q: real)
    requires 0.0 <= m as real < 100000000000000000000.0 && 0.0 <= n as real < 100000000000000000000.0
    requires d > 0 && q == (m * n) as real / (d * 10000) as real
    ensures Fixed4(Guard(q)) == Fixed4(q)
  {
    hide *;
    IntProduct(m, n);
    ProductBelow(m as real, n as real, 100000000000000000000.0, 100000000000000000000.0);
    BudgetFour(m * n);
    QuotientRoundsOnce(m * n, d * 10000, 4);
    Fixed4IsQuantize(Guard(q)); Fixed4IsQuantize(q);
  }

  lemma BudgetFour(a: int)
    requires 0.0 <= a as real < 10000000000000000000000000000000000000000.0
    ensures WithinBudget(a, 4)
  {
    Powers(); LargePower();
  }

  lemma SameQuotient(x: real, z: real, w: real, c: real, t: real)
    requires t > 0.0 && z > 0.0 && c > 0.0 && x == w * t && z == c * t
    ensures x / z == w / c
  {
    var q := w / c;
    assert q * c == w;
    assert q * z == x;
    DivideThrough(q, z, x);
  }

  // ---------------------------------------------------- weighted averages

  /** A quantity times a conversion factor has at most fourteen decimals. */
  lemma BaseAt14(q: real, f: real)
    requires At6(q) && At8(f)
    ensures At14(Product(q, f))
  {
    var i, j := (q * 1000000.0).Floor, (f * 100000000.0).Floor;
    IntProduct(i, j);
    ScaledProduct(q, f, i as real, j as real);
    hide *;
    AtFourteen(Product(q, f), i * j);
  }

  lemma AtFourteen(x: real, n: int)
    requires x == n as real * 0.00000000000001
    ensures At14(x)
  {
    IntegerOf(x * 100000000000000.0, n);
  }

  lemma At14Sum(x: real, y: real)
    requires At14(x) && At14(y)
    ensures At14(x + y) && At14(x - y)
  {
    var m, n := (x * 100000000000000.0).Floor, (y * 100000000000000.0).Floor;
    IntegerSum(x * 100000000000000.0, y * 100000000000000.0, m, n);
  }

  lemma SmallPowers()
    ensures TenTo(-14) == 0.00000000000001 && TenTo(-22) == 0.0000000000000000000001
  {
    Powers();
    TenToAdd(-4, -10); TenToAdd(-8, -14); TenToAdd(-4, -4);
  }

  const TEN53 := 100000000000000000000000000000000000000000000000000000.0

  /** A value held as an integer number of 10^-14. */
  lemma GuardAt14(z: real, n: int)
    requires z == n as real * 0.00000000000001 && 0.0 <= n as real < TEN53
    ensures Guard(z) == z
  {
    SmallPowers(); LargePower();
    assert -TenTo(GUARD_PRECISION) < n as real < TenTo(GUARD_PRECISION);
    hide *;
    GuardExact(z, n, 14);
  }

  /** A value held as an integer number of 10^-22. */
  lemma GuardAt22(z: real, n: int)
    requires z == n as real * 0.0000000000000000000001 && 0.0 <= n as real < TEN53
    ensures Guard(z) == z
  {
    SmallPowers(); LargePower();
    assert -TenTo(GUARD_PRECISION) < n as real < TenTo(GUARD_PRECISION);
    hide *;
    GuardExact(z, n, 22);
  }

  /** A base quantity times a unit cost is an integer number of 10^-22. */
  lemma QuantityTimesCost(q: real, c: real) returns (n: int)
    requires FitsBase(q) && FitsCost(c) && q >= 0.0 && c >= 0.0
    ensures Product(q, c) == n as real * 0.0000000000000000000001
    ensures 0.0 <= n as real < 10000000000000000000000000000000000000000000000000000.0
  {
    var i, j := (q * 100000000000000.0).Floor, (c * 100000000.0).Floor;
    var a, b := i as real, j as real;
    assert q == a * 0.00000000000001 && c == b * 0.00000001;
    assert 0.0 <= a < 10000000000000000000000000000.0 && 0.0 <= b < 1000000000000000000000000.0;
    IntProduct(i, j);
    n := i * j;
    ScaledCost(q, c, a, b);
    hide *;
    ProductBelow(a, b, 10000000000000000000000000000.0, 1000000000000000000000000.0);
  }

  lemma ScaledProduct(q: real, c: real, a: real, b: real)
    requires q == a * 0.000001 && c == b * 0.00000001
    ensures Product(q, c) == a * b * 0.00000000000001
  {
  }

  lemma ScaledCost(q: real, c: real, a: real, b: real)
    requires q == a * 0.00000000000001 && c == b * 0.00000001
    ensures Product(q, c) == a * b * 0.0000000000000000000001
  {
  }

  lemma BudgetEight(a: int)
    requires 0.0 <= a as real < TEN53
    ensures WithinBudget(a, 8)
  {
    Powers(); LargePower();
  }

  /** The engine's value-weighted mean of a units at x and b units at y. */
  ghost function GuardedMean(a: real, x: real, b: real, y: real): real
    requires Guard(a + b) != 0.0
  {
    Guard(Quotient(Guard(Guard(Product(a, x)) + Guard(Product(b, y))), Guard(a + b)))
  }

  lemma GuardedQuotient(v: real, w: real, n: int, d: int)
    requires v == n as real * 0.0000000000000000000001 && 0.0 <= n as real < TEN53
    requires w == d as real * 0.00000000000001 && d > 0
    ensures w > 0.0 && Fixed8(Guard(Quotient(v, w))) == Fixed8(Quotient(v, w))
  {
    var q := Quotient(v, w);
    IntProduct(d, 100000000);
    SameQuotient(v, w, n as real, (d * 100000000) as real, 0.0000000000000000000001);
    assert q == n as real / (d * 100000000) as real;
    BudgetEight(n);
    hide *;
    QuotientRoundsOnce(n, d * 100000000, 8);
    Fixed8IsQuantize(Guard(q)); Fixed8IsQuantize(q);
  }

  lemma BaseUnits(a: real) returns (d: int)
    requires At14(a) && 0.0 < a < 200000000000000.0
    ensures a == d as real * 0.00000000000001 && 0.0 < d as real < TEN53 && d > 0
  {
    d := (a * 100000000000000.0).Floor;
  }

  lemma BaseTotal(a: real, b: real) returns (d: int)
    requires FitsBase(a) && FitsBase(b) && a > 0.0 && b >= 0.0
    ensures a + b == d as real * 0.00000000000001 && d > 0 && Guard(a + b) == a + b
  {
    hide Guard;
    At14Sum(a, b);
    d := BaseUnits(a + b);
    GuardAt14(a + b, d);
  }

  /** money8 of the engine's mean rounds the exact mean once, for every base quantity, stored or
      still with all fourteen decimals of its conversion, and every stored cost. */
  lemma GuardedMeanRoundsOnce(a: real, x: real, b: real, y: real)
    requires FitsBase(a) && FitsBase(b) && FitsCost(x) && FitsCost(y)
    requires a > 0.0 && b >= 0.0 && x >= 0.0 && y >= 0.0
    ensures Guard(a + b) == a + b
    ensures Fixed8(GuardedMean(a, x, b, y)) == Fixed8(Quotient(Product(a, x) + Product(b, y), a + b))
  {
    hide Guard, Product, Quotient, Fixed8, FitsCost;
    var d := BaseTotal(a, b);
    hide FitsBase;
    var m := QuantityTimesCost(a, x);
    var n := QuantityTimesCost(b, y);
    GuardAt22(Product(a, x), m); GuardAt22(Product(b, y), n);
    GuardAt22(Product(a, x) + Product(b, y), m + n);
    GuardedQuotient(Product(a, x) + Product(b, y), a + b, m + n, d);
  }

  /** The base quantity of a receipt or a return is exact in the engine. */
  lemma GuardedBase(q: real, f: real)
    requires At6(q) && FitsFactor(f) && 0.0 <= q < 200000000000000.0 && f >= 0.0
    ensures Guard(Product(q, f)) == Product(q, f) && At14(Product(q, f))
  {
    BaseAt14(q, f);
    var i, j := (q * 1000000.0).Floor, (f * 100000000.0).Floor;
    var a, b := i as real, j as real;
    assert 0.0 <= a < 200000000000000000000.0 && 0.0 <= b < 100000000000000000000.0;
    IntProduct(i, j);
    ScaledProduct(q, f, a, b);
    hide *;
    ProductBelow(a, b, 200000000000000000000.0, 100000000000000000000.0);
    SmallGuard(Product(q, f), i * j);
  }

  lemma SmallGuard(z: real, n: int)
    requires z == n as real * 0.00000000000001 && 0.0 <= n as real < 20000000000000000000000000000000000000000.0
    ensures Guard(z) == z
  {
    hide Guard;
    GuardAt14(z, n);
  }
}
