/** Provisional cost, moving average and the COGS corrections of replaced sales. */
module Costing {
  import opened Decimals
  import opened FixedPoint
  import opened Wrappers
  import NegativeStock
  import StoredStock

  // --------------------------------------------------------- provisional cost

  datatype PurchaseLine = PurchaseLine(
    agreedPrice: Option<real>, agreedDiscount: real,
    invoicePrice: Option<real>, invoiceDiscount: real,
    expected: real, conversion: real)

  datatype Provisional = NoCost | UnitCost(value: real) | CostInvalid

  /** calculateProvisionalCost: invoice terms before agreed terms before the last known cost. */
  function ProvisionalCost(line: PurchaseLine, accepted: real, free: real, fallback: Option<real>): Provisional
    requires line.expected > 0.0 && line.conversion > 0.0
  {
    var price := if line.invoicePrice.Some? then line.invoicePrice else line.agreedPrice;
    if price.None? then (if fallback.None? then NoCost else UnitCost(fallback.value))
    else
      var discount := if line.invoicePrice.None? then line.agreedDiscount else line.invoiceDiscount;
      var physical := accepted + free;
      if physical == 0.0 then NoCost
      else
        var consideration := Product(price.value, accepted) - Product(discount, Quotient(accepted, line.expected));
        if consideration < 0.0 then CostInvalid
        else UnitCost(Fixed8(Quotient(Quotient(consideration, physical), line.conversion)))
  }

  lemma Fixed8NonNegative(x: real)
    requires x >= 0.0
    ensures Fixed8(x) >= 0.0
  {
    HalfUpMonotone(0.0, x * 100000000.0);
    HalfUpNearest(0.0, 0);
  }

  /** A provisional cost is a non-negative amount at scale 8, whichever terms produced it. */
  lemma ProvisionalCostIsCost(line: PurchaseLine, accepted: real, free: real, fallback: Option<real>)
    requires line.expected > 0.0 && line.conversion > 0.0 && accepted >= 0.0 && free >= 0.0
    requires fallback.Some? ==> fallback.value >= 0.0 && At8(fallback.value)
    ensures var r := ProvisionalCost(line, accepted, free, fallback);
      r.UnitCost? ==> r.value >= 0.0 && At8(r.value)
  {
    hide Fixed8, At8, Product, Quotient;
    var r := ProvisionalCost(line, accepted, free, fallback);
    var physical := accepted + free;
    if physical > 0.0 {
      var price := if line.invoicePrice.Some? then line.invoicePrice else line.agreedPrice;
      var discount := if line.invoicePrice.None? then line.agreedDiscount else line.invoiceDiscount;
      var paid := if price.Some? then price.value else 0.0;
      var consideration := Product(paid, accepted) - Product(discount, Quotient(accepted, line.expected));
      if consideration >= 0.0 { UnitCostIsCost(consideration, physical, line.conversion); }
    }
  }

  lemma UnitCostIsCost(consideration: real, physical: real, conversion: real)
    requires consideration >= 0.0 && physical > 0.0 && conversion > 0.0
    ensures var x := Fixed8(Quotient(Quotient(consideration, physical), conversion)); x >= 0.0 && At8(x)
  {
    hide Fixed8, At8;
    QuotientNonNegative(consideration, physical);
    QuotientNonNegative(Quotient(consideration, physical), conversion);
    hide Quotient;
    var x := Quotient(Quotient(consideration, physical), conversion);
    Fixed8NonNegative(x);
    Fixed8Near(x);
  }

  lemma QuotientNonNegative(a: real, b: real)
    requires a >= 0.0 && b > 0.0
    ensures Quotient(a, b) >= 0.0
  {
  }

  /** Which terms decide: an invoice price shuts out the agreed terms and the fallback, without it the
      agreed terms stand in its place, and without both the fallback does. */
  lemma TermsDecide(line: PurchaseLine, accepted: real, free: real, fallback: Option<real>)
    requires line.expected > 0.0 && line.conversion > 0.0
    ensures line.invoicePrice.Some? ==>
      forall price, discount, other ::
        ProvisionalCost(line.(agreedPrice := price, agreedDiscount := discount), accepted, free, other)
        == ProvisionalCost(line, accepted, free, fallback)
    ensures line.invoicePrice.None? && line.agreedPrice.Some? ==>
      var invoiced := line.(invoicePrice := line.agreedPrice, invoiceDiscount := line.agreedDiscount);
      forall other ::
        ProvisionalCost(line, accepted, free, other) == ProvisionalCost(invoiced, accepted, free, fallback)
    ensures line.invoicePrice.None? && line.agreedPrice.None? ==>
      ProvisionalCost(line, accepted, free, fallback) == if fallback.Some? then UnitCost(fallback.value) else NoCost
  {
    hide Fixed8, Product, Quotient;
  }

  /** What an invoiced receipt is worth: the price of the accepted units less their part of the line's
      discount. It is refused exactly when that is negative, has no cost exactly without units, and is
      otherwise spread over all base units with an error of half of 10^-8 for each of them. */
  lemma InvoicedCost(line: PurchaseLine, accepted: real, free: real, fallback: Option<real>, worth: real)
    requires line.expected > 0.0 && line.conversion > 0.0 && accepted >= 0.0 && free >= 0.0
    requires line.invoicePrice.Some?
    requires worth == line.invoicePrice.value * accepted - line.invoiceDiscount * (accepted / line.expected)
    ensures var r := ProvisionalCost(line, accepted, free, fallback); var units := (accepted + free) * line.conversion;
      && (r.NoCost? <==> accepted == 0.0 && free == 0.0)
      && (r.CostInvalid? <==> worth < 0.0)
      && (r.UnitCost? ==> At8(r.value) && -(units * HALF8) <= r.value * units - worth <= units * HALF8)
  {
    assert worth == Product(line.invoicePrice.value, accepted)
                    - Product(line.invoiceDiscount, Quotient(accepted, line.expected));
    if accepted + free > 0.0 {
      SpreadCost(worth, accepted + free, line.conversion);
    } else {
      assert accepted == 0.0;
      NothingAccepted(line.invoicePrice.value, line.invoiceDiscount, line.expected);
    }
    hide Product, Quotient, Fixed8, At8;
  }

  lemma NothingAccepted(price: real, discount: real, expected: real)
    requires expected > 0.0
    ensures price * 0.0 - discount * (0.0 / expected) == 0.0
  {
  }

  lemma SpreadCost(worth: real, units: real, conversion: real)
    requires units > 0.0 && conversion > 0.0
    ensures var u, w := Fixed8(Quotient(Quotient(worth, units), conversion)), units * conversion;
      At8(u) && -(w * HALF8) <= u * w - worth <= w * HALF8
  {
    hide Fixed8, At8;
    var x := Quotient(Quotient(worth, units), conversion);
    var w := units * conversion;
    assert x * w == worth by { SpreadBack(worth, units, conversion); }
    hide Quotient;
    Fixed8Near(x);
    ScaleBetween(w, -HALF8, Fixed8(x) - x, HALF8);
    assert w * (Fixed8(x) - x) == Fixed8(x) * w - x * w;
  }

  lemma SpreadBack(worth: real, units: real, conversion: real)
    requires units > 0.0 && conversion > 0.0
    ensures Quotient(Quotient(worth, units), conversion) * (units * conversion) == worth
  {
    var q := worth / units;
    assert q / conversion * conversion == q;
    assert q / conversion * (units * conversion) == q / conversion * conversion * units;
  }

  // ----------------------------------------------------------- moving average

  /** The value-weighted unit cost of a units at x and b units at y. */
  function Average(a: real, x: real, b: real, y: real): real
    requires a + b > 0.0
  {
    Quotient(Product(a, x) + Product(b, y), a + b)
  }

  /** applyReceiptCost: oldCost is null until a first cost is known. */
  function ReceiptAverage(oldQty: real, oldCost: Option<real>, q: real, c: real): real {
    var newQty := oldQty + q;
    if oldQty > 0.0 && oldCost.Some? && newQty > 0.0 then Fixed8(Average(oldQty, oldCost.value, q, c))
    else if newQty <= 0.0 && oldCost.Some? then oldCost.value
    else c
  }

  /** restockReturnItem: same averaging, but no branch for stock that stays at or below zero. */
  function RestockAverage(oldQty: real, oldCost: Option<real>, q: real, c: real): real {
    var newQty := oldQty + q;
    if oldQty > 0.0 && oldCost.Some? && newQty > 0.0 then Fixed8(Average(oldQty, oldCost.value, q, c)) else c
  }

  /** Where no old stock weighs in: a receipt that takes stock from at or below zero to above it sets
      the average to its own cost, one that leaves it at or below zero keeps a known cost, and a restock
      at or below zero sets it to the returned cost. */
  lemma AverageWithoutStock(oldQty: real, oldCost: Option<real>, q: real, c: real)
    requires oldQty <= 0.0 || oldCost.None?
    ensures ReceiptAverage(oldQty, oldCost, q, c) == if oldCost.Some? && oldQty + q <= 0.0 then oldCost.value else c
    ensures RestockAverage(oldQty, oldCost, q, c) == c
  {
    hide Fixed8, Average;
  }

  lemma ScaleBetween(w: real, lo: real, x: real, hi: real)
    requires w >= 0.0 && lo <= x <= hi
    ensures w * lo <= w * x <= w * hi
    ensures Product(w, lo) <= Product(w, x) <= Product(w, hi)
  {
    assert w * (x - lo) >= 0.0 && w * (hi - x) >= 0.0;
  }

  lemma Distribute(a: real, b: real, x: real)
    ensures x * (a + b) == Product(a, x) + Product(b, x)
  {
  }

  lemma WeightedSum(a: real, x: real, b: real, y: real, lo: real, hi: real)
    requires a > 0.0 && b >= 0.0 && lo <= x <= hi && lo <= y <= hi
    ensures lo * (a + b) <= Product(a, x) + Product(b, y) <= hi * (a + b)
  {
    ScaleBetween(a, lo, x, hi); ScaleBetween(b, lo, y, hi);
    Distribute(a, b, lo); Distribute(a, b, hi);
    hide Product;
    SumBetween(Product(a, lo), Product(a, x), Product(a, hi), Product(b, lo), Product(b, y), Product(b, hi));
  }

  lemma SumBetween(l1: real, m1: real, h1: real, l2: real, m2: real, h2: real)
    requires l1 <= m1 <= h1 && l2 <= m2 <= h2
    ensures l1 + l2 <= m1 + m2 <= h1 + h2
  {
  }

  lemma WeightedBetween(a: real, x: real, b: real, y: real, lo: real, hi: real)
    requires a > 0.0 && b >= 0.0 && lo <= x <= hi && lo <= y <= hi
    ensures lo <= Average(a, x, b, y) <= hi
  {
    WeightedSum(a, x, b, y, lo, hi);
    hide Product;
    var v := Product(a, x) + Product(b, y);
    DivideThrough(lo, a + b, v);
    DivideThroughAbove(hi, a + b, v);
  }

  lemma RoundedQuotient(v: real, w: real, m: real, h: real)
    requires w > 0.0 && -h <= m - v / w <= h
    ensures -(w * h) <= w * m - v <= w * h
  {
    var q := v / w;
    assert q * w == v;
    ScaleBetween(w, -h, m - q, h);
    assert w * (m - q) == w * m - w * q;
    assert w * (-h) == -(w * h);
  }

  /** Averaging keeps stock value within half of 10^-8 per unit held. */
  lemma AverageKeepsValue(oldQty: real, oldCost: real, q: real, c: real)
    requires oldQty > 0.0 && q >= 0.0
    ensures var newQty := oldQty + q; var mwa := ReceiptAverage(oldQty, Some(oldCost), q, c);
      -(newQty * HALF8) <= newQty * mwa - (oldQty * oldCost + q * c) <= newQty * HALF8
  {
    var v, w, avg := oldQty * oldCost + q * c, oldQty + q, Average(oldQty, oldCost, q, c);
    assert avg == v / w;
    var mwa := ReceiptAverage(oldQty, Some(oldCost), q, c);
    assert mwa == Fixed8(avg);
    hide *;
    Fixed8Near(avg);
    RoundedQuotient(v, w, mwa, HALF8);
  }

  /** The engine, which keeps every operation to 80 digits, stores the exactly rounded average. The
      quantities are base quantities before any column rounds them. */
  lemma EngineAverageIsExact(oldQty: real, oldCost: real, q: real, c: real)
    requires FitsBase(oldQty) && FitsBase(q) && FitsCost(oldCost) && FitsCost(c)
    requires oldQty > 0.0 && q >= 0.0 && oldCost >= 0.0 && c >= 0.0
    ensures Guard(oldQty + q) == oldQty + q
    ensures Fixed8(GuardedMean(oldQty, oldCost, q, c)) == ReceiptAverage(oldQty, Some(oldCost), q, c)
    ensures Fixed8(GuardedMean(oldQty, oldCost, q, c)) == RestockAverage(oldQty, Some(oldCost), q, c)
  {
    hide Fixed8, Guard, GuardedMean, Product, Quotient, FitsBase, FitsCost;
    GuardedMeanRoundsOnce(oldQty, oldCost, q, c);
  }

  /** What happens to one product's quantity and average. */
  datatype CostEvent =
    | Receipt(q: real, c: real)
    | Restock(q: real, c: real)
    | Movement(delta: real)
    | PurchasePosting(landed: real, finalValue: real, provisionalValue: real, toCogs: real)

  datatype CostState = CostState(qty: real, mwa: Option<real>)

  /** What a restock takes for the quantity before it: the new balance less the unrounded return. */
  function RestockedFrom(qty: real, q: real): real { qty + Fixed6(q) - q }

  /** The balance column adds each quantity rounded to scale 6; the averages take it unrounded. */
  function Step(s: CostState, e: CostEvent): CostState {
    match e
    case Receipt(q, c) => CostState(s.qty + Fixed6(q), Some(ReceiptAverage(s.qty, s.mwa, q, c)))
    case Restock(q, c) => CostState(s.qty + Fixed6(q), Some(RestockAverage(RestockedFrom(s.qty, q), s.mwa, q, c)))
    case Movement(d) => s.(qty := s.qty + d)
    case PurchasePosting(landed, f, p, g) =>
      var r := PostLine(f, p, g, s.qty, if s.mwa.Some? then s.mwa.value else landed);
      if r.Posted? then s.(mwa := Some(r.mwa)) else s
  }

  function Steps(s: CostState, es: seq<CostEvent>): CostState {
    if es == [] then s else Step(Steps(s, es[..|es| - 1]), es[|es| - 1])
  }

  predicate EventWithin(e: CostEvent, lo: real, hi: real) {
    match e
    case Receipt(q, c) => q > 0.0 && lo <= c <= hi
    case Restock(q, c) => q > 0.0 && lo <= c <= hi
    case Movement(_) => true
    case PurchasePosting(_, _, _, _) => false
  }

  /** What the readers guarantee of any event: quantities and costs are not negative. */
  predicate CostIsAmount(e: CostEvent) {
    match e
    case Receipt(q, c) => q > 0.0 && c >= 0.0
    case Restock(q, c) => q > 0.0 && c >= 0.0
    case Movement(_) => true
    case PurchasePosting(landed, _, _, _) => landed >= 0.0
  }

  /** The average stays within every range, at scale 8, that holds its start and the unit costs
      received or restocked since. */
  lemma {:induction false} AverageStaysInRange(s: CostState, es: seq<CostEvent>, lo: real, hi: real)
    requires At8(lo) && At8(hi)
    requires s.mwa.Some? ==> lo <= s.mwa.value <= hi
    requires forall i :: 0 <= i < |es| ==> EventWithin(es[i], lo, hi)
    ensures Steps(s, es).mwa.Some? ==> lo <= Steps(s, es).mwa.value <= hi
  {
    if es != [] {
      AverageStaysInRange(s, es[..|es| - 1], lo, hi);
      AverageStepInRange(Steps(s, es[..|es| - 1]), es[|es| - 1], lo, hi);
    }
  }

  lemma AverageStepInRange(p: CostState, e: CostEvent, lo: real, hi: real)
    requires At8(lo) && At8(hi) && (p.mwa.Some? ==> lo <= p.mwa.value <= hi) && EventWithin(e, lo, hi)
    ensures Step(p, e).mwa.Some? ==> lo <= Step(p, e).mwa.value <= hi
  {
    hide Fixed8, At8, Average, PostLine, RestockedFrom;
    if !e.Movement? && !e.PurchasePosting? {
      var qty := if e.Receipt? then p.qty else RestockedFrom(p.qty, e.q);
      if qty > 0.0 && p.mwa.Some? {
        WeightedBetween(qty, p.mwa.value, e.q, e.c, lo, hi);
        Fixed8Between(lo, Average(qty, p.mwa.value, e.q, e.c), hi);
      }
    }
  }

  lemma AverageNonNegative(a: real, x: real, b: real, y: real)
    requires a > 0.0 && b >= 0.0 && x >= 0.0 && y >= 0.0
    ensures Average(a, x, b, y) >= 0.0
  {
    hide Average;
    WeightedBetween(a, x, b, y, 0.0, Max(x, y));
  }

  /** Over every run, purchase postings included, the average is never negative. */
  lemma {:induction false} AverageNeverNegative(s: CostState, es: seq<CostEvent>)
    requires OrZero(s.mwa) >= 0.0
    requires forall i :: 0 <= i < |es| ==> CostIsAmount(es[i])
    ensures OrZero(Steps(s, es).mwa) >= 0.0
  {
    if es != [] {
      AverageNeverNegative(s, es[..|es| - 1]);
      StepNonNegative(Steps(s, es[..|es| - 1]), es[|es| - 1]);
    }
  }

  lemma StepNonNegative(p: CostState, e: CostEvent)
    requires OrZero(p.mwa) >= 0.0 && CostIsAmount(e)
    ensures OrZero(Step(p, e).mwa) >= 0.0
  {
    hide Fixed8, Average, PostLine, RestockedFrom;
    if e.PurchasePosting? {
      PostingConserves(e.finalValue, e.provisionalValue, e.toCogs, p.qty,
        if p.mwa.Some? then p.mwa.value else e.landed);
    } else if !e.Movement? && p.mwa.Some? {
      var qty := if e.Receipt? then p.qty else RestockedFrom(p.qty, e.q);
      if qty > 0.0 {
        AverageNonNegative(qty, p.mwa.value, e.q, e.c);
        Fixed8NonNegative(Average(qty, p.mwa.value, e.q, e.c));
      }
    }
  }

  // ------------------------------------------------------- corrections of COGS

  /** One replaced sale: what the receipt allocated to it and the costs that join it at posting. */
  datatype Replacement = Replacement(
    share: real, original: Option<real>, provisional: Option<real>, receiptUnit: Option<real>)

  function OrZero(c: Option<real>): real { if c.Some? then c.value else 0.0 }

  function Value(cost: real, quantity: real): real { cost * quantity }

  /** negative_stock_replacements.quantity, a NUMERIC(20,6) column. */
  function Quantity(r: Replacement): real { Fixed6(r.share) }

  /** The correction written at receipt, from the unrounded allocation, when a provisional cost was known. */
  function ProvisionalDelta(r: Replacement): real {
    if r.provisional.None? then 0.0 else Fixed8(Value(r.provisional.value - OrZero(r.original), r.share))
  }

  /** COALESCE(provisional.final_unit_cost, ti.cost_unit_snapshot). */
  function Baseline(r: Replacement): Option<real> { if r.provisional.Some? then r.provisional else r.original }

  /** The correction written at posting, from the stored quantity. */
  function FinalDelta(r: Replacement, landed: real): real {
    Fixed8(Value(if Baseline(r).None? then landed else landed - Baseline(r).value, Quantity(r)))
  }

  /** What the books hold for the replaced quantity in the end. */
  function RecordedCogs(r: Replacement, landed: real): real {
    Value(OrZero(r.original), Quantity(r)) + ProvisionalDelta(r) + FinalDelta(r, landed)
  }

  /** The provisional correction of the part of an allocation that its column rounded away. */
  function Drift(r: Replacement): real { Value(OrZero(Baseline(r)) - OrZero(r.original), r.share - Quantity(r)) }

  /** Original cost plus both corrections telescopes to landed cost times the stored quantity. */
  ghost predicate Telescopes(r: Replacement, landed: real) {
    -0.00000001 <= RecordedCogs(r, landed) - Value(landed, Quantity(r)) <= 0.00000001
  }

  /** The exact error, whichever of the two earlier costs is missing: two roundings and the drift. */
  lemma CorrectionsTelescope(r: Replacement, landed: real)
    ensures -0.00000001 <= RecordedCogs(r, landed) - Value(landed, Quantity(r)) - Drift(r) <= 0.00000001
    ensures At6(r.share) ==> Drift(r) == 0.0 && Telescopes(r, landed)
  {
    var o, b, q := OrZero(r.original), OrZero(Baseline(r)), Quantity(r);
    assert landed - 0.0 == landed;
    Fixed6Near(r.share);
    Telescope(o, b, landed, q, r.share);
    hide Fixed8, Value, Fixed6, At6;
    Fixed8Near(Value(b - o, r.share));
    Fixed8Near(Value(landed - b, q));
  }

  lemma Telescope(o: real, b: real, l: real, q: real, a: real)
    ensures Value(o, q) + Value(b - o, a) + Value(l - b, q) == Value(l, q) + Value(b - o, a - q)
    ensures o == b || a == q ==> Value(b - o, a - q) == 0.0
    ensures o == b ==> Value(b - o, a) == 0.0
  {
  }

  /** The telescoping holds for all costs if and only if the allocation is on the column's scale. */
  lemma TelescopesIffOnScale(a: real)
    ensures At6(a) <==> forall o: Option<real>, p: Option<real>, l: real :: Telescopes(Replacement(a, o, p, None), l)
  {
    if At6(a) {
      forall o: Option<real>, p: Option<real>, l: real ensures Telescopes(Replacement(a, o, p, None), l) {
        CorrectionsTelescope(Replacement(a, o, p, None), l);
      }
    } else {
      Fixed6Near(a);
      var gap := a - Fixed6(a);
      var p := 0.00000003 / gap;
      assert p * gap == 0.00000003;
      var r := Replacement(a, None, Some(p), None);
      assert Drift(r) == 0.00000003;
      hide RecordedCogs, Value, Fixed6, At6, Drift;
      CorrectionsTelescope(r, p);
      assert !Telescopes(Replacement(a, None, Some(p), None), p);
    }
  }

  /** One unit and a free third at a conversion of one half, all of it against a deficit: the
      corrections miss the landed value of the stored quantity by 0.0075. */
  lemma FreeThirdMisses(r: Replacement)
    requires r == Replacement(Product(1.0 + 0.333333, 0.5), None, Some(15000.0), None)
    ensures Quantity(r) == 0.666667 && !At6(r.share)
    ensures RecordedCogs(r, 15000.0) - Value(15000.0, Quantity(r)) == -0.0075
  {
    assert r.share == 0.6666665 && r.share * 1000000.0 == 666666.5;
    HalfUpNearest(r.share * 1000000.0, 666667);
    Fixed6Near(r.share);
    Exact8(9999.9975, 999999750000);
    Exact8(0.0, 0);
    hide Fixed8, Fixed6;
    assert Value(15000.0 - 0.0, r.share) == 9999.9975;
  }

  lemma Exact8(x: real, n: int)
    requires x * 100000000.0 == n as real
    ensures Fixed8(x) == x
  {
    IntegerOf(x * 100000000.0, n);
    Fixed8Near(x);
  }

  /** The part of the purchase's value correction that belongs to sold goods. */
  function CogsShare(rs: seq<Replacement>, landed: real): real {
    if rs == [] then 0.0
    else
      var r := rs[|rs| - 1];
      CogsShare(rs[..|rs| - 1], landed) + Value(landed - OrZero(r.receiptUnit), Quantity(r))
  }

  /** The loop of postPurchaseCommand over one line's replacements. */
  method PostReplacements(rs: seq<Replacement>, landed: real) returns (deltas: seq<real>, toCogs: real)
    ensures |deltas| == |rs| && forall i :: 0 <= i < |rs| ==> deltas[i] == FinalDelta(rs[i], landed)
    ensures toCogs == CogsShare(rs, landed)
  {
    deltas, toCogs := [], 0.0;
    for i := 0 to |rs|
      invariant |deltas| == i && forall k :: 0 <= k < i ==> deltas[k] == FinalDelta(rs[k], landed)
      invariant toCogs == CogsShare(rs[..i], landed)
    {
      assert rs[..i + 1][..i] == rs[..i];
      toCogs := toCogs + Value(landed - OrZero(rs[i].receiptUnit), Quantity(rs[i]));
      deltas := deltas + [FinalDelta(rs[i], landed)];
    }
    assert rs[..|rs|] == rs;
  }

  datatype Posting = Posted(mwa: real, inventoryDelta: real) | AllocationIncomplete | NegativeValue

  /** The end of one line's posting: the new average, or the error it stops with. */
  function PostLine(finalValue: real, provisionalValue: real, toCogs: real, qty: real, mwa: real): Posting {
    var delta := Fixed8(finalValue - provisionalValue - toCogs);
    if qty <= 0.0 && delta != 0.0 then AllocationIncomplete
    else if qty > 0.0 then
      var candidate := mwa + delta / qty;
      if candidate < 0.0 then NegativeValue else Posted(Fixed8(candidate), delta)
    else Posted(mwa, delta)
  }

  /** A posting never leaves a negative average, and splits the difference between landed and
      provisional value into COGS and inventory without losing more than a rounding. */
  lemma PostingConserves(finalValue: real, provisionalValue: real, toCogs: real, qty: real, mwa: real)
    requires mwa >= 0.0
    ensures var p := PostLine(finalValue, provisionalValue, toCogs, qty, mwa);
      && (p.Posted? ==> p.mwa >= 0.0)
      && (p.Posted? ==> -HALF8 <= provisionalValue + toCogs + p.inventoryDelta - finalValue <= HALF8)
  {
    var x := finalValue - provisionalValue - toCogs;
    Fixed8Near(x);
    if qty > 0.0 && mwa + Fixed8(x) / qty >= 0.0 { Fixed8NonNegative(mwa + Fixed8(x) / qty); }
  }

  /** When a line posts and to which average: what COGS does not take is spread over the stock held, and
      is refused without stock to take it or when it would leave a negative average. */
  lemma PostLineIff(finalValue: real, provisionalValue: real, toCogs: real, qty: real, mwa: real)
    ensures var p := PostLine(finalValue, provisionalValue, toCogs, qty, mwa);
      var left := Fixed8(finalValue - provisionalValue - toCogs);
      && (p.AllocationIncomplete? <==> qty <= 0.0 && left != 0.0)
      && (p.NegativeValue? <==> qty > 0.0 && mwa * qty + left < 0.0)
      && (p.Posted? ==> p.inventoryDelta == left)
      && (p.Posted? && qty <= 0.0 ==> p.mwa == mwa)
      && (p.Posted? && qty > 0.0 ==> At8(p.mwa) && -(qty * HALF8) <= p.mwa * qty - (mwa * qty + left) <= qty * HALF8)
  {
    hide Fixed8, At8;
    var left := Fixed8(finalValue - provisionalValue - toCogs);
    if qty > 0.0 {
      var x := mwa + left / qty;
      assert x * qty == mwa * qty + left by { SpreadOver(mwa, left, qty); }
      SignTimes(x, qty);
      Fixed8Near(x);
      ScaleBetween(qty, -HALF8, Fixed8(x) - x, HALF8);
      assert qty * (Fixed8(x) - x) == Fixed8(x) * qty - x * qty;
    }
  }

  lemma SpreadOver(mwa: real, left: real, qty: real)
    requires qty > 0.0
    ensures (mwa + left / qty) * qty == mwa * qty + left
  {
    assert left / qty * qty == left;
  }

  lemma SignTimes(x: real, qty: real)
    requires qty > 0.0
    ensures x < 0.0 <==> x * qty < 0.0
  {
  }

  // ------------------------------------------------------- events, in the rows

  /** What one event adds to the balance column. */
  function Added(e: CostEvent): real {
    match e
    case Receipt(q, _) => Fixed6(q)
    case Restock(q, _) => Fixed6(q)
    case Movement(delta) => delta
    case PurchasePosting(_, _, _, _) => 0.0
  }

  function AllAdded(es: seq<CostEvent>): real {
    if es == [] then 0.0 else AllAdded(es[..|es| - 1]) + Added(es[|es| - 1])
  }

  /** Over every run the balance is the sum of the stored quantities and deltas. */
  lemma {:induction false} QuantityIsSum(s: CostState, es: seq<CostEvent>)
    ensures Steps(s, es).qty == s.qty + AllAdded(es)
  {
    hide Fixed6, PostLine, ReceiptAverage, RestockAverage;
    if es != [] { QuantityIsSum(s, es[..|es| - 1]); }
  }

  /** A receipt or a restock into positive stock of known cost keeps its value: what was held at the old
      average plus what came at its cost, within half of 10^-8 for each unit. A restock takes for held
      what the balance column holds after it, less the unrounded return. */
  lemma ArrivalKeepsValue(s: CostState, e: CostEvent)
    requires (e.Receipt? || e.Restock?) && e.q > 0.0 && s.mwa.Some?
    requires var held := if e.Receipt? then s.qty else s.qty + Fixed6(e.q) - e.q; held > 0.0
    ensures var held := if e.Receipt? then s.qty else s.qty + Fixed6(e.q) - e.q;
      var after := Step(s, e);
      && after.mwa.Some?
      && var error := (held + e.q) * after.mwa.value - (held * s.mwa.value + e.q * e.c);
         -((held + e.q) * HALF8) <= error <= (held + e.q) * HALF8
  {
    var held := if e.Receipt? then s.qty else RestockedFrom(s.qty, e.q);
    AverageKeepsValue(held, s.mwa.value, e.q, e.c);
    assert Step(s, e).mwa == Some(ReceiptAverage(held, s.mwa, e.q, e.c)) by { hide Fixed8, Average, Fixed6; }
    hide ReceiptAverage, Step, Fixed6;
  }

  /** Without positive stock of known cost an arrival sets the average to its own cost, except that a
      receipt which leaves stock at or below zero keeps a known one. */
  lemma ArrivalSetsCost(s: CostState, e: CostEvent)
    requires e.Receipt? || e.Restock?
    requires var held := if e.Receipt? then s.qty else s.qty + Fixed6(e.q) - e.q; held <= 0.0 || s.mwa.None?
    ensures Step(s, e).mwa == if e.Receipt? && s.mwa.Some? && s.qty + e.q <= 0.0 then s.mwa else Some(e.c)
  {
    hide Fixed8, Average, Fixed6;
    AverageWithoutStock(if e.Receipt? then s.qty else RestockedFrom(s.qty, e.q), s.mwa, e.q, e.c);
  }

  /** A posting moves the average by what COGS does not take, spread over the stock held, and changes
      nothing when it is refused. */
  lemma PostingMovesAverage(s: CostState, e: CostEvent)
    requires e.PurchasePosting?
    ensures var before := if s.mwa.Some? then s.mwa.value else e.landed;
      var left, after := Fixed8(e.finalValue - e.provisionalValue - e.toCogs), Step(s, e);
      && after.qty == s.qty
      && (s.qty > 0.0 && before * s.qty + left >= 0.0 ==>
            after.mwa.Some? && -(s.qty * HALF8) <= after.mwa.value * s.qty - (before * s.qty + left) <= s.qty * HALF8)
      && (s.qty > 0.0 && before * s.qty + left < 0.0 ==> after == s)
      && (s.qty <= 0.0 ==> after.mwa == if left == 0.0 then Some(before) else s.mwa)
  {
    hide Fixed8, PostLine;
    PostLineIff(e.finalValue, e.provisionalValue, e.toCogs, s.qty, if s.mwa.Some? then s.mwa.value else e.landed);
  }

  // ------------------------------------------------------- the quantity basis

  /** A receipt of a purchase line: its unrounded base quantity and the ledger it found. */
  datatype LineReceipt = LineReceipt(quantity: real, ledger: seq<NegativeStock.Movement>)

  ghost predicate SoundReceipt(r: LineReceipt) { r.quantity >= 0.0 && StoredStock.LedgerAt6(r.ledger) }

  /** The stored replacements of one receipt. */
  function Replaced(r: LineReceipt): real {
    Sum(StoredStock.Stored(NegativeStock.Allocate(NegativeStock.OpenSales(r.ledger),
                                                    Min(r.quantity, NegativeStock.Deficit(r.ledger)))))
  }

  /** physical_base_qty, summed unrounded, less the stored replacements. */
  function QuantityBasis(rs: seq<LineReceipt>): real {
    if rs == [] then 0.0 else QuantityBasis(rs[..|rs| - 1]) + rs[|rs| - 1].quantity - Replaced(rs[|rs| - 1])
  }

  function OpenAt(r: LineReceipt): real { Sum(NegativeStock.OpenSales(r.ledger)) }

  /** What the stored receipts gained over their unrounded quantities. */
  function RoundingGain(rs: seq<LineReceipt>): real {
    if rs == [] then 0.0 else RoundingGain(rs[..|rs| - 1]) + (Fixed6(rs[|rs| - 1].quantity) - rs[|rs| - 1].quantity)
  }

  /** What the stored receipts left after serving the open sales they found. */
  function StoredLeft(rs: seq<LineReceipt>): real {
    if rs == [] then 0.0
    else StoredLeft(rs[..|rs| - 1]) + Max(0.0, Fixed6(rs[|rs| - 1].quantity) - OpenAt(rs[|rs| - 1]))
  }

  lemma ReplacedIs(r: LineReceipt)
    requires SoundReceipt(r)
    ensures Replaced(r) == Min(Fixed6(r.quantity), OpenAt(r))
  {
    hide *;
    ReplacedTerms(r);
    StoredStock.StoredSum(r.ledger, r.quantity);
  }

  lemma ReplacedTerms(r: LineReceipt)
    ensures Replaced(r) == Sum(StoredStock.Stored(NegativeStock.Allocate(NegativeStock.OpenSales(r.ledger),
                                                      Min(r.quantity, NegativeStock.Deficit(r.ledger)))))
    ensures OpenAt(r) == Sum(NegativeStock.OpenSales(r.ledger))
    ensures SoundReceipt(r) ==> r.quantity >= 0.0 && StoredStock.LedgerAt6(r.ledger)
  {
    hide Sum, StoredStock.Stored, NegativeStock.Allocate, NegativeStock.OpenSales;
  }

  /** What the receipt gave to each sale, before any column rounds it. */
  function Shares(r: LineReceipt): seq<real> {
    NegativeStock.Allocate(NegativeStock.OpenSales(r.ledger), Min(r.quantity, NegativeStock.Deficit(r.ledger)))
  }

  /** Every replacement of a receipt telescopes, for all costs, if and only if the receipt's base
      quantity (accepted + free) * conversion is on scale 6 or covers all open sales. */
  lemma ReceiptTelescopesIff(r: LineReceipt)
    requires SoundReceipt(r)
    ensures (forall k, o: Option<real>, p: Option<real>, l: real :: 0 <= k < |Shares(r)| ==>
               Telescopes(Replacement(Shares(r)[k], o, p, None), l))
       <==> At6(r.quantity) || r.quantity >= OpenAt(r)
  {
    var s := Shares(r);
    SharesScaleIff(r);
    hide *;
    if At6(r.quantity) || r.quantity >= OpenAt(r) {
      forall k, o: Option<real>, p: Option<real>, l: real | 0 <= k < |s|
        ensures Telescopes(Replacement(s[k], o, p, None), l) {
        TelescopesIffOnScale(s[k]);
      }
    } else {
      var k :| 0 <= k < |s| && !At6(s[k]);
      TelescopesIffOnScale(s[k]);
      var o: Option<real>, p: Option<real>, l: real :| !Telescopes(Replacement(s[k], o, p, None), l);
    }
  }

  lemma SharesScaleIff(r: LineReceipt)
    requires SoundReceipt(r)
    ensures (forall k :: 0 <= k < |Shares(r)| ==> At6(Shares(r)[k])) <==> At6(r.quantity) || r.quantity >= OpenAt(r)
  {
    var m, q := r.ledger, r.quantity;
    StoredStock.OpenScale(m);
    NegativeStock.NegativesNonNegative(m);
    NegativeStock.SumNonNegative(NegativeStock.NegativeSales(m));
    NegativeStock.TailSum(NegativeStock.NegativeSales(m), NegativeStock.Deficit(m));
    var o, d, y := NegativeStock.OpenSales(m), NegativeStock.Deficit(m), Min(q, NegativeStock.Deficit(m));
    assert OpenAt(r) == Sum(o) <= d && Shares(r) == NegativeStock.Allocate(o, y);
    assert (At6(y) || y >= Sum(o)) <==> At6(q) || q >= Sum(o);
    hide At6, NegativeStock.Allocate, NegativeStock.OpenSales, NegativeStock.Deficit, Sum;
    StoredStock.SharesOnScaleIff(o, y);
    assert StoredStock.AllAt6(Shares(r)) <==> At6(q) || q >= Sum(o);
  }

  /** The basis is what the stored receipts left less what their roundings gained. */
  lemma {:induction false} BasisIs(rs: seq<LineReceipt>)
    requires forall i :: 0 <= i < |rs| ==> SoundReceipt(rs[i])
    ensures QuantityBasis(rs) == StoredLeft(rs) - RoundingGain(rs)
    ensures StoredLeft(rs) >= 0.0 && RoundingGain(rs) <= |rs| as real * HALF6
  {
    if rs != [] {
      var r := rs[|rs| - 1];
      BasisIs(rs[..|rs| - 1]);
      ReplacedIs(r);
      Fixed6Near(r.quantity);
      hide Fixed6, Replaced, OpenAt, SoundReceipt;
    }
  }

  /** The basis is not negative if and only if the roundings of the line's receipts gained no more
      than their stored quantities left over; it is never below half a millionth per receipt, and
      never negative when every base quantity is on scale 6. */
  lemma BasisNonNegativeIff(rs: seq<LineReceipt>)
    requires forall i :: 0 <= i < |rs| ==> SoundReceipt(rs[i])
    ensures QuantityBasis(rs) >= 0.0 <==> RoundingGain(rs) <= StoredLeft(rs)
    ensures QuantityBasis(rs) >= -(|rs| as real * HALF6)
    ensures (forall i :: 0 <= i < |rs| ==> At6(rs[i].quantity)) ==> QuantityBasis(rs) >= 0.0
  {
    BasisIs(rs);
    if forall i :: 0 <= i < |rs| ==> At6(rs[i].quantity) { NothingGained(rs); }
  }

  lemma {:induction false} NothingGained(rs: seq<LineReceipt>)
    requires forall i :: 0 <= i < |rs| ==> At6(rs[i].quantity)
    ensures RoundingGain(rs) == 0.0
  {
    if rs != [] {
      NothingGained(rs[..|rs| - 1]);
      Fixed6Near(rs[|rs| - 1].quantity);
    }
  }

  /** For one receipt: negative exactly when it rounds up and meets more open sales than arrived. */
  lemma OneReceiptBasis(r: LineReceipt)
    requires SoundReceipt(r)
    ensures QuantityBasis([r]) < 0.0 <==> Fixed6(r.quantity) > r.quantity && OpenAt(r) > r.quantity
  {
    assert [r][..0] == [];
    ReplacedIs(r);
    hide Fixed6, Replaced, OpenAt, SoundReceipt;
  }

  /** The check on cost_events.quantity_basis refuses the posting exactly from half a millionth down. */
  lemma BasisRefusedIff(basis: real)
    ensures Fixed6(basis) < 0.0 <==> basis <= -0.0000005
  {
    HalfUpNearest(basis * 1000000.0, 0);
    Fixed6Near(0.0);
    if basis <= 0.0 { Fixed6Monotone(basis, 0.0); } else { Fixed6Monotone(0.0, basis); }
  }

  lemma OneOpenSale(m: seq<NegativeStock.Movement>)
    requires m == [NegativeStock.Movement(true, -1.0)]
    ensures StoredStock.LedgerAt6(m) && Sum(NegativeStock.OpenSales(m)) == 1.0
  {
    hide NegativeStock.Tail, Sum, NegativeStock.Balance, NegativeStock.NegativeSales;
    NegativeStock.EmptyLedger();
    NegativeStock.LedgerOne([], m[0]);
    assert [] + [m[0]] == m && [] + [1.0] == [1.0];
    IntegerOf(-1.0 * 1000000.0, -1000000);
    NegativeStock.TailOne([], 1.0, 1.0);
    NegativeStock.NoTail(0.0);
    NegativeStock.AppendShare([], 1.0, []);
  }

  /** The same free third against a deficit of one: the purchase cannot be posted. */
  lemma FreeThirdBlocksPosting(r: LineReceipt)
    requires r == LineReceipt(Product(1.0 + 0.333333, 0.5), [NegativeStock.Movement(true, -1.0)])
    ensures QuantityBasis([r]) == -0.0000005 && Fixed6(QuantityBasis([r])) < 0.0
  {
    OneOpenSale(r.ledger);
    assert r.quantity == 0.6666665 && r.quantity * 1000000.0 == 666666.5;
    HalfUpNearest(r.quantity * 1000000.0, 666667);
    assert Fixed6(r.quantity) == 0.666667;
    ReplacedIs(r);
    assert [r][..0] == [];
    hide Fixed6, Replaced;
    BasisRefusedIff(QuantityBasis([r]));
  }
}
