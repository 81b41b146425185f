/** Invoice capture and the allocation of landed value to the lines of a posted purchase. */
module Landed {
  import opened Decimals
  import opened FixedPoint

  datatype Line = Line(quantity: real, price: real, discount: real, tax: real)

  datatype Invoice = Invoice(
    lines: seq<Line>, charges: seq<real>,
    subtotal: real, itemDiscount: real, taxTotal: real, chargeTotal: real, globalDiscount: real, grandTotal: real)

  function Gross(l: Line): real { l.quantity * l.price }

  /** The allocation base of one line. */
  function Net(l: Line): real { Gross(l) - l.discount }

  function Map(ls: seq<Line>, f: Line -> real): (r: seq<real>)
    ensures |r| == |ls| && forall i :: 0 <= i < |ls| ==> r[i] == f(ls[i])
  {
    seq(|ls|, i requires 0 <= i < |ls| => f(ls[i]))
  }

  function Discount(l: Line): real { l.discount }

  function Tax(l: Line): real { l.tax }

  /** Sum of the unrounded line values after their own discounts. */
  function NetTotal(ls: seq<Line>): real { Sum(Map(ls, Net)) }

  datatype Code =
    | ValidationError
    | InvoiceItemDiscountInvalid
    | InvoiceSubtotalMismatch
    | InvoiceItemDiscountTotalMismatch
    | InvoiceTaxTotalMismatch
    | InvoiceChargeTotalMismatch
    | InvoiceGlobalDiscountInvalid
    | InvoiceTotalMismatch

  datatype Capture = Captured | Refused(code: Code)

  /** The checks of capturePurchaseInvoiceCommand, in order. */
  function CaptureInvoice(v: Invoice): Capture {
    var subtotal := Fixed4(Sum(Map(v.lines, Gross)));
    var discounts := Fixed4(Sum(Map(v.lines, Discount)));
    var taxes := Fixed4(Sum(Map(v.lines, Tax)));
    var charges := Fixed4(Sum(v.charges));
    if v.lines == [] then Refused(ValidationError)
    else if exists i :: 0 <= i < |v.lines| && v.lines[i].discount > Gross(v.lines[i]) then
      Refused(InvoiceItemDiscountInvalid)
    else if subtotal != v.subtotal then Refused(InvoiceSubtotalMismatch)
    else if discounts != v.itemDiscount then Refused(InvoiceItemDiscountTotalMismatch)
    else if taxes != v.taxTotal then Refused(InvoiceTaxTotalMismatch)
    else if charges != v.chargeTotal then Refused(InvoiceChargeTotalMismatch)
    else if v.globalDiscount > subtotal - discounts then Refused(InvoiceGlobalDiscountInvalid)
    else if Fixed4(subtotal - discounts - v.globalDiscount + (taxes + charges)) != v.grandTotal then
      Refused(InvoiceTotalMismatch)
    else Captured
  }

  /** Every amount passed the money reader: at four decimals and not negative. */
  ghost predicate MoneyAmounts(v: Invoice) {
    && (forall i :: 0 <= i < |v.lines| ==> MoneyLine(v.lines[i]))
    && (forall i :: 0 <= i < |v.charges| ==> At4(v.charges[i]) && v.charges[i] >= 0.0)
    && At4(v.globalDiscount) && v.globalDiscount >= 0.0
  }

  ghost predicate MoneyLine(l: Line) {
    At4(l.discount) && At4(l.tax) && l.discount >= 0.0 && l.tax >= 0.0
  }

  /** value * (base / total): the exact share of a global amount. */
  function Share(value: real, base: real, total: real): real
    requires total > 0.0
  {
    Product(value, Quotient(base, total))
  }

  /** finalValue of one line. */
  function LandedValue(v: Invoice, l: Line): real
    requires NetTotal(v.lines) > 0.0
  {
    var t := NetTotal(v.lines);
    Net(l) + l.tax - Share(v.globalDiscount, Net(l), t) + Share(v.chargeTotal, Net(l), t)
  }

  function LandedTotal(v: Invoice, ls: seq<Line>): real
    requires NetTotal(v.lines) > 0.0
  {
    if ls == [] then 0.0 else LandedTotal(v, ls[..|ls| - 1]) + LandedValue(v, ls[|ls| - 1])
  }

  // --------------------------------------------------------------- summation

  lemma MapFront(ls: seq<Line>, f: Line -> real)
    requires ls != []
    ensures Sum(Map(ls, f)) == Sum(Map(ls[..|ls| - 1], f)) + f(ls[|ls| - 1])
  {
    var m := Map(ls, f);
    assert m[..|m| - 1] == Map(ls[..|ls| - 1], f);
  }

  lemma {:induction false} SumAt4(s: seq<real>)
    requires forall i :: 0 <= i < |s| ==> At4(s[i])
    ensures At4(Sum(s)) && Fixed4(Sum(s)) == Sum(s)
  {
    hide At4, Fixed4;
    if s == [] {
      ZeroAtScale();
    } else {
      SumAt4(s[..|s| - 1]);
      At4Sum(Sum(s[..|s| - 1]), s[|s| - 1]);
    }
    Fixed4Near(Sum(s));
  }

  lemma {:induction false} NetIsGrossLessDiscount(ls: seq<Line>)
    ensures NetTotal(ls) == Sum(Map(ls, Gross)) - Sum(Map(ls, Discount))
  {
    if ls != [] {
      NetIsGrossLessDiscount(ls[..|ls| - 1]);
      MapFront(ls, Net); MapFront(ls, Gross); MapFront(ls, Discount);
    }
  }

  lemma ShareAdds(value: real, a: real, b: real, total: real)
    requires total > 0.0
    ensures Share(value, a, total) + Share(value, b, total) == Share(value, a + b, total)
  {
    var x, y := a / total, b / total;
    assert (a + b) / total == x + y;
    assert value * (x + y) == value * x + value * y;
  }

  lemma ShareOfAll(value: real, total: real)
    requires total > 0.0
    ensures Share(value, total, total) == value && Share(value, 0.0, total) == 0.0
  {
    assert total / total == 1.0 && 0.0 / total == 0.0;
  }

  lemma {:induction false} LandedPrefix(v: Invoice, ls: seq<Line>)
    requires NetTotal(v.lines) > 0.0
    ensures var t := NetTotal(v.lines);
      LandedTotal(v, ls) == NetTotal(ls) + Sum(Map(ls, Tax))
        - Share(v.globalDiscount, NetTotal(ls), t) + Share(v.chargeTotal, NetTotal(ls), t)
  {
    var t := NetTotal(v.lines);
    if ls == [] {
      ShareOfAll(v.globalDiscount, t); ShareOfAll(v.chargeTotal, t);
    } else {
      var front, last := ls[..|ls| - 1], ls[|ls| - 1];
      LandedPrefix(v, front);
      MapFront(ls, Net); MapFront(ls, Tax);
      hide Share;
      ShareAdds(v.globalDiscount, NetTotal(front), Net(last), t);
      ShareAdds(v.chargeTotal, NetTotal(front), Net(last), t);
    }
  }

  // ------------------------------------------------------------ main results

  /** A captured invoice's totals, freed of roundings that change nothing. */
  lemma CapturedTotals(v: Invoice)
    requires MoneyAmounts(v) && CaptureInvoice(v).Captured?
    ensures v.chargeTotal == Sum(v.charges)
    ensures v.grandTotal == Fixed4(Sum(Map(v.lines, Gross))) - Sum(Map(v.lines, Discount)) - v.globalDiscount
                            + Sum(Map(v.lines, Tax)) + Sum(v.charges)
  {
    hide At4, Fixed4, Sum;
    SumAt4(Map(v.lines, Discount)); SumAt4(Map(v.lines, Tax)); SumAt4(v.charges);
    var g := Fixed4(Sum(Map(v.lines, Gross)));
    Fixed4Near(Sum(Map(v.lines, Gross)));
    var d, t, c := Sum(Map(v.lines, Discount)), Sum(Map(v.lines, Tax)), Sum(v.charges);
    At4Sum(g, d); At4Sum(g - d, v.globalDiscount); At4Sum(t, c); At4Sum(g - d - v.globalDiscount, t + c);
    Fixed4Near(g - d - v.globalDiscount + (t + c));
  }

  /** An invoice is captured if and only if its totals are those of its lines and charges: the subtotal
      rounded once, everything else exact, no line discount above its line, and no global discount
      above what is left. */
  lemma CapturedIff(v: Invoice)
    requires MoneyAmounts(v)
    ensures CaptureInvoice(v).Captured? <==>
      && v.lines != [] && (forall i :: 0 <= i < |v.lines| ==> v.lines[i].discount <= Gross(v.lines[i]))
      && v.subtotal == Fixed4(Sum(Map(v.lines, Gross))) && v.itemDiscount == Sum(Map(v.lines, Discount))
      && v.taxTotal == Sum(Map(v.lines, Tax)) && v.chargeTotal == Sum(v.charges)
      && v.globalDiscount <= v.subtotal - v.itemDiscount
      && v.grandTotal == v.subtotal - v.itemDiscount - v.globalDiscount + v.taxTotal + v.chargeTotal
  {
    hide At4, Fixed4, Sum;
    SumAt4(Map(v.lines, Discount)); SumAt4(Map(v.lines, Tax)); SumAt4(v.charges);
    var g := Fixed4(Sum(Map(v.lines, Gross)));
    Fixed4Near(Sum(Map(v.lines, Gross)));
    var d, t, c := Sum(Map(v.lines, Discount)), Sum(Map(v.lines, Tax)), Sum(v.charges);
    At4Sum(g, d); At4Sum(g - d, v.globalDiscount); At4Sum(t, c); At4Sum(g - d - v.globalDiscount, t + c);
    Fixed4Near(g - d - v.globalDiscount + (t + c));
    hide Gross, Map;
  }

  /** A line's landed value is its own tax and, of everything else the invoice charges, the part its net
      value is of all net values. */
  lemma LandedIsProportional(v: Invoice, l: Line)
    requires NetTotal(v.lines) > 0.0
    ensures (LandedValue(v, l) - l.tax) * NetTotal(v.lines)
            == (l.quantity * l.price - l.discount) * (NetTotal(v.lines) - v.globalDiscount + v.chargeTotal)
  {
    var t, n, g, c := NetTotal(v.lines), Net(l), v.globalDiscount, v.chargeTotal;
    var r := Quotient(n, t);
    assert LandedValue(v, l) == n + l.tax - Product(g, r) + Product(c, r) by { hide NetTotal, Net, Product, Quotient; }
    assert r * t == n;
    LineArithmetic(t, n, g, c, r, 0.0);
    hide *;
    ProportionTerms(t, n, g, c);
  }

  lemma ProportionTerms(t: real, n: real, g: real, c: real)
    ensures 0.0 * t - n * (g - t - c) == n * (t - g + c)
  {
  }

  /** The landed values of a posted purchase sum to the captured grand total up to the one
      rounding of the subtotal. */
  lemma LandedSumsToGrandTotal(v: Invoice)
    requires MoneyAmounts(v) && CaptureInvoice(v).Captured? && NetTotal(v.lines) > 0.0
    ensures -HALF4 <= LandedTotal(v, v.lines) - v.grandTotal <= HALF4
  {
    CapturedTotals(v);
    LandedPrefix(v, v.lines);
    ShareOfAll(v.globalDiscount, NetTotal(v.lines));
    ShareOfAll(v.chargeTotal, NetTotal(v.lines));
    NetIsGrossLessDiscount(v.lines);
    hide Share, Fixed4, LandedTotal, NetTotal, CaptureInvoice;
    Fixed4Near(Sum(Map(v.lines, Gross)));
  }

  /** The sign of one line: negative exactly when the part of the global discount that neither
      the lines nor the charges cover outweighs its tax. */
  lemma LineNegativeIff(v: Invoice, l: Line)
    requires NetTotal(v.lines) > 0.0
    ensures LandedValue(v, l) < 0.0 <==>
            Net(l) * (v.globalDiscount - NetTotal(v.lines) - v.chargeTotal) > l.tax * NetTotal(v.lines)
  {
    var t, n, g, c := NetTotal(v.lines), Net(l), v.globalDiscount, v.chargeTotal;
    var r := Quotient(n, t);
    var value := n + l.tax - Product(g, r) + Product(c, r);
    assert LandedValue(v, l) == value by { hide NetTotal, Net, Product, Quotient; }
    assert r * t == n;
    LineArithmetic(t, n, g, c, r, l.tax);
    hide *;
    SignOfProduct(value, t);
  }

  lemma LineArithmetic(t: real, n: real, g: real, c: real, r: real, tax: real)
    requires r * t == n
    ensures (n + tax - Product(g, r) + Product(c, r)) * t == tax * t - n * (g - t - c)
  {
    assert g * r * t == g * n && c * r * t == c * n;
  }

  lemma SignOfProduct(x: real, t: real)
    requires t > 0.0
    ensures x < 0.0 <==> x * t < 0.0
  {
  }

  /** No line is negative when the global discount does not exceed the unrounded net value. */
  lemma LinesNonNegative(v: Invoice, l: Line)
    requires NetTotal(v.lines) > 0.0 && v.globalDiscount <= NetTotal(v.lines)
    requires Net(l) >= 0.0 && l.tax >= 0.0 && v.chargeTotal >= 0.0
    ensures LandedValue(v, l) >= 0.0
  {
    LineNegativeIff(v, l);
    var slack := v.globalDiscount - NetTotal(v.lines) - v.chargeTotal;
    assert Net(l) * slack <= 0.0;
    assert l.tax * NetTotal(v.lines) >= 0.0;
  }

  lemma OneLine(l: Line, f: Line -> real)
    ensures Sum(Map([l], f)) == f(l)
  {
    MapFront([l], f);
    assert [l][..0] == [];
  }

  lemma TwentiethOfCent()
    ensures Fixed4(0.00005) == 0.0001 && Fixed4(0.0) == 0.0
  {
    HalfUpNearest(0.0, 0);
    assert 0.00005 * 10000.0 == 0.5;
    assert HalfUp(0.5) == 1;
    assert 0.0 * 10000.0 == 0.0;
  }

  lemma OneLineCaptured(v: Invoice, l: Line, x: real)
    requires v.lines == [l] && v.charges == [] && l.discount == 0.0 && l.tax == 0.0 && Gross(l) == x > 0.0
    requires Fixed4(0.0) == 0.0 && Fixed4(x) == v.subtotal == v.globalDiscount
    requires v.itemDiscount == v.taxTotal == v.chargeTotal == v.grandTotal == 0.0
    ensures CaptureInvoice(v).Captured?
  {
    OneLine(l, Gross); OneLine(l, Discount); OneLine(l, Tax);
    assert Sum(v.charges) == 0.0;
    hide Sum, Map, Fixed4, Gross;
    assert Sum(Map(v.lines, Gross)) == x && Sum(Map(v.lines, Discount)) == 0.0 && Sum(Map(v.lines, Tax)) == 0.0;
  }

  /** Capture compares with the rounded subtotal, so it can admit an invoice that posting refuses:
      a millionth of a unit at 50, under a global discount of 0.0001. */
  lemma RoundedSubtotalAdmitsNegativeLine(l: Line, v: Invoice)
    requires l == Line(0.000001, 50.0, 0.0, 0.0) && v == Invoice([l], [], 0.0001, 0.0, 0.0, 0.0, 0.0001, 0.0)
    ensures CaptureInvoice(v).Captured? && NetTotal(v.lines) > 0.0 && LandedValue(v, l) < 0.0
  {
    assert Gross(l) == 0.00005 && Net(l) == 0.00005;
    TwentiethOfCent();
    hide Fixed4, CaptureInvoice;
    OneLineCaptured(v, l, 0.00005);
    OneLine(l, Net);
    hide Sum, Map, Share, Net, Gross;
    assert NetTotal(v.lines) == 0.00005;
    ShareOfAll(v.globalDiscount, NetTotal(v.lines)); ShareOfAll(v.chargeTotal, NetTotal(v.lines));
  }
}
