/** The arithmetic of a sale: what the POS commits and what the server accepts. */
module SaleMath {
  import opened FixedPoint
  import opened Wrappers

  // --------------------------------------------------------------------- POS

  datatype CartLine = CartLine(
    quantity: real, unitPrice: real, basePrice: real, tierPrice: real, promotion: real,
    tierMinimum: Option<real>, promotionValue: Option<real>, conversion: real, lineTotal: real, tracked: bool)

  datatype PosError =
    | EmptyCart
    | CartIntegrityInvalid
    | NumericBoundaryInvalid
    | UnitConversionInvalid
    | PaymentInsufficient

  /** The checks completeSale makes of one line, in order. */
  function LineError(l: CartLine): Option<PosError> {
    if l.quantity <= 0.0 then Some(CartIntegrityInvalid)
    else if !FitsQuantity(l.quantity) then Some(NumericBoundaryInvalid)
    else if l.unitPrice < 0.0 then Some(CartIntegrityInvalid)
    else if !FitsMoney(l.unitPrice) then Some(NumericBoundaryInvalid)
    else if l.basePrice < 0.0 || l.tierPrice < 0.0 || l.promotion < 0.0 || l.promotion > l.tierPrice
            || l.tierPrice - l.promotion != l.unitPrice then Some(CartIntegrityInvalid)
    else if !FitsMoney(l.basePrice) || !FitsMoney(l.tierPrice) || !FitsMoney(l.promotion) then
      Some(NumericBoundaryInvalid)
    else if l.tierMinimum.Some?
            && (l.tierMinimum.value <= 0.0 || l.tierMinimum.value > l.quantity || !FitsQuantity(l.tierMinimum.value))
    then Some(CartIntegrityInvalid)
    else if l.promotionValue.None? && l.promotion != 0.0 then Some(CartIntegrityInvalid)
    else if l.promotionValue.Some? && (l.promotionValue.value < 0.0 || !FitsMoney(l.promotionValue.value)) then
      Some(CartIntegrityInvalid)
    else if l.conversion <= 0.0 then Some(UnitConversionInvalid)
    else if !FitsFactor(l.conversion) then Some(NumericBoundaryInvalid)
    else if Product(l.unitPrice, l.quantity) != l.lineTotal then Some(CartIntegrityInvalid)
    else if !FitsMoney(l.lineTotal) then Some(NumericBoundaryInvalid)
    else if !FitsQuantity(Product(l.quantity, l.conversion)) then Some(NumericBoundaryInvalid)
    else None
  }

  function Subtotal(ls: seq<CartLine>): real {
    if ls == [] then 0.0 else Subtotal(ls[..|ls| - 1]) + Product(ls[|ls| - 1].tierPrice, ls[|ls| - 1].quantity)
  }

  function PromotionTotal(ls: seq<CartLine>): real {
    if ls == [] then 0.0 else PromotionTotal(ls[..|ls| - 1]) + Product(ls[|ls| - 1].promotion, ls[|ls| - 1].quantity)
  }

  function GrandTotal(ls: seq<CartLine>): real {
    if ls == [] then 0.0 else GrandTotal(ls[..|ls| - 1]) + ls[|ls| - 1].lineTotal
  }

  // ------------------------------------------------------------------ payload

  datatype TaxMode = NoPpn | TaxIncluded | TaxExcluded

  datatype Item = Item(
    quantity: real, conversion: real, baseQuantity: real, finalPrice: real, lineTotal: real,
    tierPrice: Option<real>, basePrice: real, promotion: real, manualDiscount: real, allocation: real,
    tierMinimum: Option<real>, promotionValue: Option<real>, taxMode: TaxMode, tax: real, tracked: bool)

  datatype Payment = Payment(amount: real, tendered: Option<real>, change: Option<real>)

  datatype Sale = Sale(
    items: seq<Item>, payments: seq<Payment>, cash: real, stock: seq<real>,
    subtotal: real, promotionTotal: real, lineDiscountTotal: real, transactionDiscountTotal: real, taxTotal: real,
    grandTotal: real, totalPaid: real, change: real)

  function ItemOf(l: CartLine): Item {
    Item(l.quantity, l.conversion, Product(l.quantity, l.conversion), l.unitPrice, l.lineTotal,
         Some(l.tierPrice), l.basePrice, l.promotion, 0.0, 0.0, l.tierMinimum, l.promotionValue, NoPpn, 0.0, l.tracked)
  }

  function ItemsOf(ls: seq<CartLine>): (r: seq<Item>)
    ensures |r| == |ls| && forall i :: 0 <= i < |ls| ==> r[i] == ItemOf(ls[i])
  {
    if ls == [] then [] else ItemsOf(ls[..|ls| - 1]) + [ItemOf(ls[|ls| - 1])]
  }

  /** The stock movements of a sale: one for every line that tracks inventory. */
  function StockOf(ls: seq<CartLine>): seq<real> {
    if ls == [] then []
    else
      var l := ls[|ls| - 1];
      StockOf(ls[..|ls| - 1]) + if l.tracked then [-Product(l.quantity, l.conversion)] else []
  }

  /** What the server's own loop moves for the items it stored. */
  function StockFrom(xs: seq<Item>): seq<real> {
    if xs == [] then []
    else StockFrom(xs[..|xs| - 1]) + if xs[|xs| - 1].tracked then [-xs[|xs| - 1].baseQuantity] else []
  }

  lemma {:induction false} StockMatchesItems(ls: seq<CartLine>)
    ensures StockOf(ls) == StockFrom(ItemsOf(ls))
  {
    if ls != [] {
      StockMatchesItems(ls[..|ls| - 1]);
      assert ItemsOf(ls)[..|ls| - 1] == ItemsOf(ls[..|ls| - 1]);
    }
  }

  /** The aggregate the POS writes to its tables and to the outbox. */
  function SaleOf(ls: seq<CartLine>, tendered: real): Sale {
    var grand := GrandTotal(ls);
    Sale(ItemsOf(ls), [Payment(grand, Some(tendered), Some(tendered - grand))], grand, StockOf(ls),
         Subtotal(ls), PromotionTotal(ls), 0.0, 0.0, 0.0, grand, grand, tendered - grand)
  }

  ghost predicate CommitsAtPos(ls: seq<CartLine>, tendered: real) {
    && ls != [] && (forall i :: 0 <= i < |ls| ==> LineError(ls[i]).None?)
    && FitsMoney(GrandTotal(ls)) && FitsMoney(tendered) && GrandTotal(ls) <= tendered
    && FitsMoney(tendered - GrandTotal(ls))
  }

  datatype Result = Committed(sale: Sale) | Refused(error: PosError)

  // -------------------------------------------------------------- line facts

  lemma LineFacts(l: CartLine)
    requires LineError(l).None?
    ensures l.lineTotal >= 0.0 && FitsMoney(l.lineTotal)
    ensures Product(l.promotion, l.quantity) >= 0.0
    ensures Product(l.tierPrice, l.quantity) - Product(l.promotion, l.quantity) == l.lineTotal
    ensures Product(l.quantity, l.conversion) > 0.0
  {
    hide FitsMoney, FitsQuantity, FitsFactor;
    ProductFacts(l.tierPrice, l.promotion, l.unitPrice, l.quantity);
    PositiveProduct(l.quantity, l.conversion);
  }

  lemma PositiveProduct(x: real, y: real)
    requires x > 0.0 && y > 0.0
    ensures Product(x, y) > 0.0
  {
  }

  lemma ProductFacts(t: real, p: real, u: real, q: real)
    requires u == t - p && p >= 0.0 && u >= 0.0 && q > 0.0
    ensures Product(t, q) - Product(p, q) == Product(u, q)
    ensures Product(p, q) >= 0.0 && Product(u, q) >= 0.0
  {
  }

  /** Line by line, subtotal less promotions is the grand total. */
  lemma {:induction false} TotalsConserve(ls: seq<CartLine>)
    requires forall i :: 0 <= i < |ls| ==> LineError(ls[i]).None?
    ensures Subtotal(ls) - PromotionTotal(ls) == GrandTotal(ls)
    ensures 0.0 <= PromotionTotal(ls) && 0.0 <= GrandTotal(ls) && At4(GrandTotal(ls))
  {
    hide LineError, FitsMoney, Product, At4;
    if ls == [] {
      ZeroAtScale();
    } else {
      var front, l := ls[..|ls| - 1], ls[|ls| - 1];
      TotalsConserve(front);
      LineFacts(l);
      FitsIsAt4(l.lineTotal);
      At4Sum(GrandTotal(front), l.lineTotal);
    }
  }

  lemma FitsIsAt4(x: real)
    requires FitsMoney(x)
    ensures At4(x)
  {
  }

  /** A grand total that fits fits at every step of the loop. */
  lemma {:induction false} PrefixFits(ls: seq<CartLine>, k: nat)
    requires k <= |ls| && forall i :: 0 <= i < |ls| ==> LineError(ls[i]).None?
    requires FitsMoney(GrandTotal(ls))
    ensures FitsMoney(GrandTotal(ls[..k]))
  {
    if k == |ls| {
      assert ls[..k] == ls;
    } else {
      var front := ls[..|ls| - 1];
      TotalsConserve(front);
      LineFacts(ls[|ls| - 1]);
      assert FitsMoney(GrandTotal(front)) by {
        hide At4, LineError, GrandTotal;
        assert GrandTotal(ls) == GrandTotal(front) + ls[|ls| - 1].lineTotal by { GrandStep(ls); }
      }
      PrefixFits(front, k);
      assert front[..k] == ls[..k];
    }
  }

  lemma GrandStep(ls: seq<CartLine>)
    requires ls != []
    ensures GrandTotal(ls) == GrandTotal(ls[..|ls| - 1]) + ls[|ls| - 1].lineTotal
  {
  }

  // ---------------------------------------------------------------- POS loop

  /** The validation of one cart line, check by check. */
  method CheckLine(l: CartLine) returns (e: Option<PosError>)
    ensures e == LineError(l)
  {
    if l.quantity <= 0.0 { return Some(CartIntegrityInvalid); }
    if !FitsQuantity(l.quantity) { return Some(NumericBoundaryInvalid); }
    if l.unitPrice < 0.0 { return Some(CartIntegrityInvalid); }
    if !FitsMoney(l.unitPrice) { return Some(NumericBoundaryInvalid); }
    if l.basePrice < 0.0 || l.tierPrice < 0.0 || l.promotion < 0.0 { return Some(CartIntegrityInvalid); }
    if l.promotion > l.tierPrice || l.tierPrice - l.promotion != l.unitPrice { return Some(CartIntegrityInvalid); }
    if !FitsMoney(l.basePrice) || !FitsMoney(l.tierPrice) || !FitsMoney(l.promotion) {
      return Some(NumericBoundaryInvalid);
    }
    if l.tierMinimum.Some? {
      var minimum := l.tierMinimum.value;
      if minimum <= 0.0 || minimum > l.quantity || !FitsQuantity(minimum) { return Some(CartIntegrityInvalid); }
    }
    if l.promotionValue.None? && l.promotion != 0.0 { return Some(CartIntegrityInvalid); }
    if l.promotionValue.Some? {
      var value := l.promotionValue.value;
      if value < 0.0 || !FitsMoney(value) { return Some(CartIntegrityInvalid); }
    }
    if l.conversion <= 0.0 { return Some(UnitConversionInvalid); }
    if !FitsFactor(l.conversion) { return Some(NumericBoundaryInvalid); }
    var expected := Product(l.unitPrice, l.quantity);
    if expected != l.lineTotal { return Some(CartIntegrityInvalid); }
    if !FitsMoney(expected) { return Some(NumericBoundaryInvalid); }
    if !FitsQuantity(Product(l.quantity, l.conversion)) { return Some(NumericBoundaryInvalid); }
    return None;
  }

  /** completeSale up to its transaction: validates, sums line by line, then settles. */
  method CompleteSale(lines: seq<CartLine>, tendered: real) returns (r: Result)
    ensures r.Committed? <==> CommitsAtPos(lines, tendered)
    ensures r.Committed? ==> r.sale == SaleOf(lines, tendered)
    ensures r == Refused(EmptyCart) <==> lines == []
    ensures r == Refused(PaymentInsufficient) <==>
      && lines != [] && (forall i :: 0 <= i < |lines| ==> LineError(lines[i]).None?)
      && FitsMoney(GrandTotal(lines)) && 0.0 <= tendered < GrandTotal(lines)
  {
    hide LineError, FitsMoney, Product, Subtotal, PromotionTotal, GrandTotal, ItemOf;
    if lines == [] { return Refused(EmptyCart); }
    NothingSummed(lines);
    var items: seq<Item>, stock: seq<real> := [], [];
    var subtotal, promotion, grand := 0.0, 0.0, 0.0;
    for k := 0 to |lines|
      invariant forall i :: 0 <= i < k ==> LineError(lines[i]).None?
      invariant subtotal == Subtotal(lines[..k]) && promotion == PromotionTotal(lines[..k])
      invariant grand == GrandTotal(lines[..k])
      invariant items == ItemsOf(lines[..k]) && stock == StockOf(lines[..k])
      invariant k > 0 ==> FitsMoney(grand)
    {
      var l := lines[k];
      var e := CheckLine(l);
      if e.Some? {
        LineCodes(l);
        return Refused(e.value);
      }
      LineSummed(lines, k);
      subtotal := subtotal + Product(l.tierPrice, l.quantity);
      promotion := promotion + Product(l.promotion, l.quantity);
      grand := grand + l.lineTotal;
      if !FitsMoney(grand) {
        RefusedPrefix(lines, k + 1, tendered);
        return Refused(NumericBoundaryInvalid);
      }
      items := items + [ItemOf(l)];
      stock := stock + if l.tracked then [-Product(l.quantity, l.conversion)] else [];
    }
    assert lines[..|lines|] == lines;
    TenderFits(lines, tendered);
    if tendered < 0.0 { return Refused(CartIntegrityInvalid); }
    if tendered < grand { return Refused(PaymentInsufficient); }
    if !FitsMoney(tendered) || !FitsMoney(tendered - grand) || !FitsMoney(grand) {
      return Refused(NumericBoundaryInvalid);
    }
    r := Committed(Sale(items, [Payment(grand, Some(tendered), Some(tendered - grand))], grand, stock,
                        subtotal, promotion, 0.0, 0.0, 0.0, grand, grand, tendered - grand));
  }

  lemma LineCodes(l: CartLine)
    ensures LineError(l).Some? ==> LineError(l).value != EmptyCart && LineError(l).value != PaymentInsufficient
  {
    hide FitsMoney, FitsQuantity, FitsFactor, Product;
  }

  lemma NothingSummed(lines: seq<CartLine>)
    ensures Subtotal(lines[..0]) == PromotionTotal(lines[..0]) == GrandTotal(lines[..0]) == 0.0
  {
  }

  /** One turn of the loop over the cart. */
  lemma LineSummed(lines: seq<CartLine>, k: nat)
    requires k < |lines|
    ensures Subtotal(lines[..k + 1]) == Subtotal(lines[..k]) + Product(lines[k].tierPrice, lines[k].quantity)
    ensures PromotionTotal(lines[..k + 1])
      == PromotionTotal(lines[..k]) + Product(lines[k].promotion, lines[k].quantity)
    ensures GrandTotal(lines[..k + 1]) == GrandTotal(lines[..k]) + lines[k].lineTotal
    ensures ItemsOf(lines[..k + 1]) == ItemsOf(lines[..k]) + [ItemOf(lines[k])]
    ensures StockOf(lines[..k + 1]) == StockOf(lines[..k])
      + if lines[k].tracked then [-Product(lines[k].quantity, lines[k].conversion)] else []
  {
    hide Product, ItemOf;
    assert lines[..k + 1][..k] == lines[..k];
  }

  lemma RefusedPrefix(lines: seq<CartLine>, k: nat, tendered: real)
    requires k <= |lines| && !FitsMoney(GrandTotal(lines[..k]))
    ensures !CommitsAtPos(lines, tendered)
    ensures (forall i :: 0 <= i < |lines| ==> LineError(lines[i]).None?) ==> !FitsMoney(GrandTotal(lines))
  {
    hide FitsMoney, LineError, GrandTotal;
    if (forall i :: 0 <= i < |lines| ==> LineError(lines[i]).None?) && FitsMoney(GrandTotal(lines)) {
      PrefixFits(lines, k);
    }
  }

  lemma TenderFits(lines: seq<CartLine>, tendered: real)
    requires forall i :: 0 <= i < |lines| ==> LineError(lines[i]).None?
    ensures GrandTotal(lines) >= 0.0
  {
    TotalsConserve(lines);
  }

  // ------------------------------------------------------------------ server

  datatype ServerError =
    | ValidationError | SaleUnitConversionInvalid | SaleCartIntegrityInvalid | SaleTaxIntegrityInvalid
    | CashSettlementInvalid | PaymentSettlementInvalid

  /** money: NUMERIC(20,4) and not negative. */
  predicate Money(x: real) { FitsMoney(x) && x >= 0.0 }

  predicate MoneyOrNull(x: Option<real>) { x.None? || Money(x.value) }

  /** The arithmetic checks of readItem. */
  function ReadItem(i: Item): Option<ServerError> {
    if !FitsQuantity(i.quantity) || i.quantity <= 0.0 || !FitsFactor(i.conversion) || i.conversion <= 0.0
       || !FitsQuantity(i.baseQuantity) || i.baseQuantity <= 0.0 then Some(ValidationError)
    else if Product(i.quantity, i.conversion) != i.baseQuantity then Some(SaleUnitConversionInvalid)
    else if !Money(i.finalPrice) || !Money(i.lineTotal) then Some(ValidationError)
    else if Product(i.finalPrice, i.quantity) != i.lineTotal then Some(SaleCartIntegrityInvalid)
    else if !MoneyOrNull(i.tierPrice) || !Money(i.basePrice) || !Money(i.promotion) || !Money(i.manualDiscount)
            || !Money(i.allocation)
            || !MoneyOrNull(i.promotionValue) || !Money(i.tax)
            || (i.tierMinimum.Some? && (!FitsQuantity(i.tierMinimum.value) || i.tierMinimum.value <= 0.0)) then
      Some(ValidationError)
    else None
  }

  /** money on every amount of the transaction and of its payments. */
  predicate ReadableAmounts(s: Sale) {
    && Money(s.subtotal) && Money(s.promotionTotal) && Money(s.lineDiscountTotal) && Money(s.transactionDiscountTotal)
    && Money(s.taxTotal) && Money(s.grandTotal) && Money(s.totalPaid) && Money(s.change)
    && s.items != [] && s.payments != []
    && forall i :: 0 <= i < |s.payments| ==>
         Money(s.payments[i].amount) && MoneyOrNull(s.payments[i].tendered) && MoneyOrNull(s.payments[i].change)
  }

  function TierOf(i: Item): real { if i.tierPrice.Some? then i.tierPrice.value else i.basePrice }

  function ExpectedLine(i: Item): real {
    Product(TierOf(i), i.quantity) - Product(i.promotion, i.quantity) - Product(i.manualDiscount, i.quantity)
      - i.allocation
  }

  function LineMath(i: Item): Option<ServerError> {
    if ExpectedLine(i) < 0.0 || ExpectedLine(i) != i.lineTotal then Some(SaleCartIntegrityInvalid)
    else if i.taxMode == NoPpn && i.tax != 0.0 then Some(SaleTaxIntegrityInvalid)
    else None
  }

  /** The six running totals of assertAggregateMath. */
  datatype Totals = Totals(gross: real, promotion: real, manual: real, allocation: real, tax: real, grand: real)

  function AddLine(t: Totals, i: Item): Totals {
    Totals(t.gross + Product(TierOf(i), i.quantity), t.promotion + Product(i.promotion, i.quantity),
           t.manual + Product(i.manualDiscount, i.quantity), t.allocation + i.allocation, t.tax + i.tax,
           t.grand + i.lineTotal + if i.taxMode == TaxExcluded then i.tax else 0.0)
  }

  function SumItems(xs: seq<Item>): Totals {
    if xs == [] then Totals(0.0, 0.0, 0.0, 0.0, 0.0, 0.0) else AddLine(SumItems(xs[..|xs| - 1]), xs[|xs| - 1])
  }

  predicate Settled(p: Payment) {
    p.tendered.Some? && p.change.Some? && p.tendered.value >= p.amount && p.tendered.value - p.amount == p.change.value
  }

  function PaidTotal(ps: seq<Payment>): real {
    if ps == [] then 0.0 else PaidTotal(ps[..|ps| - 1]) + ps[|ps| - 1].amount
  }

  function ChangeTotal(ps: seq<Payment>): real {
    if ps == [] then 0.0
    else ChangeTotal(ps[..|ps| - 1]) + (if ps[|ps| - 1].change.Some? then ps[|ps| - 1].change.value else 0.0)
  }

  ghost predicate AggregateHolds(s: Sale) {
    && (forall i :: 0 <= i < |s.items| ==> LineMath(s.items[i]).None?)
    && SumItems(s.items)
      == Totals(s.subtotal, s.promotionTotal, s.lineDiscountTotal, s.transactionDiscountTotal, s.taxTotal, s.grandTotal)
    && (forall i :: 0 <= i < |s.payments| ==> Settled(s.payments[i]))
    && PaidTotal(s.payments) == s.totalPaid && PaidTotal(s.payments) == s.grandTotal
    && ChangeTotal(s.payments) == s.change
  }

  /** assertAggregateMath. */
  method AssertAggregateMath(s: Sale) returns (r: Option<ServerError>)
    ensures r.None? <==> AggregateHolds(s)
  {
    var t := Totals(0.0, 0.0, 0.0, 0.0, 0.0, 0.0);
    for k := 0 to |s.items|
      invariant forall i :: 0 <= i < k ==> LineMath(s.items[i]).None?
      invariant t == SumItems(s.items[..k])
    {
      var e := LineMath(s.items[k]);
      if e.Some? { return e; }
      assert s.items[..k + 1][..k] == s.items[..k];
      hide LineMath, Product;
      t := AddLine(t, s.items[k]);
    }
    assert s.items[..|s.items|] == s.items;
    hide LineMath, SumItems;
    if t.gross != s.subtotal { return Some(SaleCartIntegrityInvalid); }
    if t !=
       Totals(s.subtotal, s.promotionTotal, s.lineDiscountTotal, s.transactionDiscountTotal, s.taxTotal, s.grandTotal) {
      return Some(SaleCartIntegrityInvalid);
    }
    var paid, change := 0.0, 0.0;
    for k := 0 to |s.payments|
      invariant forall i :: 0 <= i < k ==> Settled(s.payments[i])
      invariant paid == PaidTotal(s.payments[..k]) && change == ChangeTotal(s.payments[..k])
    {
      if !Settled(s.payments[k]) { return Some(CashSettlementInvalid); }
      assert s.payments[..k + 1][..k] == s.payments[..k];
      paid, change := paid + s.payments[k].amount, change + s.payments[k].change.value;
    }
    assert s.payments[..|s.payments|] == s.payments;
    if paid != s.totalPaid || paid != s.grandTotal { return Some(PaymentSettlementInvalid); }
    if change != s.change { return Some(CashSettlementInvalid); }
    return None;
  }

  ghost predicate AcceptedByServer(s: Sale) {
    ReadableAmounts(s) && (forall i :: 0 <= i < |s.items| ==> ReadItem(s.items[i]).None?) && AggregateHolds(s)
  }

  // ------------------------------------------------------------ main results

  lemma ItemPasses(l: CartLine)
    requires LineError(l).None?
    ensures ReadItem(ItemOf(l)).None? && LineMath(ItemOf(l)).None?
  {
    LineFacts(l);
    ZeroAtScale();
    assert Product(0.0, l.quantity) == 0.0;
    hide At4, At6, Product, FitsQuantity, FitsFactor, FitsMoney;
  }

  lemma {:induction false} ItemsSum(ls: seq<CartLine>)
    requires forall i :: 0 <= i < |ls| ==> LineError(ls[i]).None?
    ensures SumItems(ItemsOf(ls)) == Totals(Subtotal(ls), PromotionTotal(ls), 0.0, 0.0, 0.0, GrandTotal(ls))
  {
    hide LineError;
    if ls != [] {
      var front, l := ls[..|ls| - 1], ls[|ls| - 1];
      ItemsSum(front);
      assert ItemsOf(ls)[..|ls| - 1] == ItemsOf(front);
      assert Product(0.0, l.quantity) == 0.0;
      hide Product;
    }
  }

  lemma OnePayment(p: Payment)
    requires p.change.Some?
    ensures PaidTotal([p]) == p.amount && ChangeTotal([p]) == p.change.value
  {
    assert [p][..0] == [];
  }

  /** Every sale the POS commits passes the line arithmetic and the aggregate arithmetic. */
  lemma PosSalePassesMath(ls: seq<CartLine>, tendered: real)
    requires CommitsAtPos(ls, tendered)
    ensures var s := SaleOf(ls, tendered);
      AggregateHolds(s) && forall i :: 0 <= i < |s.items| ==> ReadItem(s.items[i]).None?
  {
    var s := SaleOf(ls, tendered);
    hide LineError, ReadItem, LineMath, FitsMoney, Subtotal, PromotionTotal, GrandTotal, SumItems;
    forall i | 0 <= i < |s.items| ensures ReadItem(s.items[i]).None? && LineMath(s.items[i]).None? {
      ItemPasses(ls[i]);
    }
    ItemsSum(ls);
    OnePayment(s.payments[0]);
  }

  /** The server accepts what the POS committed if and only if the subtotal fits NUMERIC(20,4),
      which the POS never checks; the promotion total then fits too. */
  lemma ServerAcceptsIffSubtotalFits(ls: seq<CartLine>, tendered: real)
    requires CommitsAtPos(ls, tendered)
    ensures AcceptedByServer(SaleOf(ls, tendered)) <==> FitsMoney(Subtotal(ls))
  {
    PosSalePassesMath(ls, tendered);
    TotalsConserve(ls);
    ZeroAtScale();
    hide At4, LineError, ReadItem, AggregateHolds, Subtotal, PromotionTotal, GrandTotal;
    if FitsMoney(Subtotal(ls)) { At4Sum(Subtotal(ls), GrandTotal(ls)); }
  }

  /** What a committed sale conserves: gross less promotions is the grand total, which is the
      payment, the cash movement and what is paid; the change is what was tendered beyond it. */
  lemma SaleConserves(ls: seq<CartLine>, tendered: real)
    requires CommitsAtPos(ls, tendered)
    ensures var s := SaleOf(ls, tendered);
      && s.subtotal - s.promotionTotal == s.grandTotal == s.totalPaid == s.cash == PaidTotal(s.payments)
      && s.cash + s.change == tendered && s.change >= 0.0
      && s.stock == StockFrom(s.items)
  {
    TotalsConserve(ls);
    StockMatchesItems(ls);
    OnePayment(SaleOf(ls, tendered).payments[0]);
  }

  /** A sale the POS commits and the server can never accept: half a unit at 0.0003 less 0.0001. */
  lemma RefusedForever()
    ensures var l := CartLine(0.5, 0.0002, 0.0003, 0.0003, 0.0001, None, Some(0.0001), 1.0, 0.0001, true);
      CommitsAtPos([l], 0.0001) && !AcceptedByServer(SaleOf([l], 0.0001))
  {
    var l := CartLine(0.5, 0.0002, 0.0003, 0.0003, 0.0001, None, Some(0.0001), 1.0, 0.0001, true);
    IntegerOf(0.5 * 1000000.0, 500000); IntegerOf(0.0001 * 10000.0, 1); IntegerOf(0.0002 * 10000.0, 2);
    IntegerOf(0.0003 * 10000.0, 3); IntegerOf(1.0 * 100000000.0, 100000000);
    ZeroAtScale();
    assert LineError(l).None?;
    OneLine(l);
    NotAtScale();
    hide LineError, AcceptedByServer, Subtotal, GrandTotal;
    ServerAcceptsIffSubtotalFits([l], 0.0001);
  }

  lemma OneLine(l: CartLine)
    ensures Subtotal([l]) == Product(l.tierPrice, l.quantity) && GrandTotal([l]) == l.lineTotal
  {
    assert [l][..0] == [];
    hide Product;
  }

  lemma NotAtScale()
    ensures !FitsMoney(0.00015)
  {
    assert (0.00015 * 10000.0).Floor == 1;
  }
}
