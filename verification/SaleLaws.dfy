/** The checks and the sums of a sale in the fields of its lines, at the POS and at the server. */
module SaleLaws {
  import opened FixedPoint
  import opened Wrappers
  import opened SaleMath

  // ---------------------------------------------------------------------- POS

  /** A cart line the POS commits. */
  predicate SoundLine(l: CartLine) {
    && FitsQuantity(l.quantity) && FitsFactor(l.conversion) && FitsQuantity(Product(l.quantity, l.conversion))
    && FitsMoney(l.unitPrice) && FitsMoney(l.basePrice) && FitsMoney(l.tierPrice) && FitsMoney(l.promotion)
    && FitsMoney(l.lineTotal)
    && l.quantity > 0.0 && l.conversion > 0.0 && l.unitPrice >= 0.0 && l.basePrice >= 0.0 && l.promotion >= 0.0
    && l.unitPrice == l.tierPrice - l.promotion && l.lineTotal == Product(l.unitPrice, l.quantity)
    && (l.tierMinimum.Some? ==>
          0.0 < l.tierMinimum.value <= l.quantity && FitsQuantity(l.tierMinimum.value))
    && (if l.promotionValue.Some? then l.promotionValue.value >= 0.0 && FitsMoney(l.promotionValue.value)
        else l.promotion == 0.0)
  }

  lemma LineAcceptedIff(l: CartLine)
    ensures LineError(l).None? <==> SoundLine(l)
  {
    hide FitsMoney, FitsQuantity, FitsFactor, Product;
  }

  /** What the committed aggregate records of each line of the cart, and its one payment. */
  lemma SaleRecordsCart(ls: seq<CartLine>, tendered: real, k: nat)
    requires k < |ls|
    ensures var s, l := SaleOf(ls, tendered), ls[k];
      && |s.items| == |ls| && |s.payments| == 1
      && s.items[k].quantity == l.quantity && s.items[k].conversion == l.conversion
      && s.items[k].baseQuantity == l.quantity * l.conversion && s.items[k].tracked == l.tracked
      && s.items[k].finalPrice == l.unitPrice && s.items[k].lineTotal == l.lineTotal
      && s.items[k].basePrice == l.basePrice && s.items[k].tierPrice == Some(l.tierPrice)
      && s.items[k].promotion == l.promotion && s.items[k].promotionValue == l.promotionValue
      && s.items[k].tierMinimum == l.tierMinimum
      && s.items[k].manualDiscount == 0.0 && s.items[k].allocation == 0.0 && s.items[k].tax == 0.0
      && s.items[k].taxMode == NoPpn
      && s.payments[0].tendered == Some(tendered) && s.payments[0].change == Some(s.change)
  {
    hide Subtotal, PromotionTotal, GrandTotal, StockOf;
  }

  // ------------------------------------------------------------------- server

  function SumOf(xs: seq<Item>, f: Item -> real): real {
    if xs == [] then 0.0 else SumOf(xs[..|xs| - 1], f) + f(xs[|xs| - 1])
  }

  function PaidBy(ps: seq<Payment>, f: Payment -> real): real {
    if ps == [] then 0.0 else PaidBy(ps[..|ps| - 1], f) + f(ps[|ps| - 1])
  }

  /** The unit price of an item before its discounts: the tier's, or the base price without one. */
  function ListPrice(i: Item): real { if i.tierPrice.Some? then i.tierPrice.value else i.basePrice }

  /** One line adds up: list price less promotion and manual discount per unit, less its part of the
      transaction discount, is the line total; only taxed lines carry tax. */
  predicate SoundItem(i: Item) {
    && i.lineTotal == (ListPrice(i) - i.promotion - i.manualDiscount) * i.quantity - i.allocation
    && i.lineTotal >= 0.0 && (i.taxMode == NoPpn ==> i.tax == 0.0)
  }

  function TaxOnTop(i: Item): real { if i.taxMode == TaxExcluded then i.tax else 0.0 }

  /** The sale adds up: six totals over its lines, and payments that settle it with their change. */
  ghost predicate SoundSale(s: Sale) {
    && (forall k :: 0 <= k < |s.items| ==> SoundItem(s.items[k]))
    && s.subtotal == SumOf(s.items, (i: Item) => ListPrice(i) * i.quantity)
    && s.promotionTotal == SumOf(s.items, (i: Item) => i.promotion * i.quantity)
    && s.lineDiscountTotal == SumOf(s.items, (i: Item) => i.manualDiscount * i.quantity)
    && s.transactionDiscountTotal == SumOf(s.items, (i: Item) => i.allocation)
    && s.taxTotal == SumOf(s.items, (i: Item) => i.tax)
    && s.grandTotal == SumOf(s.items, (i: Item) => i.lineTotal + TaxOnTop(i))
    && (forall k :: 0 <= k < |s.payments| ==> SoundPayment(s.payments[k]))
    && s.totalPaid == s.grandTotal == PaidBy(s.payments, (p: Payment) => p.amount)
    && s.change == PaidBy(s.payments, (p: Payment) => if p.change.Some? then p.change.value else 0.0)
  }

  predicate SoundPayment(p: Payment) {
    p.tendered.Some? && p.change.Some? && p.change.value >= 0.0 && p.amount + p.change.value == p.tendered.value
  }

  lemma ItemMath(i: Item)
    ensures LineMath(i).None? <==> SoundItem(i)
  {
    var t, p, m, q := ListPrice(i), i.promotion, i.manualDiscount, i.quantity;
    assert (t - p - m) * q == t * q - p * q - m * q;
    assert Product(t, q) == t * q && Product(p, q) == p * q && Product(m, q) == m * q;
    hide Product;
  }

  lemma {:induction false} TotalsAre(xs: seq<Item>)
    ensures SumItems(xs) == Totals(
      SumOf(xs, (i: Item) => ListPrice(i) * i.quantity), SumOf(xs, (i: Item) => i.promotion * i.quantity),
      SumOf(xs, (i: Item) => i.manualDiscount * i.quantity), SumOf(xs, (i: Item) => i.allocation),
      SumOf(xs, (i: Item) => i.tax), SumOf(xs, (i: Item) => i.lineTotal + TaxOnTop(i)))
  {
    if xs != [] { TotalsAre(xs[..|xs| - 1]); }
  }

  lemma {:induction false} PaymentsAre(ps: seq<Payment>)
    ensures PaidTotal(ps) == PaidBy(ps, (p: Payment) => p.amount)
    ensures ChangeTotal(ps) == PaidBy(ps, (p: Payment) => if p.change.Some? then p.change.value else 0.0)
  {
    if ps != [] { PaymentsAre(ps[..|ps| - 1]); }
  }

  /** The server's aggregate check accepts exactly the sales that add up, taxed and discounted ones
      included. */
  lemma AggregateIff(s: Sale)
    ensures AggregateHolds(s) <==> SoundSale(s)
  {
    TotalsAre(s.items);
    PaymentsAre(s.payments);
    hide LineMath, SoundItem, SumItems, SumOf, PaidTotal, ChangeTotal, PaidBy;
    forall k | 0 <= k < |s.items| ensures LineMath(s.items[k]).None? <==> SoundItem(s.items[k]) {
      ItemMath(s.items[k]);
    }
    assert forall k :: 0 <= k < |s.payments| ==> (Settled(s.payments[k]) <==> SoundPayment(s.payments[k]));
  }

  lemma {:induction false} LinesAddUp(xs: seq<Item>)
    requires forall k :: 0 <= k < |xs| ==> SoundItem(xs[k])
    ensures var t := SumItems(xs);
      t.grand == t.gross - t.promotion - t.manual - t.allocation + SumOf(xs, TaxOnTop)
  {
    if xs != [] {
      var i := xs[|xs| - 1];
      LinesAddUp(xs[..|xs| - 1]);
      ItemMath(i);
      hide SoundItem, Product;
    }
  }

  /** So every accepted sale conserves value: gross less all discounts plus the tax on top is what was
      paid, and the change is what was tendered beyond it. */
  lemma AcceptedSaleConserves(s: Sale)
    requires AggregateHolds(s)
    ensures s.totalPaid == s.subtotal - s.promotionTotal - s.lineDiscountTotal - s.transactionDiscountTotal
                           + SumOf(s.items, TaxOnTop)
    ensures PaidBy(s.payments, (p: Payment) => if p.tendered.Some? then p.tendered.value else 0.0)
            == s.totalPaid + s.change
  {
    AggregateIff(s);
    LinesAddUp(s.items);
    TenderedIs(s.payments);
    hide SoundItem, LineMath, SumItems, SumOf, PaidTotal, ChangeTotal, PaidBy;
  }

  lemma {:induction false} TenderedIs(ps: seq<Payment>)
    requires forall k :: 0 <= k < |ps| ==> Settled(ps[k])
    ensures PaidBy(ps, (p: Payment) => if p.tendered.Some? then p.tendered.value else 0.0)
            == PaidTotal(ps) + ChangeTotal(ps)
  {
    if ps != [] { TenderedIs(ps[..|ps| - 1]); }
  }

  predicate Amount(x: real) { FitsMoney(x) && x >= 0.0 }

  /** What the item reader accepts. */
  lemma ItemReadIff(i: Item)
    ensures ReadItem(i).None? <==>
      && FitsQuantity(i.quantity) && FitsFactor(i.conversion) && FitsQuantity(i.baseQuantity)
      && i.quantity > 0.0 && i.conversion > 0.0 && i.baseQuantity == Product(i.quantity, i.conversion)
      && Amount(i.finalPrice) && Amount(i.lineTotal) && Amount(i.basePrice) && Amount(i.promotion)
      && Amount(i.manualDiscount) && Amount(i.allocation) && Amount(i.tax)
      && i.lineTotal == Product(i.finalPrice, i.quantity)
      && (i.tierPrice.Some? ==> Amount(i.tierPrice.value))
      && (i.promotionValue.Some? ==> Amount(i.promotionValue.value))
      && (i.tierMinimum.Some? ==> FitsQuantity(i.tierMinimum.value) && i.tierMinimum.value > 0.0)
  {
    if i.quantity > 0.0 && i.conversion > 0.0 { PositiveProduct(i.quantity, i.conversion); }
    hide Product, FitsMoney, FitsQuantity, FitsFactor;
  }
}
