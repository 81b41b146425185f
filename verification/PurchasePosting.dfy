/** Posting a purchase: how the invoice's value ends up in COGS and in inventory. */
module PurchasePosting {
  import opened Decimals
  import opened FixedPoint
  import opened Wrappers
  import C = Costing
  import L = Landed
  import N = NegativeStock
  import StoredStock

  /** One receipt of a purchase line: its base quantity and the provisional cost it was valued at. */
  datatype Arrival = Arrival(quantity: real, provisional: Option<real>)

  /** An invoice line with its receipts and the sales they replaced. */
  datatype LineBooks = LineBooks(line: L.Line, arrivals: seq<Arrival>, replacements: seq<C.Replacement>)

  /** physical_base_qty. */
  function Physical(xs: seq<Arrival>): real {
    if xs == [] then 0.0 else Physical(xs[..|xs| - 1]) + xs[|xs| - 1].quantity
  }

  /** value_delta of one PROVISIONAL_COST event; a receipt without a cost writes none. */
  function ReceiptValue(a: Arrival): real {
    if a.provisional.None? then 0.0 else Fixed8(Product(a.quantity, a.provisional.value))
  }

  /** provisional_value: what the receipts put into inventory. */
  function ProvisionalValue(xs: seq<Arrival>): real {
    if xs == [] then 0.0 else ProvisionalValue(xs[..|xs| - 1]) + ReceiptValue(xs[|xs| - 1])
  }

  function LinesOf(bs: seq<LineBooks>): (r: seq<L.Line>)
    ensures |r| == |bs| && forall i :: 0 <= i < |bs| ==> r[i] == bs[i].line
  {
    if bs == [] then [] else LinesOf(bs[..|bs| - 1]) + [bs[|bs| - 1].line]
  }

  /** final_landed_cost_per_base_unit. */
  function LandedUnit(v: L.Invoice, b: LineBooks): real
    requires L.NetTotal(v.lines) > 0.0 && Physical(b.arrivals) > 0.0
  {
    Fixed8(Quotient(L.LandedValue(v, b.line), Physical(b.arrivals)))
  }

  function ToCogs(v: L.Invoice, b: LineBooks): real
    requires L.NetTotal(v.lines) > 0.0 && Physical(b.arrivals) > 0.0
  {
    C.CogsShare(b.replacements, LandedUnit(v, b))
  }

  /** value_delta of the COST_RECONCILIATION event. */
  function InventoryDelta(v: L.Invoice, b: LineBooks): real
    requires L.NetTotal(v.lines) > 0.0 && Physical(b.arrivals) > 0.0
  {
    Fixed8(L.LandedValue(v, b.line) - ProvisionalValue(b.arrivals) - ToCogs(v, b))
  }

  function ReplacedQuantity(rs: seq<C.Replacement>): real {
    if rs == [] then 0.0 else ReplacedQuantity(rs[..|rs| - 1]) + C.Quantity(rs[|rs| - 1])
  }

  /** inventoryQuantityBasis. */
  function Basis(b: LineBooks): real { Physical(b.arrivals) - ReplacedQuantity(b.replacements) }

  /** What the receipts had valued the replaced quantities at. */
  function ReplacedValue(rs: seq<C.Replacement>): real {
    if rs == [] then 0.0
    else ReplacedValue(rs[..|rs| - 1]) + C.Value(C.OrZero(rs[|rs| - 1].receiptUnit), C.Quantity(rs[|rs| - 1]))
  }

  /** The value of a line that stays in inventory: put in at receipt, less what was already sold,
      corrected at posting. */
  function InventoryLeft(v: L.Invoice, b: LineBooks): real
    requires L.NetTotal(v.lines) > 0.0 && Physical(b.arrivals) > 0.0
  {
    ProvisionalValue(b.arrivals) - ReplacedValue(b.replacements) + InventoryDelta(v, b)
  }

  /** What the books hold in the end for the replaced sales of a line. */
  function Cogs(rs: seq<C.Replacement>, landed: real): real {
    if rs == [] then 0.0 else Cogs(rs[..|rs| - 1], landed) + C.RecordedCogs(rs[|rs| - 1], landed)
  }

  function Drifts(rs: seq<C.Replacement>): real {
    if rs == [] then 0.0 else Drifts(rs[..|rs| - 1]) + C.Drift(rs[|rs| - 1])
  }

  ghost predicate Postable(v: L.Invoice, bs: seq<LineBooks>) {
    L.NetTotal(v.lines) > 0.0 && forall i :: 0 <= i < |bs| ==> Physical(bs[i].arrivals) > 0.0
  }

  /** COGS of the replaced sales and inventory left, over the lines of a purchase. */
  ghost function Booked(v: L.Invoice, bs: seq<LineBooks>): real
    requires Postable(v, bs)
  {
    if bs == [] then 0.0
    else
      var b := bs[|bs| - 1];
      Booked(v, bs[..|bs| - 1]) + Cogs(b.replacements, LandedUnit(v, b)) + InventoryLeft(v, b)
  }

  function AllDrifts(bs: seq<LineBooks>): real {
    if bs == [] then 0.0 else AllDrifts(bs[..|bs| - 1]) + Drifts(bs[|bs| - 1].replacements)
  }

  function ReplacementCount(bs: seq<LineBooks>): nat {
    if bs == [] then 0 else ReplacementCount(bs[..|bs| - 1]) + |bs[|bs| - 1].replacements|
  }

  // ---------------------------------------------------------------- one line

  /** Recorded COGS is what the posting charges to COGS plus what the receipts had valued it at. */
  lemma {:induction false} CogsIsShare(rs: seq<C.Replacement>, landed: real)
    ensures var gap := Cogs(rs, landed) - Drifts(rs) - C.CogsShare(rs, landed) - ReplacedValue(rs);
      -(|rs| as real * 0.00000001) <= gap <= |rs| as real * 0.00000001
  {
    if rs != [] {
      var r := rs[|rs| - 1];
      CogsIsShare(rs[..|rs| - 1], landed);
      ShareSplits(landed, C.OrZero(r.receiptUnit), C.Quantity(r));
      hide C.RecordedCogs, C.Drift, C.Value, C.Quantity;
      C.CorrectionsTelescope(r, landed);
    }
  }

  lemma ShareSplits(l: real, u: real, q: real)
    ensures C.Value(l - u, q) + C.Value(u, q) == C.Value(l, q)
  {
  }

  lemma LineConserves(v: L.Invoice, b: LineBooks)
    requires L.NetTotal(v.lines) > 0.0 && Physical(b.arrivals) > 0.0
    ensures
      var gap := Cogs(b.replacements, LandedUnit(v, b)) + InventoryLeft(v, b) - Drifts(b.replacements)
        - L.LandedValue(v, b.line);
      var bound := |b.replacements| as real * 0.00000001 + HALF8;
      -bound <= gap <= bound
  {
    hide Fixed8, LandedUnit, Cogs, Drifts, C.CogsShare, ReplacedValue, ProvisionalValue, L.LandedValue, Physical,
      L.NetTotal;
    CogsIsShare(b.replacements, LandedUnit(v, b));
    Fixed8Near(L.LandedValue(v, b.line) - ProvisionalValue(b.arrivals) - ToCogs(v, b));
  }

  /** What one receipt puts into inventory is its quantity at its provisional cost, rounded once, and
      nothing without a cost. */
  lemma ReceiptValueIs(a: Arrival)
    ensures a.provisional.None? ==> ReceiptValue(a) == 0.0
    ensures a.provisional.Some? ==> -HALF8 <= ReceiptValue(a) - Product(a.quantity, a.provisional.value) <= HALF8
  {
    if a.provisional.Some? { Fixed8Near(Product(a.quantity, a.provisional.value)); }
    hide Fixed8;
  }

  function ExactValue(xs: seq<Arrival>): real {
    if xs == [] then 0.0
    else
      var a := xs[|xs| - 1];
      ExactValue(xs[..|xs| - 1]) + if a.provisional.Some? then Product(a.quantity, a.provisional.value) else 0.0
  }

  lemma {:induction false} ProvisionalValueIs(xs: seq<Arrival>)
    ensures -(|xs| as real * HALF8) <= ProvisionalValue(xs) - ExactValue(xs) <= |xs| as real * HALF8
  {
    hide ReceiptValue, Product;
    if xs != [] {
      ProvisionalValueIs(xs[..|xs| - 1]);
      ReceiptValueIs(xs[|xs| - 1]);
      OneMoreRounding(|xs|);
    }
  }

  lemma OneMoreRounding(n: nat)
    requires n > 0
    ensures n as real * HALF8 == (n - 1) as real * HALF8 + HALF8
  {
  }

  /** The landed cost of a base unit spreads the line's landed value over everything received. */
  lemma LandedUnitIs(v: L.Invoice, b: LineBooks)
    requires L.NetTotal(v.lines) > 0.0 && Physical(b.arrivals) > 0.0
    ensures var p := Physical(b.arrivals);
      -(p * HALF8) <= LandedUnit(v, b) * p - L.LandedValue(v, b.line) <= p * HALF8
  {
    hide Fixed8, L.LandedValue, Physical, L.NetTotal;
    var p, value := Physical(b.arrivals), L.LandedValue(v, b.line);
    var x := Quotient(value, p);
    assert x * p == value;
    hide Quotient;
    Fixed8Near(x);
    C.ScaleBetween(p, -HALF8, Fixed8(x) - x, HALF8);
    assert p * (Fixed8(x) - x) == Fixed8(x) * p - x * p;
  }

  // --------------------------------------------------------- the quantity basis

  /** What the receipts of a line gave to each open sale they found, in order. */
  function SharesOf(rs: seq<C.LineReceipt>): seq<real> {
    if rs == [] then []
    else
      var r := rs[|rs| - 1];
      SharesOf(rs[..|rs| - 1]) + N.Allocate(N.OpenSales(r.ledger), Min(r.quantity, N.Deficit(r.ledger)))
  }

  /** The line's books come from these receipts. */
  ghost predicate BooksOf(b: LineBooks, rs: seq<C.LineReceipt>) {
    && |b.arrivals| == |rs| && (forall i :: 0 <= i < |rs| ==> b.arrivals[i].quantity == rs[i].quantity)
    && |b.replacements| == |SharesOf(rs)|
    && (forall k :: 0 <= k < |SharesOf(rs)| ==> b.replacements[k].share == SharesOf(rs)[k])
  }

  lemma {:induction false} PhysicalIs(xs: seq<Arrival>, rs: seq<C.LineReceipt>)
    requires |xs| == |rs| && forall i :: 0 <= i < |rs| ==> xs[i].quantity == rs[i].quantity
    ensures Physical(xs) - Sum(StoredStock.Stored(SharesOf(rs))) == C.QuantityBasis(rs)
  {
    if rs != [] {
      var front, r := rs[..|rs| - 1], rs[|rs| - 1];
      PhysicalIs(xs[..|xs| - 1], front);
      var given := N.Allocate(N.OpenSales(r.ledger), Min(r.quantity, N.Deficit(r.ledger)));
      StoredConcat(SharesOf(front), given);
      assert C.Replaced(r) == Sum(StoredStock.Stored(given));
      hide Fixed6, N.Allocate, N.OpenSales, N.Deficit, StoredStock.Stored, C.Replaced;
    }
  }

  lemma StoredConcat(a: seq<real>, b: seq<real>)
    ensures Sum(StoredStock.Stored(a + b)) == Sum(StoredStock.Stored(a)) + Sum(StoredStock.Stored(b))
  {
    hide Fixed6, Sum, StoredStock.Stored;
    var s, t, all := StoredStock.Stored(a), StoredStock.Stored(b), StoredStock.Stored(a + b);
    forall i | 0 <= i < |all| ensures all[i] == (s + t)[i] {
      assert (a + b)[i] == if i < |a| then a[i] else b[i - |a|];
    }
    assert all == s + t;
    SumConcat(s, t);
  }

  lemma {:induction false} SumConcat(a: seq<real>, b: seq<real>)
    ensures Sum(a + b) == Sum(a) + Sum(b)
  {
    if b == [] {
      assert a + b == a;
    } else {
      SumConcat(a, b[..|b| - 1]);
      assert (a + b)[..|a + b| - 1] == a + b[..|b| - 1];
    }
  }

  lemma {:induction false} ReplacedIsStored(rs: seq<C.Replacement>, shares: seq<real>)
    requires |rs| == |shares| && forall k :: 0 <= k < |rs| ==> rs[k].share == shares[k]
    ensures ReplacedQuantity(rs) == Sum(StoredStock.Stored(shares))
  {
    hide Fixed6;
    if rs != [] {
      ReplacedIsStored(rs[..|rs| - 1], shares[..|rs| - 1]);
      var s := StoredStock.Stored(shares);
      assert s[..|s| - 1] == StoredStock.Stored(shares[..|rs| - 1]);
    }
  }

  /** The basis a posting checks is that of the line's receipts, so what decides its sign there decides
      here whether the line posts. */
  lemma BasisIsOfReceipts(b: LineBooks, rs: seq<C.LineReceipt>)
    requires BooksOf(b, rs)
    ensures Basis(b) == C.QuantityBasis(rs)
  {
    PhysicalIs(b.arrivals, rs);
    ReplacedIsStored(b.replacements, SharesOf(rs));
  }

  // ------------------------------------------------------------- the purchase

  lemma {:induction false} LinesConserve(v: L.Invoice, bs: seq<LineBooks>)
    requires Postable(v, bs)
    ensures var gap := Booked(v, bs) - AllDrifts(bs) - L.LandedTotal(v, LinesOf(bs));
      var bound := ReplacementCount(bs) as real * 0.00000001 + |bs| as real * HALF8;
      -bound <= gap <= bound
  {
    hide LandedUnit, InventoryLeft, Cogs, Drifts, L.LandedValue, Physical, L.NetTotal;
    if bs != [] {
      var front, b := bs[..|bs| - 1], bs[|bs| - 1];
      LinesConserve(v, front);
      LineConserves(v, b);
      assert LinesOf(bs)[..|bs| - 1] == LinesOf(front);
    }
  }

  /** Per purchase: the recorded COGS of every replaced sale plus the inventory left on every line
      is the captured grand total, up to the subtotal's rounding, one rounding per line, two per
      replacement, and the drift of replacements that are not on their column's scale. */
  lemma PurchaseConserves(v: L.Invoice, bs: seq<LineBooks>)
    requires L.MoneyAmounts(v) && L.CaptureInvoice(v).Captured? && Postable(v, bs) && v.lines == LinesOf(bs)
    ensures var gap := Booked(v, bs) - AllDrifts(bs) - v.grandTotal;
      var bound := HALF4 + ReplacementCount(bs) as real * 0.00000001 + |bs| as real * HALF8;
      -bound <= gap <= bound
  {
    LinesConserve(v, bs);
    hide Booked, AllDrifts, L.LandedTotal, L.CaptureInvoice, L.NetTotal;
    L.LandedSumsToGrandTotal(v);
  }

  /** With every replacement on scale 6 there is no drift. */
  lemma {:induction false} NoDrift(bs: seq<LineBooks>)
    requires forall i, k :: 0 <= i < |bs| && 0 <= k < |bs[i].replacements| ==> At6(bs[i].replacements[k].share)
    ensures AllDrifts(bs) == 0.0
  {
    if bs != [] {
      NoDrift(bs[..|bs| - 1]);
      LineNoDrift(bs[|bs| - 1].replacements);
    }
  }

  lemma {:induction false} LineNoDrift(rs: seq<C.Replacement>)
    requires forall k :: 0 <= k < |rs| ==> At6(rs[k].share)
    ensures Drifts(rs) == 0.0
  {
    if rs != [] {
      LineNoDrift(rs[..|rs| - 1]);
      C.CorrectionsTelescope(rs[|rs| - 1], 0.0);
    }
  }

  // ----------------------------------------------------------------- the loop

  datatype PostCode =
    | AcceptedQuantityRequired | AllocationBaseInvalid | LandedCostNegative | AllocationIncomplete | NegativeValue
    | QuantityBasisNegative // the check on cost_events

  datatype PostOutcome = PurchasePosted(postings: seq<C.Posting>) | PostRefused(code: PostCode)

  /** The end of one line's posting against its locked balance and average. */
  function LinePosting(v: L.Invoice, b: LineBooks, st: C.CostState): C.Posting
    requires L.NetTotal(v.lines) > 0.0 && Physical(b.arrivals) > 0.0
  {
    C.PostLine(L.LandedValue(v, b.line), ProvisionalValue(b.arrivals), ToCogs(v, b), st.qty,
               if st.mwa.Some? then st.mwa.value else LandedUnit(v, b))
  }

  /** A line posts: its landed value, its new average and its quantity basis are not negative, and no
      value is left to correct without stock. */
  ghost predicate LinePosts(v: L.Invoice, b: LineBooks, st: C.CostState)
    requires L.NetTotal(v.lines) > 0.0 && Physical(b.arrivals) > 0.0
  {
    L.LandedValue(v, b.line) >= 0.0 && LinePosting(v, b, st).Posted? && Basis(b) > -HALF6
  }

  lemma PostedDelta(v: L.Invoice, b: LineBooks, st: C.CostState)
    requires L.NetTotal(v.lines) > 0.0 && Physical(b.arrivals) > 0.0 && LinePosting(v, b, st).Posted?
    ensures LinePosting(v, b, st).inventoryDelta == InventoryDelta(v, b)
  {
    hide Fixed8, L.LandedValue, ProvisionalValue, ToCogs, LandedUnit;
  }

  /** The line loop of postPurchaseCommand; stock holds the locked balance and average of each line. */
  method PostPurchase(v: L.Invoice, bs: seq<LineBooks>, stock: seq<C.CostState>) returns (r: PostOutcome)
    requires |stock| == |bs| && v.lines == LinesOf(bs)
    ensures r.PurchasePosted? <==> Postable(v, bs) && forall k :: 0 <= k < |bs| ==> LinePosts(v, bs[k], stock[k])
    ensures r.PurchasePosted? ==> |r.postings| == |bs| && forall k :: 0 <= k < |bs| ==>
      r.postings[k] == LinePosting(v, bs[k], stock[k]) && r.postings[k].inventoryDelta == InventoryDelta(v, bs[k])
    ensures r == PostRefused(AcceptedQuantityRequired) <==> exists k :: 0 <= k < |bs| && Physical(bs[k].arrivals) <= 0.0
  {
    hide Fixed8, Fixed6, L.NetTotal, L.LandedValue, Physical, ProvisionalValue, C.CogsShare, Basis, C.PostLine,
      InventoryDelta;
    for k := 0 to |bs|
      invariant forall i :: 0 <= i < k ==> Physical(bs[i].arrivals) > 0.0
    {
      if Physical(bs[k].arrivals) <= 0.0 { return PostRefused(AcceptedQuantityRequired); }
    }
    if L.NetTotal(v.lines) <= 0.0 { return PostRefused(AllocationBaseInvalid); }
    var postings: seq<C.Posting> := [];
    for k := 0 to |bs|
      invariant |postings| == k && Postable(v, bs)
      invariant forall i :: 0 <= i < k ==> LinePosts(v, bs[i], stock[i])
      invariant forall i :: 0 <= i < k ==>
        postings[i] == LinePosting(v, bs[i], stock[i]) && postings[i].inventoryDelta == InventoryDelta(v, bs[i])
    {
      var b := bs[k];
      var final := L.LandedValue(v, b.line);
      if final < 0.0 { return PostRefused(LandedCostNegative); }
      var landed := Fixed8(Quotient(final, Physical(b.arrivals)));
      var _, toCogs := C.PostReplacements(b.replacements, landed);
      var mwa := if stock[k].mwa.Some? then stock[k].mwa.value else landed;
      var p := C.PostLine(final, ProvisionalValue(b.arrivals), toCogs, stock[k].qty, mwa);
      assert p == LinePosting(v, b, stock[k]);
      if p.AllocationIncomplete? { return PostRefused(AllocationIncomplete); }
      if p.NegativeValue? { return PostRefused(NegativeValue); }
      C.BasisRefusedIff(Basis(b));
      if Fixed6(Basis(b)) < 0.0 { return PostRefused(QuantityBasisNegative); }
      PostedDelta(v, b, stock[k]);
      postings := postings + [p];
    }
    r := PurchasePosted(postings);
  }
}
