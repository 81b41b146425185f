/** The rounded split of one sold line's total over the returns made against it. */
module ReturnSplit {
  import opened Decimals
  import opened FixedPoint
  import opened Wrappers

  /** A sale item; the server only stores one whose total is price times quantity. */
  datatype SoldLine = SoldLine(quantity: real, price: real, total: real)

  datatype Returned = Returned(quantity: real, amount: real)

  datatype Resolution = QuantityConflict | Share(amount: real)

  predicate ValidLine(l: SoldLine) {
    && FitsQuantity(l.quantity) && l.quantity > 0.0
    && FitsMoney(l.price) && l.price >= 0.0
    && FitsMoney(l.total) && l.total == Worth(l, l.quantity)
  }

  predicate ValidRequest(q: real) { FitsQuantity(q) && q > 0.0 }

  /** The exact value of a quantity of the line. */
  function Worth(l: SoldLine, q: real): real { Product(l.price, q) }

  function Quantity(h: seq<Returned>): real { if h == [] then 0.0 else Quantity(h[..|h| - 1]) + h[|h| - 1].quantity }

  function Amount(h: seq<Returned>): real { if h == [] then 0.0 else Amount(h[..|h| - 1]) + h[|h| - 1].amount }

  /** The unrounded share of a partial return. */
  function ExactShare(l: SoldLine, q: real): real
    requires l.quantity > 0.0
  {
    Quotient(Product(l.total, q), l.quantity)
  }

  /** k half units of the fourth decimal. */
  function Slack(k: int): real { k as real * 0.00005 }

  /** resolveReturnItem: the completing return takes what is left, any other its rounded share. */
  function Resolve(l: SoldLine, h: seq<Returned>, q: real): Resolution
    requires l.quantity > 0.0
  {
    var total := Quantity(h) + q;
    if total > l.quantity then QuantityConflict
    else if total == l.quantity then Share(Fixed4(l.total - Amount(h)))
    else Share(Fixed4(ExactShare(l, q)))
  }

  ghost function GuardedShareOf(l: SoldLine, q: real): real
    requires l.quantity > 0.0
  {
    Guard(Quotient(Guard(Product(l.total, q)), l.quantity))
  }

  /** The same decision as the decimal engine takes it, every operation kept to 80 digits. */
  ghost function EngineResolve(l: SoldLine, h: seq<Returned>, q: real): Resolution
    requires l.quantity > 0.0
  {
    var total := Guard(Quantity(h) + q);
    if total > l.quantity then QuantityConflict
    else if total == l.quantity then Share(Fixed4(Guard(l.total - Amount(h))))
    else Share(Fixed4(GuardedShareOf(l, q)))
  }

  /** One return command against the line: stored unless it conflicts or breaks the
      refundable_amount check of the table. */
  function Post(l: SoldLine, h: seq<Returned>, q: real): seq<Returned>
    requires l.quantity > 0.0
  {
    var r := Resolve(l, h, q);
    if r.Share? && r.amount >= 0.0 then h + [Returned(q, r.amount)] else h
  }

  function PostAll(l: SoldLine, qs: seq<real>): seq<Returned>
    requires l.quantity > 0.0
  {
    if qs == [] then [] else Post(l, PostAll(l, qs[..|qs| - 1]), qs[|qs| - 1])
  }

  /** The stored sum is within one half unit of the fourth decimal per return of the exact share. */
  ghost predicate Near(l: SoldLine, h: seq<Returned>) {
    -Slack(|h|) <= Amount(h) - Worth(l, Quantity(h)) <= Slack(|h|)
  }

  ghost predicate SplitInv(l: SoldLine, h: seq<Returned>) {
    && At6(Quantity(h)) && At4(Amount(h))
    && |h| as real * 0.000001 <= Quantity(h) <= l.quantity
    && (Quantity(h) < l.quantity ==> Near(l, h))
    && (Quantity(h) == l.quantity ==> Amount(h) == l.total)
  }

  // ------------------------------------------------------------------- steps

  lemma Appended(h: seq<Returned>, q: real, a: real)
    ensures Quantity(h + [Returned(q, a)]) == Quantity(h) + q
    ensures Amount(h + [Returned(q, a)]) == Amount(h) + a
  {
    var g := h + [Returned(q, a)];
    assert g[..|g| - 1] == h;
  }

  lemma ShareIsWorth(l: SoldLine, q: real)
    requires l.quantity > 0.0 && l.total == Worth(l, l.quantity)
    ensures ExactShare(l, q) == Worth(l, q)
  {
    var w := Worth(l, q);
    assert w * l.quantity == l.total * q;
    DivideThrough(w, l.quantity, l.total * q);
  }

  lemma WorthAdds(l: SoldLine, p: real, q: real)
    ensures Worth(l, p + q) == Worth(l, p) + Worth(l, q)
  {
  }

  lemma SlackCount(k: int)
    ensures Slack(k + 1) == Slack(k) + 0.00005
    ensures (k + 1) as real * 0.000001 == k as real * 0.000001 + 0.000001
  {
  }

  lemma LineScales(l: SoldLine, q: real)
    requires ValidLine(l) && ValidRequest(q)
    ensures At6(q) && At4(l.total)
  {
  }

  lemma PostKeeps(l: SoldLine, h: seq<Returned>, q: real)
    requires ValidLine(l) && ValidRequest(q) && SplitInv(l, h)
    ensures SplitInv(l, Post(l, h, q))
  {
    hide At4, At6, Fixed4, ExactShare, Quantity, Amount, Worth, Slack, FitsMoney, FitsQuantity;
    var r := Resolve(l, h, q);
    LineScales(l, q);
    if r.Share? && r.amount >= 0.0 {
      Appended(h, q, r.amount);
      At6Sum(Quantity(h), q); At4Sum(l.total, Amount(h));
      SmallestQuantity(q); SlackCount(|h|);
      ShareIsWorth(l, q); WorthAdds(l, Quantity(h), q);
      Fixed4Near(l.total - Amount(h)); Fixed4Near(Worth(l, q));
      At4Sum(Amount(h), r.amount);
    }
  }

  /** After any requests: no more is returned than was sold, the partial sums track the exact
      share, and a completed line has refunded exactly its total. */
  lemma {:induction false} SplitHolds(l: SoldLine, qs: seq<real>)
    requires ValidLine(l) && forall i :: 0 <= i < |qs| ==> ValidRequest(qs[i])
    ensures SplitInv(l, PostAll(l, qs))
  {
    if qs == [] {
      ZeroAtScale();
    } else {
      SplitHolds(l, qs[..|qs| - 1]);
      PostKeeps(l, PostAll(l, qs[..|qs| - 1]), qs[|qs| - 1]);
    }
  }

  // ------------------------------------------------- exactness of the engine

  lemma WorthAtMost(l: SoldLine, q: real)
    requires l.price >= 0.0 && 0.0 <= q <= l.quantity
    ensures 0.0 <= Worth(l, q) <= Worth(l, l.quantity)
  {
    assert l.price * (l.quantity - q) >= 0.0;
  }

  lemma AmountBound(l: SoldLine, h: seq<Returned>)
    requires ValidLine(l) && SplitInv(l, h)
    ensures -100000000000000000000.0 < Amount(h) < 100000000000000000000.0
  {
    hide At4, At6, Quantity, Amount, Worth;
    WorthAtMost(l, Quantity(h));
    assert |h| as real <= 100000000000000000000.0;
  }

  /** A sum below forty integer digits, at either column scale. */
  lemma GuardSum(x: real, y: real)
    requires -100000000000000000000.0 < x < 100000000000000000000.0
    requires -100000000000000000000.0 < y < 100000000000000000000.0
    ensures At6(x) && At6(y) ==> Guard(x + y) == x + y
    ensures At4(x) && At4(y) ==> Guard(x - y) == x - y
  {
    hide At4, At6, Guard;
    if At6(x) && At6(y) { At6Sum(x, y); GuardAt6(x + y); }
    if At4(x) && At4(y) { At4Sum(x, y); GuardAt4(x - y); }
  }

  /** Keeping every operation to 80 significant digits never changes a share. */
  lemma EngineIsExact(l: SoldLine, h: seq<Returned>, q: real)
    requires ValidLine(l) && ValidRequest(q) && SplitInv(l, h)
    ensures EngineResolve(l, h, q) == Resolve(l, h, q)
  {
    hide At4, At6, Guard, Quantity, Amount, Fixed4, Worth, Near, Slack, ExactShare, GuardedShareOf;
    AmountBound(l, h);
    GuardSum(Quantity(h), q);
    GuardSum(l.total, Amount(h));
    EngineShare(l, q);
  }

  lemma EngineShare(l: SoldLine, q: real)
    requires ValidLine(l) && ValidRequest(q)
    ensures Fixed4(GuardedShareOf(l, q)) == Fixed4(ExactShare(l, q))
  {
    LineFits(l, q);
    hide Fixed4, Guard, Product, Quotient, ValidLine, ValidRequest, FitsMoney, FitsQuantity;
    GuardedShare(l.total, q, l.quantity);
  }

  lemma LineFits(l: SoldLine, q: real)
    requires ValidLine(l) && ValidRequest(q)
    ensures FitsMoney(l.total) && FitsQuantity(q) && FitsQuantity(l.quantity)
    ensures l.total >= 0.0 && q >= 0.0 && l.quantity > 0.0
  {
    hide At4, At6, Worth;
    WorthAtMost(l, l.quantity);
  }

  // -------------------------------------------------------- completing return

  /** The completing share is negative exactly when the partial shares already exceed the total. */
  lemma CompletingNegativeIff(l: SoldLine, h: seq<Returned>, q: real)
    requires ValidLine(l) && SplitInv(l, h) && Quantity(h) + q == l.quantity
    ensures Resolve(l, h, q).Share?
    ensures Resolve(l, h, q).amount < 0.0 <==> Amount(h) > l.total
  {
    At4Sum(l.total, Amount(h));
    hide At4;
    Fixed4Near(l.total - Amount(h));
  }

  /** It is accepted whenever what is left is worth the roundings so far. */
  lemma CompletingAccepted(l: SoldLine, h: seq<Returned>, q: real)
    requires ValidLine(l) && SplitInv(l, h) && Quantity(h) + q == l.quantity && q > 0.0
    requires Slack(|h|) <= Worth(l, q)
    ensures Post(l, h, q) == h + [Returned(q, l.total - Amount(h))]
  {
    hide At4, At6, FitsQuantity, FitsMoney, Quantity, Amount, Worth, Slack, SplitInv, Post;
    RoomLeft(l, h, q);
    PostCompletes(l, h, q);
  }

  lemma PostCompletes(l: SoldLine, h: seq<Returned>, q: real)
    requires l.quantity > 0.0 && Quantity(h) + q == l.quantity
    requires Amount(h) <= l.total && At4(l.total - Amount(h))
    ensures Post(l, h, q) == h + [Returned(q, l.total - Amount(h))]
  {
    hide At4, Fixed4, ExactShare, Quantity, Amount;
    Fixed4Near(l.total - Amount(h));
  }

  lemma RoomLeft(l: SoldLine, h: seq<Returned>, q: real)
    requires ValidLine(l) && SplitInv(l, h) && Quantity(h) + q == l.quantity && q > 0.0
    requires Slack(|h|) <= Worth(l, q)
    ensures Amount(h) <= l.total && At4(l.total - Amount(h))
  {
    hide At4, At6, Quantity, Amount, Worth, Slack, FitsQuantity;
    WorthAdds(l, Quantity(h), q);
    At4Sum(l.total, Amount(h));
  }

  /** What a return stores. One beyond the sold quantity changes nothing. One that does not complete the
      line is stored at its price rounded to four decimals. The completing one is stored at what is left
      of the total, unless the earlier shares exceed it. */
  lemma ReturnStores(l: SoldLine, h: seq<Returned>, q: real)
    requires ValidLine(l) && ValidRequest(q) && SplitInv(l, h)
    ensures var after, total := Post(l, h, q), Quantity(h) + q;
      && (total > l.quantity ==> after == h)
      && (total < l.quantity ==>
            |after| == |h| + 1 && after[..|h|] == h && after[|h|].quantity == q && At4(after[|h|].amount)
            && after[|h|].amount >= 0.0 && -HALF4 <= after[|h|].amount - Worth(l, q) <= HALF4)
      && (total == l.quantity ==>
            after == if Amount(h) <= l.total then h + [Returned(q, l.total - Amount(h))] else h)
  {
    hide At4, At6, Fixed4, ExactShare, Quantity, Amount, Slack, FitsQuantity, FitsMoney;
    ShareIsWorth(l, q);
    assert Worth(l, q) >= 0.0;
    hide Worth;
    Fixed4NonNegative(Worth(l, q));
    Fixed4Near(Worth(l, q));
    LineScales(l, q);
    At4Sum(l.total, Amount(h));
    Fixed4Near(l.total - Amount(h));
  }

  lemma Fixed4NonNegative(x: real)
    requires x >= 0.0
    ensures Fixed4(x) >= 0.0
  {
    HalfUpMonotone(0.0, x * 10000.0);
    HalfUpNearest(0.0, 0);
  }

  /** The history after further requests. */
  function PostMore(l: SoldLine, h: seq<Returned>, qs: seq<real>): seq<Returned>
    requires l.quantity > 0.0
  {
    if qs == [] then h else Post(l, PostMore(l, h, qs[..|qs| - 1]), qs[|qs| - 1])
  }

  /** Once the partial shares exceed the line total, no sequence of requests ever returns the rest. */
  lemma {:induction false} NeverCompletes(l: SoldLine, h: seq<Returned>, qs: seq<real>)
    requires ValidLine(l) && SplitInv(l, h) && Amount(h) > l.total
    requires forall i :: 0 <= i < |qs| ==> ValidRequest(qs[i])
    ensures var g := PostMore(l, h, qs); SplitInv(l, g) && Amount(g) > l.total && Quantity(g) < l.quantity
  {
    hide At4, At6, Fixed4, ExactShare, Quantity, Amount, Worth, Slack, FitsMoney, FitsQuantity, ValidLine, Post;
    if qs != [] {
      NeverCompletes(l, h, qs[..|qs| - 1]);
      var g := PostMore(l, h, qs[..|qs| - 1]);
      PostKeeps(l, g, qs[|qs| - 1]);
      PostOnlyAdds(l, g, qs[|qs| - 1]);
    }
  }

  lemma PostOnlyAdds(l: SoldLine, h: seq<Returned>, q: real)
    requires l.quantity > 0.0
    ensures Amount(Post(l, h, q)) >= Amount(h)
  {
    hide Fixed4, ExactShare, Quantity, Amount;
    var r := Resolve(l, h, q);
    if r.Share? { Appended(h, q, r.amount); }
  }

  lemma Fixed4Of(x: real, n: int)
    requires x >= 0.0 && n as real - 0.5 <= x * 10000.0 < n as real + 0.5
    ensures Fixed4(x) == n as real / 10000.0
  {
    HalfUpNearest(x * 10000.0, n);
  }

  /** Two units at 0.0001 returned by halves: the third half already uses up more than the total, so
      the last half is refused and by NeverCompletes no split of it completes the line. */
  lemma LastHalfIsRefused()
    ensures var l := SoldLine(2.0, 0.0001, 0.0002);
      var h := PostAll(l, [0.5, 0.5, 0.5]);
      && ValidLine(l)
      && Quantity(h) == 1.5 && Amount(h) == 0.0003 > l.total && SplitInv(l, h)
      && Post(l, h, 0.5) == h && Resolve(l, h, 0.5).Share?
  {
    hide *;
    var l, r := SoldLine(2.0, 0.0001, 0.0002), Returned(0.5, 0.0001);
    HalfPriced(l);
    Appended([], 0.5, 0.0001); Appended([r], 0.5, 0.0001); Appended([r, r], 0.5, 0.0001);
    assert [] + [r] == [r] && [r] + [r] == [r, r] && [r, r] + [r] == [r, r, r];
    EmptyHistory();
    PostedHalf(l, []); PostedHalf(l, [r]); PostedHalf(l, [r, r]);
    HalfByHalf(l);
    RefusedHalf(l, [r, r, r]);
    ValidHalves([0.5, 0.5, 0.5]);
    SplitHolds(l, [0.5, 0.5, 0.5]);
  }

  lemma HalfPriced(l: SoldLine)
    requires l == SoldLine(2.0, 0.0001, 0.0002)
    ensures ValidLine(l) && ExactShare(l, 0.5) == 0.00005 && Fixed4(0.00005) == 0.0001
  {
    hide Fixed4;
    IntegerOf(2.0 * 1000000.0, 2000000); IntegerOf(0.0001 * 10000.0, 1); IntegerOf(0.0002 * 10000.0, 2);
    Fixed4Of(0.00005, 1);
  }

  lemma EmptyHistory()
    ensures Quantity([]) == 0.0 && Amount([]) == 0.0
  {
  }

  lemma ValidHalves(qs: seq<real>)
    requires forall i :: 0 <= i < |qs| ==> qs[i] == 0.5
    ensures forall i :: 0 <= i < |qs| ==> ValidRequest(qs[i])
  {
    IntegerOf(0.5 * 1000000.0, 500000);
  }

  lemma PostedHalf(l: SoldLine, h: seq<Returned>)
    requires l.quantity == 2.0 && ExactShare(l, 0.5) == 0.00005 && Fixed4(0.00005) == 0.0001
    requires Quantity(h) <= 1.0
    ensures Post(l, h, 0.5) == h + [Returned(0.5, 0.0001)]
  {
    hide Fixed4, ExactShare, Quantity, Amount;
  }

  lemma HalfByHalf(l: SoldLine)
    requires l.quantity > 0.0
    ensures PostAll(l, [0.5, 0.5, 0.5]) == Post(l, Post(l, Post(l, [], 0.5), 0.5), 0.5)
  {
    var s := [0.5, 0.5, 0.5];
    assert s[..2] == [0.5, 0.5] && s[..2][..1] == [0.5] && s[..2][..1][..0] == [];
    hide Post;
    assert PostAll(l, s[..2][..1]) == Post(l, [], 0.5);
    assert PostAll(l, s[..2]) == Post(l, Post(l, [], 0.5), 0.5);
  }

  lemma RefusedHalf(l: SoldLine, h: seq<Returned>)
    requires l.quantity == 2.0 && l.total == 0.0002 && Quantity(h) == 1.5 && Amount(h) == 0.0003
    ensures Post(l, h, 0.5) == h && Resolve(l, h, 0.5).Share?
  {
    var x := l.total - Amount(h);
    assert x * 10000.0 == -1.0;
    HalfUpNearest(x * 10000.0, -1);
  }

  // ------------------------------------------------------------- POS preview

  datatype AmountLine = AmountLine(sold: real, total: real, returned: real, maximum: Option<real>)

  predicate Acceptable(a: AmountLine) {
    a.sold > 0.0 && 0.0 < a.returned <= (if a.maximum.Some? then a.maximum.value else a.sold)
  }

  /** One line of the preview: the rounded unit price times the quantity, rounded again. */
  function PreviewLine(a: AmountLine): real
    requires a.sold > 0.0
  {
    Fixed4(Product(Fixed4(Quotient(a.total, a.sold)), a.returned))
  }

  function Preview(ls: seq<AmountLine>): real
    requires forall i :: 0 <= i < |ls| ==> Acceptable(ls[i])
  {
    if ls == [] then 0.0
    else
      assert Acceptable(ls[|ls| - 1]);
      Preview(ls[..|ls| - 1]) + PreviewLine(ls[|ls| - 1])
  }

  lemma PreviewLineAt4(a: AmountLine)
    requires a.sold > 0.0
    ensures At4(PreviewLine(a))
  {
    hide At4, Fixed4, Product, Quotient;
    Fixed4Near(Product(Fixed4(Quotient(a.total, a.sold)), a.returned));
  }

  lemma {:induction false} PreviewAt4(ls: seq<AmountLine>)
    requires forall i :: 0 <= i < |ls| ==> Acceptable(ls[i])
    ensures At4(Preview(ls)) && Fixed4(Preview(ls)) == Preview(ls)
  {
    hide At4, Fixed4, PreviewLine;
    if ls == [] {
      ZeroAtScale();
    } else {
      PreviewAt4(ls[..|ls| - 1]);
      var a := ls[|ls| - 1];
      PreviewLineAt4(a);
      At4Sum(Preview(ls[..|ls| - 1]), PreviewLine(a));
    }
    Fixed4Near(Preview(ls));
  }

  /** calculateHistoricalReturnAmount; None stands for the thrown error. */
  method CalculateHistoricalReturnAmount(lines: seq<AmountLine>) returns (r: Option<real>)
    requires forall i :: 0 <= i < |lines| ==> lines[i].sold > 0.0
    ensures r.Some? <==> lines != [] && forall i :: 0 <= i < |lines| ==> Acceptable(lines[i])
    ensures r.Some? ==> r.value == Preview(lines)
    ensures r.None? <==>
      || lines == []
      || (exists i :: 0 <= i < |lines| && lines[i].returned <= 0.0)
      || (exists i :: 0 <= i < |lines| && lines[i].maximum.Some? && lines[i].returned > lines[i].maximum.value)
      || (exists i :: 0 <= i < |lines| && lines[i].maximum.None? && lines[i].returned > lines[i].sold)
  {
    if lines == [] { return None; }
    var total := 0.0;
    for i := 0 to |lines|
      invariant forall k :: 0 <= k < i ==> Acceptable(lines[k])
      invariant total == Preview(lines[..i])
    {
      if !Acceptable(lines[i]) { return None; }
      assert lines[..i + 1][..i] == lines[..i];
      total := total + PreviewLine(lines[i]);
    }
    assert lines[..|lines|] == lines;
    PreviewAt4(lines);
    return Some(Fixed4(total));
  }

  /** The POS preview equals the server's share on every non-completing return and differs from
      it by at most one half unit more than the roundings so far on the completing one. */
  lemma PreviewMatchesServer(l: SoldLine, h: seq<Returned>, q: real)
    requires ValidLine(l) && ValidRequest(q) && SplitInv(l, h) && Quantity(h) + q <= l.quantity
    ensures var p := PreviewLine(AmountLine(l.quantity, l.total, q, None));
      var s := Resolve(l, h, q);
      && s.Share?
      && (Quantity(h) + q < l.quantity ==> p == s.amount)
      && -Slack(|h| + 1) <= p - s.amount <= Slack(|h| + 1)
  {
    hide At4, At6, Fixed4, ExactShare, Worth, PreviewLine, Quantity, Amount, Slack;
    PreviewIsWorth(l, q);
    ShareIsWorth(l, q);
    WorthAdds(l, Quantity(h), q);
    SlackCount(|h|);
    At4Sum(l.total, Amount(h));
    Fixed4Near(Worth(l, q)); Fixed4Near(l.total - Amount(h));
    SlackNonNegative(|h|);
  }

  lemma SlackNonNegative(k: nat)
    ensures Slack(k) >= 0.0
  {
  }

  lemma PreviewIsWorth(l: SoldLine, q: real)
    requires ValidLine(l)
    ensures PreviewLine(AmountLine(l.quantity, l.total, q, None)) == Fixed4(Worth(l, q))
  {
    UnitPrice(l);
    hide Fixed4, Product, Quotient, ValidLine;
  }

  lemma UnitPrice(l: SoldLine)
    requires ValidLine(l)
    ensures l.quantity > 0.0 && Quotient(l.total, l.quantity) == l.price && Fixed4(l.price) == l.price
  {
    Fixed4Near(l.price);
    hide At4, At6, Fixed4;
    DivideThrough(l.price, l.quantity, l.total);
  }
}
