/** Negative-stock replacement as the columns hold it: receipts are allocated with all their
    decimals, replacement rows and movements are rounded to scale 6. */
module StoredStock {
  import opened Decimals
  import opened FixedPoint
  import opened NegativeStock

  ghost predicate AllAt6(s: seq<real>) { forall i :: 0 <= i < |s| ==> At6(s[i]) }

  /** base_quantity_delta is a NUMERIC(20,6) column. */
  ghost predicate LedgerAt6(m: seq<Movement>) { forall i :: 0 <= i < |m| ==> At6(m[i].delta) }

  /** Each entry as its NUMERIC(20,6) column holds it. */
  function Stored(s: seq<real>): (r: seq<real>)
    ensures |r| == |s| && forall i :: 0 <= i < |s| ==> r[i] == Fixed6(s[i])
  {
    if s == [] then [] else [Fixed6(s[0])] + Stored(s[1..])
  }

  lemma {:induction false} LedgerScale(m: seq<Movement>)
    requires LedgerAt6(m)
    ensures At6(Balance(m)) && At6(Deficit(m)) && AllAt6(NegativeSales(m))
  {
    hide At6;
    ZeroAtScale();
    if m == [] {
      DeficitScale(0.0);
    } else {
      var front, last := m[..|m| - 1], m[|m| - 1];
      LedgerScale(front);
      At6Sum(Balance(front), last.delta);
      DeficitScale(Balance(m));
      DeepensScale(Balance(front), last.delta);
    }
  }

  lemma DeficitScale(q: real)
    requires At6(q)
    ensures At6(Below(q))
  {
    hide At6;
    ZeroAtScale();
    At6Sum(0.0, q);
    assert 0.0 - q == -q;
  }

  lemma DeepensScale(before: real, delta: real)
    requires At6(before) && At6(delta)
    ensures At6(Deepens(before, delta))
  {
    hide At6, Below;
    ZeroAtScale();
    At6Sum(before, delta);
    DeficitScale(before); DeficitScale(before + delta);
    At6Sum(Below(before + delta), Below(before));
  }

  lemma {:induction false} TailScale(s: seq<real>, d: real)
    requires AllAt6(s) && At6(d)
    ensures AllAt6(Tail(s, d))
  {
    hide At6;
    ZeroAtScale();
    if s != [] {
      At6Sum(d, s[|s| - 1]);
      TailScale(s[..|s| - 1], d - s[|s| - 1]);
    }
  }

  lemma {:induction false} AllocateScale(open: seq<real>, y: real)
    requires AllAt6(open) && At6(y)
    ensures AllAt6(Allocate(open, y))
  {
    hide At6;
    if open != [] {
      var share := Min(open[0], y);
      At6Sum(y, share);
      AllocateScale(open[1..], y - share);
    }
  }

  lemma {:induction false} SumScale(s: seq<real>)
    requires AllAt6(s)
    ensures At6(Sum(s))
  {
    hide At6;
    ZeroAtScale();
    if s != [] {
      SumScale(s[..|s| - 1]);
      At6Sum(Sum(s[..|s| - 1]), s[|s| - 1]);
    }
  }

  /** Every share is on the scale if and only if what is given out in total is. */
  lemma SharesOnScaleIff(open: seq<real>, y: real)
    requires AllAt6(open) && NonNegative(open) && y >= 0.0
    ensures AllAt6(Allocate(open, y)) <==> At6(y) || y >= Sum(open)
  {
    hide At6, Allocate, Sum;
    AllocateSum(open, y); AllocateBounds(open, y); SumScale(open);
    if y >= Sum(open) {
      SumOrder(Allocate(open, y), open);
    } else if At6(y) {
      AllocateScale(open, y);
    } else if AllAt6(Allocate(open, y)) {
      SumScale(Allocate(open, y));
    }
  }

  lemma OneShare(a: real, y: real)
    requires At6(a) && a >= 0.0 && y >= 0.0
    ensures Fixed6(Min(a, y)) == Min(a, Fixed6(y))
    ensures Fixed6(y - Min(a, y)) == Fixed6(y) - Min(a, Fixed6(y))
  {
    hide Fixed6, At6;
    Fixed6Near(a); Fixed6Near(0.0); ZeroAtScale();
    if a <= y {
      Fixed6Monotone(a, y);
      Fixed6Shift(y, a);
    } else {
      Fixed6Monotone(y, a);
    }
  }

  /** Rounding what each sale is given is giving out the rounded quantity: only the last sale
      served takes a part that is not on the scale. */
  lemma {:induction false} StoredAllocation(open: seq<real>, y: real)
    requires AllAt6(open) && NonNegative(open) && y >= 0.0
    ensures Stored(Allocate(open, y)) == Allocate(open, Fixed6(y))
  {
    hide Fixed6, At6;
    if open != [] {
      var a, rest := open[0], open[1..];
      OneShare(a, y);
      StoredAllocation(rest, y - Min(a, y));
      var given := Allocate(open, y);
      assert given[0] == Min(a, y) && given[1..] == Allocate(rest, y - Min(a, y));
      assert Stored(given) == [Fixed6(given[0])] + Stored(given[1..]);
    }
  }

  lemma OpenScale(m: seq<Movement>)
    requires LedgerAt6(m)
    ensures AllAt6(OpenSales(m)) && NonNegative(OpenSales(m)) && At6(Deficit(m)) && Deficit(m) >= 0.0
  {
    hide At6;
    LedgerScale(m);
    TailScale(NegativeSales(m), Deficit(m));
    NegativesNonNegative(m);
    TailBounds(NegativeSales(m), Deficit(m));
    OpenDeficitNonNegative(m);
  }

  /** What a receipt of any base quantity stores: the allocation of its rounded quantity. */
  lemma StoredReceipt(m: seq<Movement>, x: real)
    requires LedgerAt6(m) && x >= 0.0
    ensures Stored(Allocate(OpenSales(m), Min(x, Deficit(m)))) == Allocate(OpenSales(m), Min(Fixed6(x), Deficit(m)))
    ensures Fixed6(x) >= 0.0
  {
    OpenScale(m);
    hide Fixed6, At6, OpenSales, Deficit;
    StoredAllocation(OpenSales(m), Min(x, Deficit(m)));
    OneShare(Deficit(m), x);
    Fixed6Near(0.0); ZeroAtScale();
    Fixed6Monotone(0.0, x);
  }

  // ------------------------------------------- receipts the table's check refuses

  /** Some share is positive but stored as zero, which CHECK (quantity > 0) refuses. */
  ghost predicate ZeroShare(open: seq<real>, y: real) {
    exists i :: 0 <= i < |open| && Allocate(open, y)[i] > 0.0 && Fixed6(Allocate(open, y)[i]) == 0.0
  }

  /** The receipt gives some sale a share that the replacement table refuses. */
  ghost predicate Refused(m: seq<Movement>, x: real) { ZeroShare(OpenSales(m), Min(x, Deficit(m))) }

  /** A sum over the oldest open sales. */
  ghost predicate OldestSum(open: seq<real>, z: real) { exists k :: 0 <= k <= |open| && Sum(open[..k]) == z }

  lemma OldestSumFront(a: real, rest: seq<real>, z: real)
    ensures OldestSum([a] + rest, z) <==> z == 0.0 || OldestSum(rest, z - a)
  {
    var open := [a] + rest;
    forall k | 0 <= k <= |rest| ensures Sum(open[..k + 1]) == a + Sum(rest[..k]) {
      assert open[..k + 1] == [a] + rest[..k];
      SumFront(a, rest[..k]);
    }
    assert open[..0] == [] && Sum(open[..0]) == 0.0;
    if OldestSum(open, z) && z != 0.0 {
      var k :| 0 <= k <= |open| && Sum(open[..k]) == z;
      assert k > 0 && Sum(rest[..k - 1]) == z - a;
    }
    if OldestSum(rest, z - a) {
      var k :| 0 <= k <= |rest| && Sum(rest[..k]) == z - a;
      assert Sum(open[..k + 1]) == z;
    }
  }

  lemma ZeroShareFront(a: real, rest: seq<real>, y: real)
    ensures ZeroShare([a] + rest, y) <==>
            (Min(a, y) > 0.0 && Fixed6(Min(a, y)) == 0.0) || ZeroShare(rest, y - Min(a, y))
  {
    hide Fixed6;
    var open := [a] + rest;
    var given, later := Allocate(open, y), Allocate(rest, y - Min(a, y));
    assert open[1..] == rest && given == [Min(a, y)] + later;
    assert forall i :: 0 <= i < |rest| ==> given[i + 1] == later[i];
    if ZeroShare(rest, y - Min(a, y)) {
      var i :| 0 <= i < |rest| && later[i] > 0.0 && Fixed6(later[i]) == 0.0;
      assert given[i + 1] > 0.0 && Fixed6(given[i + 1]) == 0.0;
    }
    if ZeroShare(open, y) {
      var i :| 0 <= i < |open| && given[i] > 0.0 && Fixed6(given[i]) == 0.0;
      if i > 0 { assert later[i - 1] > 0.0 && Fixed6(later[i - 1]) == 0.0; }
    }
    assert given[0] == Min(a, y);
  }

  lemma NothingToGive(open: seq<real>)
    requires NonNegative(open)
    ensures !ZeroShare(open, 0.0)
  {
    hide Allocate, Fixed6;
    forall i: nat | i < |open| ensures Allocate(open, 0.0)[i] == 0.0 { AllocateNothing(open, i); }
  }

  lemma {:induction false} OldestSumNonNegative(open: seq<real>, z: real)
    requires NonNegative(open) && OldestSum(open, z)
    ensures z >= 0.0
  {
    var k :| 0 <= k <= |open| && Sum(open[..k]) == z;
    SumNonNegative(open[..k]);
  }

  /** Exactly when: not everything is served, the quantity rounds down, and what it rounds to is used
      up by the oldest open sales. */
  lemma {:induction false} ZeroShareIff(open: seq<real>, y: real)
    requires AllAt6(open) && NonNegative(open) && y >= 0.0
    ensures ZeroShare(open, y) <==> y < Sum(open) && Fixed6(y) < y && OldestSum(open, Fixed6(y))
  {
    hide Fixed6, At6, Allocate, Sum, ZeroShare, OldestSum;
    SumNonNegative(open);
    if open == [] {
      NoShares(y);
    } else {
      var a, rest := open[0], open[1..];
      assert open == [a] + rest;
      var share := Min(a, y);
      OneShare(a, y);
      SumFront(a, rest); SumNonNegative(rest);
      ZeroShareFront(a, rest, y); OldestSumFront(a, rest, Fixed6(y));
      Fixed6Near(a); Fixed6Near(0.0); ZeroAtScale();
      ZeroShareIff(rest, y - share);
      if a > y {
        NothingToGive(rest);
        Fixed6Monotone(0.0, y);
        TooMuch(rest, Fixed6(y) - a);
      } else if Fixed6(y) == 0.0 {
        Fixed6Monotone(a, y);
        StartsEmpty(rest);
      }
    }
  }

  lemma NoShares(y: real)
    ensures !ZeroShare([], y) && Sum([]) == 0.0
  {
  }

  lemma StartsEmpty(open: seq<real>)
    ensures OldestSum(open, 0.0)
  {
    assert open[..0] == [] && Sum(open[..0]) == 0.0;
  }

  lemma TooMuch(open: seq<real>, z: real)
    requires NonNegative(open)
    ensures z < 0.0 ==> !OldestSum(open, z)
  {
    hide OldestSum;
    if OldestSum(open, z) { OldestSumNonNegative(open, z); }
  }

  /** A receipt is refused for a share that rounds to zero if and only if it does not serve every open
      sale, its base quantity rounds down, and the rounded quantity is a sum over the oldest ones. */
  lemma RefusedIff(m: seq<Movement>, x: real)
    requires LedgerAt6(m) && x >= 0.0
    ensures var open := OpenSales(m);
      Refused(m, x) <==> x < Sum(open) && Fixed6(x) < x && OldestSum(open, Fixed6(x))
  {
    OpenScale(m);
    NegativesNonNegative(m);
    SumNonNegative(NegativeSales(m));
    TailSum(NegativeSales(m), Deficit(m));
    assert Sum(OpenSales(m)) <= Deficit(m);
    hide OpenSales, Deficit, Fixed6, At6, OldestSum, ZeroShare, Sum;
    ZeroShareIff(OpenSales(m), Min(x, Deficit(m)));
  }

  /** One unit and a free millionth at a conversion of 0.4 against open sales of 0.4 and 1. */
  lemma FreeMillionthRefused(open: seq<real>, y: real)
    requires open == [0.4, 1.0] && y == Product(1.0 + 0.000001, 0.4)
    ensures ZeroShare(open, y)
  {
    assert y == 0.4000004 && open[1..] == [1.0];
    assert Allocate(open, y)[1] == Allocate([1.0], y - 0.4)[0] == 0.0000004;
    HalfUpNearest(0.0000004 * 1000000.0, 0);
  }

  // ------------------------------------------------------------------ whole runs

  /** One event as the tables see it: allocations are made from the unrounded base quantity, the
      replacement rows and the receipt's movement are rounded by their columns, and a share that
      rounds to zero aborts the whole receipt. */
  ghost function SourceNext(r: Run, e: Event): (r': Run)
    requires |r.replaced| == |r.ledger|
    ensures |r'.replaced| == |r'.ledger|
  {
    match e
    case Post(mv) => Run(r.ledger + [mv], r.replaced + [0.0])
    case Receive(x) =>
      var given := Allocate(OpenSales(r.ledger), Min(x, Deficit(r.ledger)));
      if Refused(r.ledger, x) then r
      else Run(r.ledger + [Movement(false, Fixed6(x))], Plus(r.replaced, Stored(given)) + [0.0])
  }

  ghost function SourceReplay(es: seq<Event>): (r: Run)
    ensures |r.replaced| == |r.ledger|
  {
    if es == [] then Run([], []) else SourceNext(SourceReplay(es[..|es| - 1]), es[|es| - 1])
  }

  function StoredEvent(e: Event): Event {
    match e
    case Post(mv) => Post(mv)
    case Receive(x) => Receive(Fixed6(x))
  }

  ghost predicate Aborts(r: Run, e: Event) { e.Receive? && Refused(r.ledger, e.quantity) }

  /** The events that were not aborted, with receipts rounded to their column. */
  ghost function AcceptedEvents(es: seq<Event>): seq<Event> {
    if es == [] then []
    else
      var front, last := es[..|es| - 1], es[|es| - 1];
      AcceptedEvents(front) + if Aborts(SourceReplay(front), last) then [] else [StoredEvent(last)]
  }

  ghost predicate PostsAt6(es: seq<Event>) {
    forall i :: 0 <= i < |es| && es[i].Post? ==> At6(es[i].movement.delta)
  }

  /** An accepted event is the exact step over its stored quantity. */
  lemma SourceStep(r: Run, e: Event)
    requires |r.replaced| == |r.ledger| && LedgerAt6(r.ledger)
    requires (e.Receive? ==> e.quantity >= 0.0) && (e.Post? ==> At6(e.movement.delta))
    ensures SourceNext(r, e) == if Aborts(r, e) then r else Next(r, StoredEvent(e))
    ensures LedgerAt6(SourceNext(r, e).ledger)
    ensures StoredEvent(e).Receive? ==> StoredEvent(e).quantity >= 0.0
  {
    hide At6, Fixed6, Refused;
    if e.Receive? {
      StoredReceipt(r.ledger, e.quantity);
      Fixed6Near(e.quantity);
    }
  }

  /** A run of the source is the exact run over its accepted receipts, rounded to their column. */
  lemma {:induction false} SourceIsStoredRun(es: seq<Event>)
    requires ReceiptsNonNegative(es) && PostsAt6(es)
    ensures SourceReplay(es) == Replay(AcceptedEvents(es)) && LedgerAt6(SourceReplay(es).ledger)
    ensures ReceiptsNonNegative(AcceptedEvents(es))
  {
    if es != [] {
      var front, last := es[..|es| - 1], es[|es| - 1];
      SourceIsStoredRun(front);
      SourceStep(SourceReplay(front), last);
      hide At6, Fixed6, Refused, SourceNext, Aborts;
      var done := AcceptedEvents(front);
      if Aborts(SourceReplay(front), last) {
        assert AcceptedEvents(es) == done + [] == done;
      } else {
        ReplayOne(done, StoredEvent(last), AcceptedEvents(es));
      }
    }
  }

  /** Over every run of the source in which only sales deepen the deficit, what was stored as
      replaced of a sale plus what is open of it never exceeds the part that went below zero. */
  lemma StoredNeverOverReplaced(es: seq<Event>)
    requires ReceiptsNonNegative(es) && PostsAt6(es) && OnlySalesDeepen(SourceReplay(es).ledger)
    ensures Accounted(SourceReplay(es))
  {
    SourceIsStoredRun(es);
    hide *;
    NeverOverReplaced(AcceptedEvents(es));
  }

  /** An event is aborted or meets its condition, read with its stored quantity. */
  ghost predicate AbortsOrMeets(r: Run, e: Event)
    requires |r.replaced| == |r.ledger|
  {
    Aborts(r, e) || Meets(r, StoredEvent(e))
  }

  ghost predicate AccountedAfter(es: seq<Event>, k: nat)
    requires k <= |es|
  {
    Accounted(SourceReplay(es[..k]))
  }

  ghost predicate MeetsAt(es: seq<Event>, k: nat)
    requires k < |es|
  {
    AbortsOrMeets(SourceReplay(es[..k]), es[k])
  }

  /** Over whole runs of the source: every prefix is accounted for if and only if every event is
      aborted or meets its condition. */
  lemma {:induction false} StoredAccountedIffMeets(es: seq<Event>, n: nat)
    requires ReceiptsNonNegative(es) && PostsAt6(es) && n <= |es|
    ensures (forall k: nat :: k <= n ==> AccountedAfter(es, k)) <==> (forall k: nat :: k < n ==> MeetsAt(es, k))
  {
    hide AccountedAfter, MeetsAt;
    if n == 0 {
      StartAccounted(es);
    } else {
      StoredAccountedIffMeets(es, n - 1);
      if AccountedAfter(es, n - 1) { PrefixStep(es, n - 1); }
    }
  }

  lemma StartAccounted(es: seq<Event>)
    ensures AccountedAfter(es, 0)
  {
    assert es[..0] == [];
    NothingYet(); StartOfReplay();
  }

  lemma PrefixStep(es: seq<Event>, n: nat)
    requires ReceiptsNonNegative(es) && PostsAt6(es) && n < |es| && AccountedAfter(es, n)
    ensures AccountedAfter(es, n + 1) <==> MeetsAt(es, n)
  {
    assert es[..n + 1][..n] == es[..n];
    assert SourceReplay(es[..n + 1]) == SourceNext(SourceReplay(es[..n]), es[n]);
    hide Accounted, Meets, SourceNext, SourceReplay, Aborts, At6, Next, StoredEvent;
    var r, e := SourceReplay(es[..n]), es[n];
    SourceIsStoredRun(es[..n]);
    ReplacedNonNegative(AcceptedEvents(es[..n]));
    SourceStep(r, e);
    if !Aborts(r, e) { StepAccountedIff(r, StoredEvent(e)); }
  }

  /** An accepted receipt stores as replaced min(rounded receipt, what the query holds open) in total. */
  lemma StoredSum(m: seq<Movement>, x: real)
    requires LedgerAt6(m) && x >= 0.0
    ensures Sum(Stored(Allocate(OpenSales(m), Min(x, Deficit(m))))) == Min(Fixed6(x), Sum(OpenSales(m)))
    ensures OnlySalesDeepen(m) ==> Sum(OpenSales(m)) == Deficit(m)
  {
    StoredReceipt(m, x);
    OpenScale(m);
    NegativesNonNegative(m);
    SumNonNegative(NegativeSales(m));
    TailSum(NegativeSales(m), Deficit(m));
    if OnlySalesDeepen(m) { QueryIsFifo(m); }
    assert Sum(OpenSales(m)) <= Deficit(m);
    hide OpenSales, Deficit, Fixed6, At6, Stored, OnlySalesDeepen;
    AllocateSum(OpenSales(m), Min(Fixed6(x), Deficit(m)));
  }

  /** Recomputing after a stored receipt gives the old open quantities minus the stored
      replacements, under the same exact condition read with the stored receipt. */
  lemma StoredRecomputeIff(m: seq<Movement>, x: real)
    requires LedgerAt6(m) && x >= 0.0000005
    ensures var d, total := Deficit(m), Sum(NegativeSales(m));
      var stored := Stored(Allocate(OpenSales(m), Min(x, d)));
      OpenSales(m + [Movement(false, Fixed6(x))]) == Minus(OpenSales(m), stored) + [0.0]
      <==> d <= total || total == 0.0 || Fixed6(x) >= d
  {
    StoredReceipt(m, x);
    assert Fixed6(x) > 0.0;
    hide *;
    RecomputeIff(m, Fixed6(x));
  }
}
