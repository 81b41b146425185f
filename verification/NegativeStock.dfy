/** Which past sales a goods receipt replaces when stock went below zero.
    The query keeps no state: it recomputes open deficits from the movement ledger. The reference
    here is a first-in first-out queue of everything that ever pushed the balance below zero. */
module NegativeStock {
  import opened Decimals

  /** One row of inventory.stock_movements for one product and location, in ledger order.
      sale marks movement_type = 'SALE' with a source line. */
  datatype Movement = Movement(sale: bool, delta: real)

  predicate NonNegative(s: seq<real>) { forall i :: 0 <= i < |s| ==> s[i] >= 0.0 }

  function Balance(m: seq<Movement>): real {
    if m == [] then 0.0 else Balance(m[..|m| - 1]) + m[|m| - 1].delta
  }

  /** GREATEST(-q, 0). */
  function Below(q: real): real { Max(-q, 0.0) }

  /** negative_quantity: by how much one movement deepens the deficit. */
  function Deepens(before: real, delta: real): real { Max(0.0, Below(before + delta) - Below(before)) }

  /** By how much one movement closes the deficit. */
  function Fills(before: real, delta: real): real { Max(0.0, Below(before) - Below(before + delta)) }

  // ------------------------------------------------------------ the SQL query

  /** Deepening of every movement, in ledger order. */
  function Negatives(m: seq<Movement>): (r: seq<real>)
    ensures |r| == |m|
  {
    if m == [] then []
    else
      var front := m[..|m| - 1];
      Negatives(front) + [Deepens(Balance(front), m[|m| - 1].delta)]
  }

  /** negative_sales: the same, with every row that is not a sale line at zero. */
  function NegativeSales(m: seq<Movement>): (r: seq<real>)
    ensures |r| == |m|
  {
    if m == [] then []
    else
      var front, last := m[..|m| - 1], m[|m| - 1];
      NegativeSales(front) + [if last.sale then Deepens(Balance(front), last.delta) else 0.0]
  }

  /** unresolved_quantity of row i: LEAST(neg, GREATEST(0, deficit - later negs)). */
  function Unresolved(negs: seq<real>, deficit: real, i: nat): real
    requires i < |negs|
  {
    Min(negs[i], Max(0.0, deficit - Sum(negs[i + 1..])))
  }

  /** The whole unresolved_tail, computed from the newest row backwards. */
  function Tail(negs: seq<real>, deficit: real): (r: seq<real>)
    ensures |r| == |negs|
  {
    if negs == [] then []
    else
      var last := negs[|negs| - 1];
      Tail(negs[..|negs| - 1], deficit - last) + [Min(last, Max(0.0, deficit))]
  }

  function Deficit(m: seq<Movement>): real { Below(Balance(m)) }

  function OpenSales(m: seq<Movement>): (r: seq<real>)
    ensures |r| == |m|
  {
    Tail(NegativeSales(m), Deficit(m))
  }

  /** The backward pass computes the window expression of every row. */
  lemma {:induction false} TailIsWindow(negs: seq<real>, deficit: real, i: nat)
    requires i < |negs|
    ensures Tail(negs, deficit)[i] == Unresolved(negs, deficit, i)
  {
    var n := |negs| - 1;
    if i == n {
      assert negs[i + 1..] == [];
    } else {
      TailIsWindow(negs[..n], deficit - negs[n], i);
      var later := negs[i + 1..];
      assert later[..|later| - 1] == negs[..n][i + 1..];
    }
  }

  // ---------------------------------------------------------- the FIFO queue

  /** Take x from the front of the queue. */
  function Consume(q: seq<real>, x: real): (r: seq<real>)
    ensures |r| == |q|
  {
    if q == [] then [] else [q[0] - Min(q[0], x)] + Consume(q[1..], x - Min(q[0], x))
  }

  /** The queue after a ledger: deepening joins at the back, filling serves the front. */
  function Fifo(m: seq<Movement>): (r: seq<real>)
    ensures |r| == |m|
  {
    if m == [] then []
    else
      var front, last := m[..|m| - 1], m[|m| - 1];
      Consume(Fifo(front), Fills(Balance(front), last.delta)) + [Deepens(Balance(front), last.delta)]
  }

  // ------------------------------------------------------------------ sums

  lemma {:induction false} SumFront(a: real, s: seq<real>)
    ensures Sum([a] + s) == a + Sum(s)
  {
    var t := [a] + s;
    if s == [] {
      assert t[..|t| - 1] == [];
    } else {
      SumFront(a, s[..|s| - 1]);
      assert t[..|t| - 1] == [a] + s[..|s| - 1];
    }
  }

  lemma {:induction false} SumNonNegative(s: seq<real>)
    requires NonNegative(s)
    ensures Sum(s) >= 0.0
  {
    if s != [] { SumNonNegative(s[..|s| - 1]); }
  }

  lemma {:induction false} NegativesNonNegative(m: seq<Movement>)
    ensures NonNegative(Negatives(m)) && NonNegative(NegativeSales(m))
  {
    if m != [] { NegativesNonNegative(m[..|m| - 1]); }
  }

  // ------------------------------------------------------------- tail facts

  /** The tail never opens more than its row, and opens min(deficit, everything) in total. */
  lemma {:induction false} TailSum(negs: seq<real>, d: real)
    requires NonNegative(negs)
    ensures Sum(Tail(negs, d)) == Max(0.0, Min(d, Sum(negs)))
    ensures forall i :: 0 <= i < |negs| ==> 0.0 <= Tail(negs, d)[i] <= negs[i]
  {
    hide *;
    TailBounds(negs, d);
    TailTotal(negs, d);
  }

  lemma {:induction false} TailTotal(negs: seq<real>, d: real)
    requires NonNegative(negs)
    ensures Sum(Tail(negs, d)) == Max(0.0, Min(d, Sum(negs)))
  {
    hide Tail;
    if negs == [] {
      NoTail(d);
    } else {
      var n := |negs| - 1;
      TailTotal(negs[..n], d - negs[n]);
      SumNonNegative(negs[..n]);
      TailLast(negs, d);
      hide Min, Max;
      TailArithmetic(d, negs[n], Sum(negs[..n]));
    }
  }

  lemma {:induction false} TailBounds(negs: seq<real>, d: real)
    requires NonNegative(negs)
    ensures forall i :: 0 <= i < |negs| ==> 0.0 <= Tail(negs, d)[i] <= negs[i]
  {
    if negs != [] { TailBounds(negs[..|negs| - 1], d - negs[|negs| - 1]); }
  }

  lemma TailArithmetic(d: real, a: real, s: real)
    requires a >= 0.0 && s >= 0.0
    ensures Max(0.0, Min(d - a, s)) + Min(a, Max(0.0, d)) == Max(0.0, Min(d, s + a))
  {
  }

  lemma {:induction false} TailFront(a: real, s: seq<real>, d: real)
    ensures Tail([a] + s, d) == [Min(a, Max(0.0, d - Sum(s)))] + Tail(s, d)
  {
    var t := [a] + s;
    if s == [] {
      assert t[..|t| - 1] == [];
    } else {
      var n := |s| - 1;
      assert t[..|t| - 1] == [a] + s[..n];
      TailFront(a, s[..n], d - s[n]);
    }
  }

  /** Serving the front of an exact tail leaves the exact tail of the smaller deficit. */
  lemma {:induction false} ConsumeTail(s: seq<real>, d: real, x: real)
    requires NonNegative(s) && 0.0 <= x <= d <= Sum(s)
    ensures Consume(Tail(s, d), x) == Tail(s, d - x)
    decreases |s|, 0
  {
    if s != [] {
      var a, rest := s[0], s[1..];
      assert s == [a] + rest;
      var r := Sum(rest);
      SumFront(a, rest); SumNonNegative(rest);
      TailFront(a, rest, d); TailFront(a, rest, d - x);
      var t := Tail(s, d);
      var y := x - Min(t[0], x);
      assert t[1..] == Tail(rest, d);
      assert Consume(t, x) == [t[0] - Min(t[0], x)] + Consume(Tail(rest, d), y);
      assert t[0] == Min(a, Max(0.0, d - r)) && Tail(s, d - x)[0] == Min(a, Max(0.0, d - x - r));
      hide *;
      HeadServed(a, r, d, x);
      if d <= r { ConsumeTail(rest, d, x); } else { ConsumeFull(rest, d, x, y); }
    }
  }

  lemma HeadServed(a: real, r: real, d: real, x: real)
    requires a >= 0.0 && r >= 0.0 && 0.0 <= x <= d <= a + r
    ensures var h := Min(a, Max(0.0, d - r)); var y := x - Min(h, x);
      && h - Min(h, x) == Min(a, Max(0.0, d - x - r))
      && (d <= r ==> y == x)
      && (d > r ==> 0.0 <= y <= r && r - y == Min(r, d - x))
  {
  }

  lemma {:induction false} ConsumeFull(rest: seq<real>, d: real, x: real, y: real)
    requires NonNegative(rest) && d > Sum(rest) && 0.0 <= y <= Sum(rest) && Sum(rest) - y == Min(Sum(rest), d - x)
    ensures Consume(Tail(rest, d), y) == Tail(rest, d - x)
    decreases |rest|, 1
  {
    var r := Sum(rest);
    TailSaturates(rest, d, r);
    ConsumeTail(rest, r, y);
    if d - x >= r { TailSaturates(rest, d - x, r); }
  }

  lemma TailSaturates(s: seq<real>, d: real, e: real)
    requires NonNegative(s) && d >= Sum(s) && e >= Sum(s)
    ensures Tail(s, d) == Tail(s, e) == s
  {
    hide Tail, Sum;
    TailIsAll(s, d); TailIsAll(s, e);
  }

  lemma {:induction false} TailIsAll(s: seq<real>, d: real)
    requires NonNegative(s) && d >= Sum(s)
    ensures Tail(s, d) == s
  {
    if s != [] {
      var n := |s| - 1;
      var front := s[..n];
      SumNonNegative(front);
      assert Sum(s) == Sum(front) + s[n];
      hide Sum, Tail, Min, Max;
      TailLast(s, d);
      WholeRow(s[n], d);
      TailIsAll(front, d - s[n]);
      assert Tail(s, d) == Tail(s, d)[..n] + [Tail(s, d)[n]] && s == front + [s[n]];
    }
  }

  lemma WholeRow(a: real, d: real)
    requires 0.0 <= a <= d
    ensures Min(a, Max(0.0, d)) == a
  {
  }

  /** Everything that ever deepened the deficit covers what is still open. */
  lemma {:induction false} NegativesCoverDeficit(m: seq<Movement>)
    ensures Sum(Negatives(m)) >= Deficit(m) >= 0.0
  {
    if m != [] {
      NegativesCoverDeficit(m[..|m| - 1]);
      var n := Negatives(m);
      assert n[..|n| - 1] == Negatives(m[..|m| - 1]);
    }
  }

  /** The queue is exactly the newest part of the deepening ledger, as long as the deficit. */
  lemma {:induction false} FifoIsTail(m: seq<Movement>)
    ensures Fifo(m) == Tail(Negatives(m), Deficit(m))
    ensures Sum(Fifo(m)) == Deficit(m)
  {
    hide Sum, Tail, Consume, Balance, Deepens, Fills, Below;
    NegativesNonNegative(m); NegativesCoverDeficit(m);
    TailSum(Negatives(m), Deficit(m));
    if m == [] {
      NoTail(Deficit(m));
    } else {
      var front, delta := m[..|m| - 1], m[|m| - 1].delta;
      FifoIsTail(front);
      NegativesNonNegative(front); NegativesCoverDeficit(front);
      DeficitStep(m);
      var deep := Deepens(Balance(front), delta);
      hide Negatives;
      assert Negatives(m) == Negatives(front) + [deep] by { NegativesStep(m); }
      TailOne(Negatives(front), deep, Deficit(m));
      ConsumeTail(Negatives(front), Deficit(front), Fills(Balance(front), delta));
    }
  }

  lemma NegativesStep(m: seq<Movement>)
    requires m != []
    ensures Negatives(m) == Negatives(m[..|m| - 1]) + [Deepens(Balance(m[..|m| - 1]), m[|m| - 1].delta)]
  {
  }

  /** The deficit moves by what deepens it less what fills it, and the deepening is all of it new. */
  lemma DeficitStep(m: seq<Movement>)
    requires m != []
    ensures var before, delta := Balance(m[..|m| - 1]), m[|m| - 1].delta;
      && Deficit(m) - Deepens(before, delta) == Deficit(m[..|m| - 1]) - Fills(before, delta)
      && Min(Deepens(before, delta), Max(0.0, Deficit(m))) == Deepens(before, delta)
      && 0.0 <= Fills(before, delta) <= Deficit(m[..|m| - 1])
  {
  }

  // ------------------------------------- when the query answers what the queue holds

  /** The entries of s at sale movements, zero elsewhere. */
  function SalesOf(m: seq<Movement>, s: seq<real>): (r: seq<real>)
    requires |s| == |m|
    ensures |r| == |m| && forall i :: 0 <= i < |m| ==> r[i] == if m[i].sale then s[i] else 0.0
  {
    seq(|m|, i requires 0 <= i < |m| => if m[i].sale then s[i] else 0.0)
  }

  /** How much of the open deficit does not come from sales. */
  function OpenElsewhere(m: seq<Movement>): real { Sum(Fifo(m)) - Sum(SalesOf(m, Fifo(m))) }

  lemma {:induction false} NegativeSalesMask(m: seq<Movement>)
    ensures NegativeSales(m) == SalesOf(m, Negatives(m))
  {
    if m != [] {
      NegativeSalesMask(m[..|m| - 1]);
    }
  }

  lemma {:induction false} SumOrder(a: seq<real>, b: seq<real>)
    requires |a| == |b| && forall i :: 0 <= i < |a| ==> a[i] <= b[i]
    ensures Sum(a) <= Sum(b)
    ensures Sum(a) == Sum(b) ==> a == b
  {
    if a != [] {
      var n := |a| - 1;
      SumOrder(a[..n], b[..n]);
      assert Sum(a) == Sum(a[..n]) + a[n] && Sum(b) == Sum(b[..n]) + b[n];
      hide Sum;
      if Sum(a) == Sum(b) { assert a == a[..n] + [a[n]] && b == b[..n] + [b[n]]; }
    }
  }

  /** Ignoring entries can only make the tail of the others longer. */
  lemma {:induction false} MaskedTailBelow(n: seq<real>, s: seq<real>, d: real, e: real)
    requires |n| == |s| && NonNegative(n) && d <= e
    requires forall i :: 0 <= i < |n| ==> s[i] == n[i] || s[i] == 0.0
    ensures forall i :: 0 <= i < |n| && s[i] == n[i] ==> Tail(n, d)[i] <= Tail(s, e)[i]
  {
    if n != [] {
      var k := |n| - 1;
      MaskedTailBelow(n[..k], s[..k], d - n[k], e - s[k]);
    }
  }

  lemma {:induction false} TailEmpty(s: seq<real>, d: real)
    requires NonNegative(s) && d <= 0.0
    ensures forall i :: 0 <= i < |s| ==> Tail(s, d)[i] == 0.0
  {
    if s != [] { TailEmpty(s[..|s| - 1], d - s[|s| - 1]); }
  }

  /** If nothing outside the mask is open, masking and taking the tail commute. */
  lemma {:induction false} MaskedTailExact(m: seq<Movement>, n: seq<real>, d: real)
    requires |n| == |m| && NonNegative(n)
    requires forall i :: 0 <= i < |m| && !m[i].sale ==> Tail(n, d)[i] == 0.0
    ensures Tail(SalesOf(m, n), d) == SalesOf(m, Tail(n, d))
  {
    if m != [] {
      var k := |m| - 1;
      var s := SalesOf(m, n);
      assert s[..k] == SalesOf(m[..k], n[..k]);
      hide Sum;
      if d <= 0.0 {
        hide Tail;
        TailEmpty(n, d); TailEmpty(s, d);
      } else {
        var t, u := Tail(n, d), Tail(s, d);
        TailLast(n, d); TailLast(s, d);
        hide Tail, Sum;
        MaskedTailExact(m[..k], n[..k], d - n[k]);
        MaskLast(m, n, t, u, d);
      }
    }
  }

  lemma TailLast(n: seq<real>, d: real)
    requires n != []
    ensures var k := |n| - 1;
      Tail(n, d)[..k] == Tail(n[..k], d - n[k]) && Tail(n, d)[k] == Min(n[k], Max(0.0, d))
  {
  }

  lemma MaskLast(m: seq<Movement>, n: seq<real>, t: seq<real>, u: seq<real>, d: real)
    requires |m| == |n| == |t| == |u| > 0 && d > 0.0 && n[|m| - 1] >= 0.0
    requires var k := |m| - 1;
      && u[..k] == SalesOf(m[..k], t[..k])
      && t[k] == Min(n[k], Max(0.0, d)) && u[k] == Min(SalesOf(m, n)[k], Max(0.0, d))
    ensures u == SalesOf(m, t)
  {
    var k := |m| - 1;
    forall i | 0 <= i < |m| ensures u[i] == SalesOf(m, t)[i] {
      if i < k { assert u[i] == u[..k][i] && t[i] == t[..k][i]; }
    }
  }

  /** What the query and the queue have in common for every ledger. */
  lemma OpenFacts(m: seq<Movement>)
    ensures var n, s, d, f := Negatives(m), NegativeSales(m), Deficit(m), SalesOf(m, Fifo(m));
      && s == SalesOf(m, n) && NonNegative(n) && NonNegative(s) && d >= 0.0
      && Fifo(m) == Tail(n, d) && Sum(Fifo(m)) == d
      && Sum(OpenSales(m)) == Min(d, Sum(s))
      && (forall i :: 0 <= i < |m| ==> 0.0 <= Fifo(m)[i] && f[i] <= s[i] && OpenSales(m)[i] <= s[i])
  {
    hide *;
    NegativeSalesMask(m); NegativesNonNegative(m); FifoIsTail(m);
    NegativesCoverDeficit(m); SumNonNegative(NegativeSales(m));
    TailSum(Negatives(m), Deficit(m)); TailSum(NegativeSales(m), Deficit(m));
    OpenFactsAt(m);
  }

  lemma OpenFactsAt(m: seq<Movement>)
    requires var n, s, d := Negatives(m), NegativeSales(m), Deficit(m);
      && s == SalesOf(m, n) && Fifo(m) == Tail(n, d) && d >= 0.0 && Sum(s) >= 0.0
      && (forall i :: 0 <= i < |n| ==> 0.0 <= Tail(n, d)[i] <= n[i])
      && (forall i :: 0 <= i < |s| ==> 0.0 <= Tail(s, d)[i] <= s[i])
      && Sum(Tail(s, d)) == Max(0.0, Min(d, Sum(s)))
    ensures var s, d, f := NegativeSales(m), Deficit(m), SalesOf(m, Fifo(m));
      && Sum(OpenSales(m)) == Min(d, Sum(s))
      && (forall i :: 0 <= i < |m| ==> 0.0 <= Fifo(m)[i] && f[i] <= s[i] && OpenSales(m)[i] <= s[i])
  {
  }

  lemma NothingElsewhere(m: seq<Movement>, t: seq<real>)
    requires |t| == |m| && NonNegative(t) && Sum(SalesOf(m, t)) == Sum(t)
    ensures forall i :: 0 <= i < |m| && !m[i].sale ==> t[i] == 0.0
  {
    hide Sum;
    var f := SalesOf(m, t);
    SumOrder(f, t);
    assert f == t;
  }

  lemma EntirelyOpen(m: seq<Movement>, n: seq<real>, d: real)
    requires |n| == |m| && NonNegative(n) && SalesOf(m, Tail(n, d)) == SalesOf(m, n)
    ensures Tail(SalesOf(m, n), d) == SalesOf(m, n)
  {
    hide Tail, Sum;
    var s, f := SalesOf(m, n), SalesOf(m, Tail(n, d));
    var o := Tail(s, d);
    MaskedTailBelow(n, s, d, d);
    TailSum(s, d);
    forall i | 0 <= i < |m| ensures o[i] == s[i] {
      assert f[i] == s[i];
    }
  }

  lemma SalesAccountForAll(f: seq<real>, s: seq<real>, d: real)
    requires |f| == |s| && (forall i :: 0 <= i < |s| ==> f[i] <= s[i])
    requires Sum(f) == Min(d, Sum(s))
    ensures Sum(f) == d || f == s
  {
    hide Sum;
    SumOrder(f, s);
  }

  /** The query reports the queue's sale entries exactly when no part of the open deficit comes
      from another kind of movement, or every negative sale is still entirely open. */
  lemma QueryIsFifoIff(m: seq<Movement>)
    ensures OpenSales(m) == SalesOf(m, Fifo(m))
       <==> OpenElsewhere(m) == 0.0 || SalesOf(m, Fifo(m)) == NegativeSales(m)
  {
    OpenFacts(m);
    hide Sum, Tail, Fifo, Negatives, NegativeSales, Deficit;
    var f, s, d := SalesOf(m, Fifo(m)), NegativeSales(m), Deficit(m);
    if OpenElsewhere(m) == 0.0 {
      NothingElsewhere(m, Fifo(m));
      MaskedTailExact(m, Negatives(m), d);
    } else if f == s {
      EntirelyOpen(m, Negatives(m), d);
    } else if OpenSales(m) == f {
      SalesAccountForAll(f, s, d);
    }
  }

  /** Only sales deepen a deficit: the movements this ledger holds satisfy it. */
  ghost predicate OnlySalesDeepen(m: seq<Movement>) { Negatives(m) == NegativeSales(m) }

  /** Under that hypothesis the query is the queue, and its open quantities sum to the deficit. */
  lemma QueryIsFifo(m: seq<Movement>)
    requires OnlySalesDeepen(m)
    ensures OpenSales(m) == Fifo(m) && Sum(OpenSales(m)) == Deficit(m)
  {
    FifoIsTail(m);
  }

  // -------------------------------------------------------------- allocation

  /** The replacement loop: each open sale, oldest first, takes what is left. */
  function Allocate(open: seq<real>, x: real): (r: seq<real>)
    ensures |r| == |open|
  {
    if open == [] then [] else [Min(open[0], x)] + Allocate(open[1..], x - Min(open[0], x))
  }

  function Minus(a: seq<real>, b: seq<real>): seq<real>
    requires |a| == |b|
  {
    seq(|a|, i requires 0 <= i < |a| => a[i] - b[i])
  }

  lemma {:induction false} AllocateBounds(open: seq<real>, x: real)
    requires NonNegative(open) && x >= 0.0
    ensures forall i :: 0 <= i < |open| ==> 0.0 <= Allocate(open, x)[i] <= open[i]
  {
    if open != [] { AllocateBounds(open[1..], x - Min(open[0], x)); }
  }

  lemma {:induction false} AllocateSum(open: seq<real>, x: real)
    requires NonNegative(open) && x >= 0.0
    ensures Sum(Allocate(open, x)) == Min(x, Sum(open))
  {
    if open != [] {
      var y := x - Min(open[0], x);
      AllocateSum(open[1..], y);
      SumNonNegative(open[1..]);
      assert open == [open[0]] + open[1..];
      SumFront(open[0], open[1..]);
      SumFront(Min(open[0], x), Allocate(open[1..], y));
    }
  }

  lemma {:induction false} AllocateConsumes(open: seq<real>, x: real)
    ensures Minus(open, Allocate(open, x)) == Consume(open, x)
  {
    if open != [] {
      var y := x - Min(open[0], x);
      AllocateConsumes(open[1..], y);
      assert Minus(open, Allocate(open, x)) == [open[0] - Min(open[0], x)] + Minus(open[1..], Allocate(open[1..], y));
    }
  }

  /** Oldest first: a sale is served only after every older open sale is served in full. */
  lemma {:induction false} AllocateOldestFirst(open: seq<real>, x: real, i: nat, j: nat)
    requires NonNegative(open) && x >= 0.0 && i < j < |open| && Allocate(open, x)[j] > 0.0
    ensures Allocate(open, x)[i] == open[i]
  {
    var y := x - Min(open[0], x);
    if i == 0 {
      if y == 0.0 { AllocateNothing(open[1..], j - 1); }
    } else {
      AllocateOldestFirst(open[1..], y, i - 1, j - 1);
    }
  }

  lemma {:induction false} AllocateNothing(open: seq<real>, j: nat)
    requires NonNegative(open) && j < |open|
    ensures Allocate(open, 0.0)[j] == 0.0
  {
    if j > 0 { AllocateNothing(open[1..], j - 1); }
  }

  /** recordNegativeStockReplacements: what each open sale is given, and whether a warning is due. */
  method RecordReplacements(open: seq<real>, oldQuantity: real, receipt: real)
    returns (given: seq<real>, incomplete: bool)
    requires NonNegative(open) && receipt >= 0.0
    ensures oldQuantity >= 0.0 ==> !incomplete && given == Allocate(open, 0.0)
    ensures oldQuantity < 0.0 ==> given == Allocate(open, Min(receipt, -oldQuantity))
    ensures oldQuantity < 0.0 && receipt > 0.0 ==> (incomplete <==> Sum(open) < Min(receipt, -oldQuantity))
  {
    var remaining := if oldQuantity >= 0.0 then 0.0 else Min(receipt, -oldQuantity);
    ghost var x := remaining;
    given := [];
    var k := 0;
    while k < |open|
      invariant 0 <= k <= |open| && remaining >= 0.0
      invariant given + Allocate(open[k..], remaining) == Allocate(open, x)
      invariant Sum(given) + remaining == x
    {
      // a row with nothing unresolved is not a candidate; no candidate is served once nothing remains
      var share := if open[k] > 0.0 && remaining > 0.0 then Min(open[k], remaining) else 0.0;
      AllocateUnfold(open, k, remaining, share);
      AppendShare(given, share, Allocate(open[k + 1..], remaining - share));
      given := given + [share];
      remaining := remaining - share;
      k := k + 1;
    }
    assert given + [] == given;
    AllocateSum(open, x); SumNonNegative(open);
    incomplete := remaining > 0.0;
  }

  lemma AllocateUnfold(open: seq<real>, k: nat, remaining: real, share: real)
    requires k < |open| && share == Min(open[k], remaining)
    ensures Allocate(open[k..], remaining) == [share] + Allocate(open[k + 1..], remaining - share)
  {
    hide Min;
    var rest := open[k..];
    assert rest[0] == open[k] && rest[1..] == open[k + 1..];
  }

  lemma AppendShare(given: seq<real>, share: real, rest: seq<real>)
    ensures (given + [share]) + rest == given + ([share] + rest)
    ensures Sum(given + [share]) == Sum(given) + share
  {
    assert (given + [share])[..|given|] == given;
  }

  // ------------------------------------------------- recomputing after a receipt

  lemma {:induction false} SumMinus(a: seq<real>, b: seq<real>)
    requires |a| == |b|
    ensures Sum(Minus(a, b)) == Sum(a) - Sum(b)
  {
    if a != [] {
      var n := |a| - 1;
      SumMinus(a[..n], b[..n]);
      var r := Minus(a, b);
      assert r[..n] == Minus(a[..n], b[..n]);
    }
  }

  lemma {:induction false} ConsumeLowers(q: seq<real>, x: real)
    requires NonNegative(q) && x >= 0.0
    ensures forall i :: 0 <= i < |q| ==> 0.0 <= Consume(q, x)[i] <= q[i]
    ensures Sum(Consume(q, x)) == Sum(q) - Min(x, Sum(q))
  {
    AllocateConsumes(q, x); AllocateBounds(q, x); AllocateSum(q, x);
    SumMinus(q, Allocate(q, x));
    var r := Consume(q, x);
    assert r == Minus(q, Allocate(q, x));
  }

  lemma AllZero(s: seq<real>)
    requires NonNegative(s) && Sum(s) == 0.0
    ensures s == seq(|s|, i => 0.0)
  {
    var z := seq(|s|, i => 0.0);
    SumZeros(|s|);
    SumOrder(z, s);
  }

  lemma {:induction false} SumZeros(n: nat)
    ensures Sum(seq(n, i => 0.0)) == 0.0
  {
    if n > 0 {
      SumZeros(n - 1);
      var z := seq(n, i => 0.0);
      assert z[..n - 1] == seq(n - 1, i => 0.0);
    }
  }

  /** A receipt changes the deficit and adds no negative sale. */
  lemma ReceiptLedger(m: seq<Movement>, x: real)
    requires x >= 0.0
    ensures var after := m + [Movement(false, x)];
      && NegativeSales(after) == NegativeSales(m) + [0.0]
      && Negatives(after) == Negatives(m) + [0.0]
      && Deficit(after) == Deficit(m) - Min(x, Deficit(m))
      && OpenSales(after) == Tail(NegativeSales(m), Deficit(m) - Min(x, Deficit(m))) + [0.0]
  {
    var after := m + [Movement(false, x)];
    assert after[..|m|] == m;
    var s := NegativeSales(after);
    assert s[..|m|] == NegativeSales(m);
  }

  /** Recomputing from the ledger after a receipt gives the old open quantities minus what the
      receipt replaced, exactly when the sales account for the deficit, or there is no negative
      sale, or the receipt closes the deficit. */
  lemma RecomputeIff(m: seq<Movement>, x: real)
    requires x > 0.0
    ensures var d, total := Deficit(m), Sum(NegativeSales(m));
      OpenSales(m + [Movement(false, x)]) == Minus(OpenSales(m), Allocate(OpenSales(m), Min(x, d))) + [0.0]
      <==> d <= total || total == 0.0 || x >= d
  {
    assert OpenSales(m) == Tail(NegativeSales(m), Deficit(m)) && Min(x, Deficit(m)) <= Deficit(m);
    var s, d, y := NegativeSales(m), Deficit(m), Min(x, Deficit(m));
    hide *;
    ReceiptLedger(m, x);
    NegativesNonNegative(m);
    OpenDeficitNonNegative(m);
    AllocateConsumes(OpenSales(m), y);
    AppendZero(Tail(s, d - y), Consume(Tail(s, d), y));
    RecomputeTail(s, d, x, y);
  }

  lemma OpenDeficitNonNegative(m: seq<Movement>)
    ensures Deficit(m) >= 0.0
  {
  }

  lemma AppendZero(a: seq<real>, b: seq<real>)
    ensures a + [0.0] == b + [0.0] <==> a == b
  {
    if a + [0.0] == b + [0.0] { assert a == (a + [0.0])[..|a|] == (b + [0.0])[..|b|] == b; }
  }

  lemma RecomputeTail(s: seq<real>, d: real, x: real, y: real)
    requires NonNegative(s) && d >= 0.0 && x > 0.0 && y == Min(x, d)
    ensures Tail(s, d - y) == Consume(Tail(s, d), y) <==> d <= Sum(s) || Sum(s) == 0.0 || x >= d
  {
    hide Tail, Consume, Sum;
    SumNonNegative(s);
    TailSum(s, d); TailSum(s, d - y);
    ConsumeLowers(Tail(s, d), y);
    if d <= Sum(s) {
      ConsumeTail(s, d, y);
    } else if Sum(s) == 0.0 || x >= d {
      AllZero(Tail(s, d - y)); AllZero(Consume(Tail(s, d), y));
    }
  }

  // -------------------------------------------------------------- whole runs

  /** A ledger grows by ordinary movements, and by receipts that also record replacements. */
  datatype Event = Post(movement: Movement) | Receive(quantity: real)

  datatype Run = Run(ledger: seq<Movement>, replaced: seq<real>)

  function Plus(a: seq<real>, b: seq<real>): (r: seq<real>)
    requires |a| == |b|
    ensures |r| == |a|
  {
    seq(|a|, i requires 0 <= i < |a| => a[i] + b[i])
  }

  /** Replacements are recorded before the receipt's own movement is written. */
  function Next(r: Run, e: Event): (r': Run)
    requires |r.replaced| == |r.ledger|
    ensures |r'.replaced| == |r'.ledger|
  {
    match e
    case Post(mv) => Run(r.ledger + [mv], r.replaced + [0.0])
    case Receive(x) =>
      var given := Allocate(OpenSales(r.ledger), Min(x, Deficit(r.ledger)));
      Run(r.ledger + [Movement(false, x)], Plus(r.replaced, given) + [0.0])
  }

  function Replay(es: seq<Event>): (r: Run)
    ensures |r.replaced| == |r.ledger|
  {
    if es == [] then Run([], []) else Next(Replay(es[..|es| - 1]), es[|es| - 1])
  }

  predicate ReceiptsNonNegative(es: seq<Event>) {
    forall i :: 0 <= i < |es| && es[i].Receive? ==> es[i].quantity >= 0.0
  }

  lemma LedgerFront(m: seq<Movement>, mv: Movement)
    requires OnlySalesDeepen(m + [mv])
    ensures OnlySalesDeepen(m)
    ensures OpenSales(m) == Fifo(m) && NonNegative(OpenSales(m))
    ensures OpenSales(m + [mv]) == Consume(OpenSales(m), Fills(Balance(m), mv.delta)) + [Deepens(Balance(m), mv.delta)]
    ensures NegativeSales(m + [mv]) == NegativeSales(m) + [Deepens(Balance(m), mv.delta)]
  {
    var after := m + [mv];
    assert after[..|m|] == m;
    var n, s := Negatives(after), NegativeSales(after);
    assert n[..|m|] == Negatives(m) && s[..|m|] == NegativeSales(m);
    QueryIsFifo(after); QueryIsFifo(m);
    NegativesNonNegative(m);
    TailSum(NegativeSales(m), Deficit(m));
  }

  ghost predicate Accounted(r: Run)
    requires |r.replaced| == |r.ledger|
  {
    var o, s := OpenSales(r.ledger), NegativeSales(r.ledger);
    |o| == |s| == |r.ledger| && forall i :: 0 <= i < |s| ==> r.replaced[i] + o[i] <= s[i]
  }

  lemma AccountedStep(replaced: seq<real>, o: seq<real>, s: seq<real>, given: seq<real>, o': seq<real>, e: real)
    requires |replaced| == |o| == |s| == |given| == |o'|
    requires forall i :: 0 <= i < |s| ==> replaced[i] + o[i] <= s[i]
    requires forall i :: 0 <= i < |s| ==> given[i] + o'[i] <= o[i]
    ensures var r2, o2, s2 := Plus(replaced, given) + [0.0], o' + [e], s + [e];
      forall i :: 0 <= i < |s2| ==> r2[i] + o2[i] <= s2[i]
  {
  }

  function EventMovement(e: Event): Movement {
    match e
    case Post(mv) => mv
    case Receive(x) => Movement(false, x)
  }

  lemma AccountedIs(r: Run, o: seq<real>, s: seq<real>)
    requires |r.replaced| == |r.ledger| == |o| == |s|
    requires OpenSales(r.ledger) == o && NegativeSales(r.ledger) == s
    requires forall i :: 0 <= i < |s| ==> r.replaced[i] + o[i] <= s[i]
    ensures Accounted(r)
  {
  }

  lemma AccountedPost(r: Run, mv: Movement)
    requires |r.replaced| == |r.ledger| && OnlySalesDeepen(r.ledger + [mv]) && Accounted(r)
    ensures Accounted(Next(r, Post(mv)))
  {
    hide OpenSales, NegativeSales, Balance, OnlySalesDeepen, Consume, Below;
    var o, s := OpenSales(r.ledger), NegativeSales(r.ledger);
    var x, e := Fills(Balance(r.ledger), mv.delta), Deepens(Balance(r.ledger), mv.delta);
    var none := seq(|o|, i => 0.0);
    assert Plus(r.replaced, none) == r.replaced;
    var after := Run(r.ledger + [mv], r.replaced + [0.0]);
    assert Next(r, Post(mv)) == after && x >= 0.0;
    assert |o| == |s| == |r.replaced| && forall i :: 0 <= i < |s| ==> r.replaced[i] + o[i] <= s[i];
    hide *;
    LedgerFront(r.ledger, mv);
    ConsumeLowers(o, x);
    AccountedStep(r.replaced, o, s, none, Consume(o, x), e);
    AccountedIs(after, Consume(o, x) + [e], s + [e]);
  }

  lemma AccountedReceive(r: Run, q: real)
    requires |r.replaced| == |r.ledger| && q >= 0.0 && OnlySalesDeepen(r.ledger + [Movement(false, q)]) && Accounted(r)
    ensures Accounted(Next(r, Receive(q)))
  {
    var mv := Movement(false, q);
    var o, s := OpenSales(r.ledger), NegativeSales(r.ledger);
    var x := Fills(Balance(r.ledger), q);
    var after := Run(r.ledger + [mv], Plus(r.replaced, Allocate(o, x)) + [0.0]);
    assert x == Min(q, Deficit(r.ledger)) && Deepens(Balance(r.ledger), q) == 0.0;
    assert Next(r, Receive(q)) == after && x >= 0.0;
    assert |o| == |s| == |r.replaced| && forall i :: 0 <= i < |s| ==> r.replaced[i] + o[i] <= s[i];
    LedgerFront(r.ledger, mv);
    AllocateConsumes(o, x);
    GivenPlusLeft(o, Allocate(o, x), Consume(o, x));
    hide *;
    AccountedStep(r.replaced, o, s, Allocate(o, x), Consume(o, x), 0.0);
    AccountedIs(after, Consume(o, x) + [0.0], s + [0.0]);
  }

  lemma GivenPlusLeft(o: seq<real>, given: seq<real>, left: seq<real>)
    requires |o| == |given| && Minus(o, given) == left
    ensures |left| == |o| && forall i :: 0 <= i < |o| ==> given[i] + left[i] <= o[i]
  {
  }

  lemma AccountedNext(r: Run, e: Event)
    requires |r.replaced| == |r.ledger| && (e.Receive? ==> e.quantity >= 0.0)
    requires OnlySalesDeepen(r.ledger + [EventMovement(e)]) && Accounted(r)
    ensures Accounted(Next(r, e))
  {
    hide OnlySalesDeepen, Accounted, Next;
    match e
    case Post(mv) => AccountedPost(r, mv);
    case Receive(q) => AccountedReceive(r, q);
  }

  /** While only sales deepen the deficit, what was replaced of a sale plus what is still open of
      it never exceeds the part of it that went below zero. */
  lemma {:induction false} NeverOverReplaced(es: seq<Event>)
    requires ReceiptsNonNegative(es) && OnlySalesDeepen(Replay(es).ledger)
    ensures Accounted(Replay(es))
  {
    if es != [] {
      var front, last := es[..|es| - 1], es[|es| - 1];
      assert Replay(es) == Next(Replay(front), last);
      assert Replay(es).ledger == Replay(front).ledger + [EventMovement(last)];
      hide Replay, Next, Accounted, OnlySalesDeepen;
      LedgerFront(Replay(front).ledger, EventMovement(last));
      NeverOverReplaced(front);
      AccountedNext(Replay(front), last);
    }
  }

  // -------------------------------------------- exactly when the bound is kept

  /** A sale is never replaced beyond the part of it that went below zero. */
  ghost predicate Bounded(r: Run)
    requires |r.replaced| == |r.ledger|
  {
    forall i :: 0 <= i < |r.ledger| ==> r.replaced[i] <= NegativeSales(r.ledger)[i]
  }

  /** What one event must meet, decided by the ledger and the replacement rows before it: a receipt
      meets sales that account for the deficit, or none, or closes the deficit; a movement that is not
      a sale re-opens nothing that was already replaced. */
  ghost predicate Meets(r: Run, e: Event)
    requires |r.replaced| == |r.ledger|
  {
    var s, d := NegativeSales(r.ledger), Deficit(r.ledger);
    match e
    case Receive(x) => x == 0.0 || d <= Sum(s) || Sum(s) == 0.0 || x >= d
    case Post(mv) => mv.sale || Fits(r.replaced, Tail(s, Deficit(r.ledger + [mv])), s)
  }

  /** Entry by entry a + b <= c. */
  ghost predicate Fits(a: seq<real>, b: seq<real>, c: seq<real>)
    requires |a| == |b| == |c|
  {
    forall i :: 0 <= i < |c| ==> a[i] + b[i] <= c[i]
  }

  lemma AccountedFits(r: Run)
    requires |r.replaced| == |r.ledger|
    ensures Accounted(r) <==> Fits(r.replaced, OpenSales(r.ledger), NegativeSales(r.ledger))
  {
    hide NegativeSales, Tail, Deficit;
  }

  lemma FitsAppend(a: seq<real>, b: seq<real>, c: seq<real>, y: real, z: real)
    requires |a| == |b| == |c|
    ensures Fits(a + [0.0], b + [y], c + [z]) <==> Fits(a, b, c) && y <= z
  {
    var a', b', c' := a + [0.0], b + [y], c + [z];
    assert forall i :: 0 <= i < |c| ==> a'[i] == a[i] && b'[i] == b[i] && c'[i] == c[i];
    assert a'[|c|] == 0.0 && b'[|c|] == y && c'[|c|] == z;
  }

  lemma {:induction false} TailMonotone(s: seq<real>, d: real, e: real)
    requires d <= e
    ensures forall i :: 0 <= i < |s| ==> Tail(s, d)[i] <= Tail(s, e)[i]
  {
    if s != [] { TailMonotone(s[..|s| - 1], d - s[|s| - 1], e - s[|s| - 1]); }
  }

  /** A movement keeps the accounts exactly when it is a sale or re-opens nothing replaced. */
  lemma PostAccountedIff(r: Run, mv: Movement)
    requires |r.replaced| == |r.ledger| && Accounted(r)
    ensures Accounted(Next(r, Post(mv))) <==> Meets(r, Post(mv))
  {
    var m, s, d' := r.ledger, NegativeSales(r.ledger), Deficit(r.ledger + [mv]);
    var a := if mv.sale then Deepens(Balance(m), mv.delta) else 0.0;
    LedgerOne(m, mv);
    PostedDeficit(m, mv);
    hide Tail, NegativeSales, Balance, Deepens, Deficit;
    AccountedFits(r); AccountedFits(Next(r, Post(mv)));
    TailOne(s, a, d');
    FitsAppend(r.replaced, Tail(s, d' - a), s, Min(a, Max(0.0, d')), a);
    if mv.sale { TailMonotone(s, d' - a, Deficit(m)); }
  }

  lemma PostedDeficit(m: seq<Movement>, mv: Movement)
    ensures Deficit(m + [mv]) - Deepens(Balance(m), mv.delta) <= Deficit(m)
  {
    LedgerOne(m, mv);
  }

  /** A movement that does not deepen the deficit always meets the condition. */
  lemma FillingMeets(r: Run, mv: Movement)
    requires |r.replaced| == |r.ledger| && Accounted(r) && Deficit(r.ledger + [mv]) <= Deficit(r.ledger)
    ensures Meets(r, Post(mv))
  {
    hide Tail, NegativeSales, Deficit;
    AccountedFits(r);
    TailMonotone(NegativeSales(r.ledger), Deficit(r.ledger + [mv]), Deficit(r.ledger));
  }

  lemma {:induction false} SumFits(a: seq<real>, b: seq<real>, c: seq<real>)
    requires |a| == |b| == |c| && Fits(a, b, c)
    ensures Sum(a) + Sum(b) <= Sum(c)
  {
    if c != [] {
      var n := |c| - 1;
      SumFits(a[..n], b[..n], c[..n]);
    }
  }

  lemma {:induction false} SumPlus(a: seq<real>, b: seq<real>)
    requires |a| == |b|
    ensures Sum(Plus(a, b)) == Sum(a) + Sum(b)
  {
    if a != [] {
      var n := |a| - 1;
      SumPlus(a[..n], b[..n]);
      assert Plus(a, b)[..n] == Plus(a[..n], b[..n]);
    }
  }

  /** What the receipt gives moves from open to replaced. */
  lemma FitsMoves(replaced: seq<real>, open: seq<real>, given: seq<real>, c: seq<real>)
    requires |replaced| == |open| == |given| == |c|
    ensures Fits(Plus(replaced, given), Minus(open, given), c) <==> Fits(replaced, open, c)
  {
  }

  /** A receipt keeps the accounts exactly when it meets sales that account for the deficit, or none,
      or closes the deficit. */
  lemma ReceiveAccountedIff(r: Run, x: real)
    requires |r.replaced| == |r.ledger| && Accounted(r) && NonNegative(r.replaced) && x > 0.0
    ensures Accounted(Next(r, Receive(x))) <==> Meets(r, Receive(x))
  {
    hide *;
    var m, s, d := r.ledger, NegativeSales(r.ledger), Deficit(r.ledger);
    var open, y := OpenSales(m), Min(x, d);
    var given, open' := Allocate(open, y), Tail(s, d - y);
    var after := Run(m + [Movement(false, x)], Plus(r.replaced, given) + [0.0]);
    ReceiveTerms(r, x);
    NegativesNonNegative(m); OpenDeficitNonNegative(m); ReceiptLedger(m, x);
    AccountedFits(r); AccountedFits(after);
    FitsAppend(Plus(r.replaced, given), open', s, 0.0, 0.0);
    AllocateConsumes(open, y);
    FitsMoves(r.replaced, open, given, s);
    RecomputeTail(s, d, x, y);
    if !(d <= Sum(s) || Sum(s) == 0.0 || x >= d) {
      ShareExceeds(r.replaced, s, d, x, given, open');
    }
  }

  lemma ReceiveTerms(r: Run, x: real)
    requires |r.replaced| == |r.ledger| && x > 0.0
    ensures var m := r.ledger; var d := Deficit(m);
      && Next(r, Receive(x)) ==
         Run(m + [Movement(false, x)], Plus(r.replaced, Allocate(OpenSales(m), Min(x, d))) + [0.0])
      && OpenSales(m) == Tail(NegativeSales(m), d)
      && (Meets(r, Receive(x)) <==> d <= Sum(NegativeSales(m)) || Sum(NegativeSales(m)) == 0.0 || x >= d)
  {
    hide Tail, NegativeSales, Deficit, Allocate, Plus, Sum;
  }

  /** Otherwise what is given plus what stays open exceeds all negative sales. */
  lemma ShareExceeds(replaced: seq<real>, s: seq<real>, d: real, x: real, given: seq<real>, left: seq<real>)
    requires |replaced| == |s| == |given| == |left| && NonNegative(s) && NonNegative(replaced)
    requires 0.0 < x < d && d > Sum(s) && Sum(s) != 0.0
    requires given == Allocate(Tail(s, d), Min(x, d)) && left == Tail(s, d - Min(x, d))
    ensures !Fits(Plus(replaced, given), left, s)
  {
    hide Tail, Allocate, Sum, Fits, Plus;
    SumNonNegative(s); SumNonNegative(replaced);
    TailSum(s, d); TailSum(s, d - x);
    AllocateSum(Tail(s, d), x);
    SumPlus(replaced, given);
    if Fits(Plus(replaced, given), left, s) { SumFits(Plus(replaced, given), left, s); }
  }

  /** One step, both kinds of event. */
  lemma StepAccountedIff(r: Run, e: Event)
    requires |r.replaced| == |r.ledger| && Accounted(r) && NonNegative(r.replaced)
    requires e.Receive? ==> e.quantity >= 0.0
    ensures Accounted(Next(r, e)) <==> Meets(r, e)
    ensures NonNegative(Next(r, e).replaced)
  {
    StepNonNegative(r, e);
    match e
    case Post(mv) => PostAccountedIff(r, mv);
    case Receive(x) =>
      if x > 0.0 {
        hide Accounted, Next;
        ReceiveAccountedIff(r, x);
      } else {
        EmptyReceipt(r);
      }
  }

  lemma StepNonNegative(r: Run, e: Event)
    requires |r.replaced| == |r.ledger| && NonNegative(r.replaced) && (e.Receive? ==> e.quantity >= 0.0)
    ensures NonNegative(Next(r, e).replaced)
  {
    if e.Receive? {
      var m := r.ledger;
      NegativesNonNegative(m); OpenDeficitNonNegative(m);
      TailBounds(NegativeSales(m), Deficit(m));
      hide Tail, NegativeSales, Deficit, Allocate;
      AllocateBounds(OpenSales(m), Min(e.quantity, Deficit(m)));
    }
  }

  lemma EmptyReceipt(r: Run)
    requires |r.replaced| == |r.ledger| && Accounted(r)
    ensures Accounted(Next(r, Receive(0.0))) && Meets(r, Receive(0.0))
  {
    hide *;
    var m := r.ledger;
    var after := Run(m + [Movement(false, 0.0)], r.replaced + [0.0]);
    ZeroReceipt(r);
    ReceiptLedger(m, 0.0);
    OpenTerms(m);
    AccountedFits(r); AccountedFits(after);
    FitsAppend(r.replaced, OpenSales(m), NegativeSales(m), 0.0, 0.0);
    ReceiptMeets(r);
  }

  lemma ZeroReceipt(r: Run)
    requires |r.replaced| == |r.ledger|
    ensures Next(r, Receive(0.0)) == Run(r.ledger + [Movement(false, 0.0)], r.replaced + [0.0])
  {
    var m := r.ledger;
    OpenDeficitNonNegative(m);
    NothingGiven(m);
    hide OpenSales, Deficit, Allocate, Plus;
    assert Min(0.0, Deficit(m)) == 0.0;
    NothingAdded(r.replaced, Allocate(OpenSales(m), 0.0));
  }

  lemma OpenTerms(m: seq<Movement>)
    ensures OpenSales(m) == Tail(NegativeSales(m), Deficit(m) - Min(0.0, Deficit(m)))
  {
    OpenDeficitNonNegative(m);
    hide Tail, NegativeSales, Deficit;
    assert Min(0.0, Deficit(m)) == 0.0;
  }

  lemma ReceiptMeets(r: Run)
    requires |r.replaced| == |r.ledger|
    ensures Meets(r, Receive(0.0))
  {
  }

  lemma NothingGiven(m: seq<Movement>)
    ensures forall i :: 0 <= i < |Allocate(OpenSales(m), 0.0)| ==> Allocate(OpenSales(m), 0.0)[i] == 0.0
  {
    NegativesNonNegative(m);
    TailBounds(NegativeSales(m), Deficit(m));
    hide Allocate, Tail, NegativeSales, Deficit;
    forall i: nat | i < |OpenSales(m)| ensures Allocate(OpenSales(m), 0.0)[i] == 0.0 {
      AllocateNothing(OpenSales(m), i);
    }
  }

  lemma NothingAdded(a: seq<real>, b: seq<real>)
    requires |a| == |b| && forall i :: 0 <= i < |b| ==> b[i] == 0.0
    ensures Plus(a, b) == a
  {
  }

  lemma PrefixReplay(es: seq<Event>, n: nat)
    requires n < |es|
    ensures Replay(es[..n + 1]) == Next(Replay(es[..n]), es[n])
  {
    assert es[..n + 1][..n] == es[..n];
  }

  lemma {:induction false} ReplacedNonNegative(es: seq<Event>)
    requires ReceiptsNonNegative(es)
    ensures NonNegative(Replay(es).replaced)
  {
    if es != [] {
      ReplacedNonNegative(es[..|es| - 1]);
      StepNonNegative(Replay(es[..|es| - 1]), es[|es| - 1]);
    }
  }

  ghost predicate AccountedAt(es: seq<Event>, k: nat)
    requires k <= |es|
  {
    Accounted(Replay(es[..k]))
  }

  ghost predicate EventMeets(es: seq<Event>, k: nat)
    requires k < |es|
  {
    Meets(Replay(es[..k]), es[k])
  }

  /** Over whole runs: every prefix is accounted for if and only if every event meets its condition. */
  lemma {:induction false} AccountedIffMeets(es: seq<Event>, n: nat)
    requires ReceiptsNonNegative(es) && n <= |es|
    ensures (forall k: nat :: k <= n ==> AccountedAt(es, k)) <==> (forall k: nat :: k < n ==> EventMeets(es, k))
  {
    hide AccountedAt, EventMeets;
    if n == 0 {
      AccountedAtStart(es);
    } else {
      AccountedIffMeets(es, n - 1);
      if AccountedAt(es, n - 1) { EventStep(es, n - 1); }
    }
  }

  lemma AccountedAtStart(es: seq<Event>)
    ensures AccountedAt(es, 0)
  {
    assert es[..0] == [];
    NothingYet();
  }

  lemma EventStep(es: seq<Event>, n: nat)
    requires ReceiptsNonNegative(es) && n < |es| && AccountedAt(es, n)
    ensures AccountedAt(es, n + 1) <==> EventMeets(es, n)
  {
    hide Accounted, Meets, Next, Replay;
    PrefixReplay(es, n);
    ReplacedNonNegative(es[..n]);
    StepAccountedIff(Replay(es[..n]), es[n]);
  }

  lemma NothingYet()
    ensures Accounted(Replay([]))
  {
  }

  /** Why the accounts matter: a state is accounted for if and only if no single receipt, of whatever
      size, can replace a sale beyond the part of it that went below zero. */
  lemma AccountedIffReceiptsSafe(r: Run)
    requires |r.replaced| == |r.ledger|
    ensures Accounted(r) <==> forall x :: x >= 0.0 ==> Bounded(Next(r, Receive(x)))
  {
    hide Accounted, Bounded;
    if Accounted(r) {
      forall x | x >= 0.0 ensures Bounded(Next(r, Receive(x))) { SafeReceipt(r, x); }
    } else {
      OpenDeficitNonNegative(r.ledger);
      FullReceipt(r);
    }
  }

  /** No receipt after the first k events can replace a sale beyond its negative part. */
  ghost predicate SafeAt(es: seq<Event>, k: nat)
    requires k <= |es|
  {
    forall x :: x >= 0.0 ==> Bounded(Next(Replay(es[..k]), Receive(x)))
  }

  /** The bound itself over whole runs: no receipt at any moment of a run can break it if and only if
      every event of the run meets its condition. */
  lemma SafeIffMeets(es: seq<Event>, n: nat)
    requires ReceiptsNonNegative(es) && n <= |es|
    ensures (forall k: nat :: k <= n ==> SafeAt(es, k)) <==> (forall k: nat :: k < n ==> EventMeets(es, k))
  {
    hide Accounted, Bounded, EventMeets, Next;
    AccountedIffMeets(es, n);
    forall k: nat | k <= n ensures SafeAt(es, k) <==> AccountedAt(es, k) {
      AccountedIffReceiptsSafe(Replay(es[..k]));
    }
    hide *;
  }

  lemma AfterReceipt(r: Run, x: real)
    requires |r.replaced| == |r.ledger| && x >= 0.0
    ensures Bounded(Next(r, Receive(x))) <==>
            Fits(r.replaced, Allocate(OpenSales(r.ledger), Min(x, Deficit(r.ledger))), NegativeSales(r.ledger))
  {
    var m, given := r.ledger, Allocate(OpenSales(r.ledger), Min(x, Deficit(r.ledger)));
    var after := Run(m + [Movement(false, x)], Plus(r.replaced, given) + [0.0]);
    assert Next(r, Receive(x)) == after by { hide OpenSales, Deficit, Allocate, Plus; }
    hide *;
    ReceiptLedger(m, x);
    BoundedIs(after, NegativeSales(m) + [0.0]);
    AtMostAppend(r.replaced, given, NegativeSales(m));
  }

  ghost predicate AtMost(a: seq<real>, b: seq<real>)
    requires |a| == |b|
  {
    forall i :: 0 <= i < |b| ==> a[i] <= b[i]
  }

  lemma BoundedIs(r: Run, s: seq<real>)
    requires |r.replaced| == |r.ledger| == |s| && NegativeSales(r.ledger) == s
    ensures Bounded(r) <==> AtMost(r.replaced, s)
  {
    hide NegativeSales;
  }

  lemma AtMostAppend(a: seq<real>, b: seq<real>, c: seq<real>)
    requires |a| == |b| == |c|
    ensures AtMost(Plus(a, b) + [0.0], c + [0.0]) <==> Fits(a, b, c)
  {
    var p, q := Plus(a, b) + [0.0], c + [0.0];
    assert forall i :: 0 <= i < |c| ==> p[i] == a[i] + b[i] && q[i] == c[i];
    assert p[|c|] == 0.0 && q[|c|] == 0.0;
  }

  lemma SafeReceipt(r: Run, x: real)
    requires |r.replaced| == |r.ledger| && Accounted(r) && x >= 0.0
    ensures Bounded(Next(r, Receive(x)))
  {
    var m := r.ledger;
    NegativesNonNegative(m); OpenDeficitNonNegative(m);
    TailBounds(NegativeSales(m), Deficit(m));
    assert NonNegative(OpenSales(m));
    hide Tail, NegativeSales, Deficit, Allocate, Bounded, Next, OpenSales;
    AccountedFits(r);
    AfterReceipt(r, x);
    AllocateBounds(OpenSales(m), Min(x, Deficit(m)));
  }

  lemma OpenWithinDeficit(m: seq<Movement>)
    ensures NonNegative(OpenSales(m)) && 0.0 <= Sum(OpenSales(m)) <= Deficit(m)
  {
    NegativesNonNegative(m); OpenDeficitNonNegative(m);
    SumNonNegative(NegativeSales(m));
    TailSum(NegativeSales(m), Deficit(m));
    hide Tail, NegativeSales, Deficit, Sum;
  }

  lemma FullReceipt(r: Run)
    requires |r.replaced| == |r.ledger| && !Accounted(r)
    ensures Deficit(r.ledger) >= 0.0 && !Bounded(Next(r, Receive(Deficit(r.ledger))))
  {
    hide Tail, NegativeSales, Deficit, Allocate, Bounded, Next, OpenSales, Sum, Accounted, Fits;
    var m := r.ledger;
    OpenWithinDeficit(m);
    AccountedFits(r);
    AfterReceipt(r, Deficit(m));
    AllocateSum(OpenSales(m), Deficit(m)); AllocateBounds(OpenSales(m), Deficit(m));
    SumOrder(Allocate(OpenSales(m), Deficit(m)), OpenSales(m));
  }

  /** One receipt replaces exactly min(receipt, deficit) while only sales deepen the deficit. */
  lemma ReceiptReplacesExactly(m: seq<Movement>, x: real)
    requires x > 0.0 && OnlySalesDeepen(m)
    ensures Sum(Allocate(OpenSales(m), Min(x, Deficit(m)))) == Min(x, Deficit(m))
  {
    QueryIsFifo(m); NegativesNonNegative(m);
    TailSum(NegativeSales(m), Deficit(m));
    AllocateSum(OpenSales(m), Min(x, Deficit(m)));
  }

  lemma ReplayOne(es: seq<Event>, e: Event, all: seq<Event>)
    requires all == es + [e]
    ensures Replay(all) == Next(Replay(es), e)
  {
    assert all[..|es|] == es;
  }

  lemma LedgerOne(m: seq<Movement>, mv: Movement)
    ensures Balance(m + [mv]) == Balance(m) + mv.delta
    ensures NegativeSales(m + [mv]) == NegativeSales(m) + [if mv.sale then Deepens(Balance(m), mv.delta) else 0.0]
  {
    assert (m + [mv])[..|m|] == m;
  }

  lemma EmptyLedger()
    ensures Balance([]) == 0.0 && NegativeSales([]) == [] && Sum([]) == 0.0
  {
  }

  lemma TailOne(s: seq<real>, a: real, d: real)
    ensures Tail(s + [a], d) == Tail(s, d - a) + [Min(a, Max(0.0, d))]
  {
    assert (s + [a])[..|s|] == s;
  }

  lemma SaleThenReceipt(m: seq<Movement>)
    requires m == [Movement(true, -5.0), Movement(false, 5.0)]
    ensures Replay([Post(Movement(true, -5.0)), Receive(5.0)]) == Run(m, [5.0, 0.0])
    ensures Balance(m) == 0.0 && NegativeSales(m) == [5.0, 0.0]
  {
    var s1, r1 := Post(Movement(true, -5.0)), Receive(5.0);
    var m1 := [Movement(true, -5.0)];
    assert Replay([]) == Run([], []) && Balance([]) == 0.0 && NegativeSales([]) == [] && Tail([], 0.0) == [];
    assert [] + m1 == m1 && m1 + [Movement(false, 5.0)] == m;
    ReplayOne([], s1, [s1]); ReplayOne([s1], r1, [s1, r1]);
    LedgerOne([], m1[0]); LedgerOne(m1, m[1]);
    assert OpenSales(m1) == [5.0] by { TailOne([], 5.0, 5.0); }
    assert Allocate([5.0], 5.0) == [5.0];
  }

  lemma ReopenedTail()
    ensures Tail([5.0, 0.0] + [0.0], 3.0) == [3.0, 0.0, 0.0]
  {
    hide Tail;
    TailOne([5.0, 0.0], 0.0, 3.0); TailOne([5.0], 0.0, 3.0); TailOne([], 5.0, 3.0);
    assert [5.0] + [0.0] == [5.0, 0.0] && [] + [5.0] == [5.0];
    NoTail(-2.0);
  }

  lemma NoTail(d: real)
    ensures Tail([], d) == []
  {
  }

  lemma AllocateThree()
    ensures Allocate([3.0, 0.0, 0.0], 3.0)[0] == 3.0
  {
  }

  lemma AdjustThenReceive(m: seq<Movement>, r: Run)
    requires m == [Movement(true, -5.0), Movement(false, 5.0)] && r == Run(m, [5.0, 0.0])
    requires Balance(m) == 0.0 && NegativeSales(m) == [5.0, 0.0]
    ensures var end := Next(Next(r, Post(Movement(false, -3.0))), Receive(3.0));
      |end.ledger| == 4 && end.replaced[0] == 8.0 && NegativeSales(end.ledger)[0] == 5.0
  {
    var a, b := Movement(false, -3.0), Movement(false, 3.0);
    var m3 := m + [a];
    LedgerOne(m, a); LedgerOne(m3, b);
    ReopenedTail();
    hide Tail, Balance, NegativeSales, Allocate;
    assert OpenSales(m3) == [3.0, 0.0, 0.0];
    AllocateThree();
  }

  /** Without the hypothesis it fails: an adjustment below zero re-opens a replaced sale. */
  lemma AdjustmentReopensSale()
    ensures var es := [Post(Movement(true, -5.0)), Receive(5.0), Post(Movement(false, -3.0)), Receive(3.0)];
      var r := Replay(es);
      |r.ledger| == 4 && r.replaced[0] == 8.0 && NegativeSales(r.ledger)[0] == 5.0
  {
    hide *;
    var s1, r1, a1, r2 := Post(Movement(true, -5.0)), Receive(5.0), Post(Movement(false, -3.0)), Receive(3.0);
    var m := [Movement(true, -5.0), Movement(false, 5.0)];
    SaleThenReceipt(m);
    ReplayOne([s1, r1], a1, [s1, r1, a1]); ReplayOne([s1, r1, a1], r2, [s1, r1, a1, r2]);
    AdjustThenReceive(m, Run(m, [5.0, 0.0]));
  }

  lemma MaskedTail(a: real, b: real, d: real)
    requires a == 0.0 && 0.0 <= b <= d
    ensures Tail([a, b], d) == [0.0, b] && Tail([a, b, 0.0], d) == [0.0, b, 0.0]
  {
    hide Tail;
    TailOne([a, b], 0.0, d); TailOne([a], b, d); TailOne([], a, d - b);
    NoTail(d - b - a);
    assert [] + [a] == [a] && [a] + [b] == [a, b] && [a, b] + [0.0] == [a, b, 0.0];
    assert Tail([a], d - b) == [Min(a, Max(0.0, d - b))] == [0.0];
  }

  lemma AllocateSecond(open: seq<real>, x: real)
    requires |open| >= 2 && open[0] == 0.0 && open[1] >= x >= 0.0
    ensures Allocate(open, x)[1] == x
  {
    assert open[1..][0] == open[1];
  }

  lemma SaleAfterAdjustment(m: seq<Movement>)
    requires m == [Movement(false, -3.0), Movement(true, -5.0)]
    ensures Replay([Post(Movement(false, -3.0)), Post(Movement(true, -5.0))]) == Run(m, [0.0, 0.0])
    ensures Balance(m) == -8.0 && NegativeSales(m) == [0.0, 5.0]
  {
    hide Replay, Balance, NegativeSales;
    var a, b := m[0], m[1];
    StartOfReplay();
    EmptyLedger();
    ReplayOne([], Post(a), [Post(a)]); ReplayOne([Post(a)], Post(b), [Post(a), Post(b)]);
    LedgerOne([], a); LedgerOne([a], b);
    assert [] + [a] == [a] && [a] + [b] == m && [] + [0.0] == [0.0];
  }

  lemma StartOfReplay()
    ensures Replay([]) == Run([], [])
  {
  }

  lemma ReceiveAt(r: Run, x: real, s: real, bal: real)
    requires |r.ledger| == |r.replaced| >= 2 && 0.0 < x <= s <= -bal && Balance(r.ledger) == bal
    requires NegativeSales(r.ledger) == [0.0, s] || NegativeSales(r.ledger) == [0.0, s, 0.0]
    ensures var n := Next(r, Receive(x));
      && n.ledger == r.ledger + [Movement(false, x)] && n.replaced[1] == r.replaced[1] + x
      && Balance(n.ledger) == bal + x && NegativeSales(n.ledger) == NegativeSales(r.ledger) + [0.0]
  {
    hide Tail, Balance, NegativeSales, Allocate;
    LedgerOne(r.ledger, Movement(false, x));
    MaskedTail(0.0, s, -bal);
    assert Deficit(r.ledger) == -bal && OpenSales(r.ledger)[1] == s;
    AllocateSecond(OpenSales(r.ledger), x);
  }

  lemma FifoOne(m: seq<Movement>, mv: Movement, bal: real, q: seq<real>, x: real, e: real)
    requires Balance(m) == bal && Fifo(m) == q && x == Fills(bal, mv.delta) && e == Deepens(bal, mv.delta)
    ensures Fifo(m + [mv]) == Consume(q, x) + [e] && Balance(m + [mv]) == bal + mv.delta
  {
    hide Consume;
    assert (m + [mv])[..|m|] == m;
  }

  lemma ConsumeTwo(a: real, b: real, x: real)
    ensures Consume([], x) == [] && Consume([a], x) == [a - Min(a, x)]
    ensures Consume([a, b], x) == [a - Min(a, x), b - Min(b, x - Min(a, x))]
  {
    assert [a][1..] == [] && [a, b][1..] == [b] && [b][1..] == [];
  }

  lemma EmptyQueue()
    ensures Fifo([]) == []
  {
  }

  /** Two movements below zero queue up, and a receipt as large as the first serves it alone. */
  lemma QueueOfTwo(a: Movement, b: Movement, u: real, v: real)
    requires u >= 0.0 && v >= 0.0 && a.delta == -u && b.delta == -v
    ensures Fifo([a, b]) == [u, v] && Balance([a, b]) == -u - v
  {
    hide Fifo, Consume, Balance;
    EmptyLedger(); EmptyQueue();
    ConsumeTwo(u, v, 0.0);
    assert [] + [a] == [a] && [a] + [b] == [a, b];
    FifoOne([], a, 0.0, [], 0.0, u);
    FifoOne([a], b, -u, [u], 0.0, v);
  }

  lemma QueueServed(m: seq<Movement>, c: Movement, u: real, v: real)
    requires u >= 0.0 && v >= 0.0 && c.delta == u && Fifo(m) == [u, v] && Balance(m) == -u - v
    ensures Fifo(m + [c]) == [0.0, v, 0.0]
  {
    hide Fifo, Consume, Balance;
    ConsumeTwo(u, v, u);
    FifoOne(m, c, -u - v, [u, v], u, 0.0);
  }

  ghost predicate QueryAgrees(m: seq<Movement>) { OpenSales(m) == SalesOf(m, Fifo(m)) }

  lemma SalesEntirelyOpen(m: seq<Movement>, bal: real)
    requires 2 <= |m| <= 3 && !m[0].sale && m[1].sale && (|m| == 3 ==> !m[2].sale)
    requires Balance(m) == bal <= -5.0 && Fifo(m)[1] == 5.0
    requires NegativeSales(m) == if |m| == 2 then [0.0, 5.0] else [0.0, 5.0, 0.0]
    ensures QueryAgrees(m)
  {
    hide Tail, Fifo, Balance, NegativeSales;
    MaskedTail(0.0, 5.0, -bal);
  }

  /** A second way to break it, with no adjustment after a receipt: the adjustment comes first, the
      query reports the queue's sale entries before both receipts, and a sale of 5 is replaced 8. */
  lemma AdjustmentBeforeSale()
    ensures var es := [Post(Movement(false, -3.0)), Post(Movement(true, -5.0)), Receive(3.0), Receive(5.0)];
      var r := Replay(es);
      && |r.ledger| == 4 && r.replaced[1] == 8.0 && NegativeSales(r.ledger)[1] == 5.0
      && QueryAgrees(r.ledger[..2]) && QueryAgrees(r.ledger[..3])
  {
    hide *;
    var a, b, c, d := Post(Movement(false, -3.0)), Post(Movement(true, -5.0)), Receive(3.0), Receive(5.0);
    var m := [Movement(false, -3.0), Movement(true, -5.0)];
    SaleAfterAdjustment(m);
    ReplayOne([a, b], c, [a, b, c]); ReplayOne([a, b, c], d, [a, b, c, d]);
    var r := Run(m, [0.0, 0.0]);
    ReceiveAt(r, 3.0, 5.0, -8.0);
    assert [0.0, 5.0] + [0.0] == [0.0, 5.0, 0.0];
    ReceiveAt(Next(r, c), 5.0, 5.0, -5.0);
    var m' := m + [Movement(false, 3.0)];
    assert m' == [m[0], m[1], Movement(false, 3.0)] && m == [m[0], m[1]];
    QueueOfTwo(m[0], m[1], 3.0, 5.0); QueueServed(m, Movement(false, 3.0), 3.0, 5.0);
    SalesEntirelyOpen(m, -8.0); SalesEntirelyOpen(m', -5.0);
    var ledger := m' + [Movement(false, 5.0)];
    assert ledger[..2] == m && ledger[..3] == m';
  }
}
