/** What the opname commands and the recount trigger do, in the fields of the rows they lock. */
module OpnameLaws {
  import opened Wrappers
  import opened Inventory

  /** The caller names a session of its own location at its current version. */
  predicate Names(st: Stock, id: nat, location: nat, expected: nat) {
    id in st.sessions && st.sessions[id].location == location && st.sessions[id].version == expected
  }

  predicate HasProduct(items: seq<Item>, product: nat) { exists k :: 0 <= k < |items| && items[k].product == product }

  /** The last quantity a list of counts gives for a product. */
  function Given(counts: seq<(nat, real)>, product: nat): Option<real> {
    if counts == [] then None
    else if counts[|counts| - 1].0 == product then Some(counts[|counts| - 1].1)
    else Given(counts[..|counts| - 1], product)
  }

  // ------------------------------------------------------------------- counts

  /** An item after a count: untouched if the count does not give its product; else with the given
      physical quantity against the balance of the moment, at the ledger position of the product's last
      movement, and its mark cleared by an explicit recount alone. */
  ghost predicate CountedAs(before: Item, after: Item, st: Stock, location: nat, given: Option<real>, recount: bool) {
    var p := Place(location, before.product);
    if given.None? then after == before
    else
      && after.product == before.product && after.recount == (before.recount && !recount)
      && after.counted.Some? && after.counted.value.physical == given.value
      && after.counted.value.system == Balance(st, p)
      && after.counted.value.variance == given.value - Balance(st, p)
      && IsLastOf(st.movements, p, after.counted.value.sequence)
  }

  /** n is the ledger position right after the last movement of a place, or 0 without any. */
  ghost predicate IsLastOf(ms: seq<Movement>, p: Place, n: nat) {
    && n <= |ms| && (n > 0 ==> ms[n - 1].place == p)
    && forall k :: n <= k < |ms| ==> ms[k].place != p
  }

  lemma {:induction false} WatermarkIsLast(ms: seq<Movement>, p: Place)
    ensures IsLastOf(ms, p, Watermark(ms, p))
  {
    if ms != [] && ms[|ms| - 1].place != p {
      WatermarkIsLast(ms[..|ms| - 1], p);
    }
  }

  lemma CountOne(st: Stock, location: nat, i: Item, physical: real, recount: bool)
    requires Inv(st)
    ensures CountedAs(i, CountItem(st.movements, location, i, physical, recount), st, location, Some(physical), recount)
  {
    WatermarkIsLast(st.movements, Place(location, i.product));
    hide Watermark, IsLastOf, Sum;
    assert Balance(st, Place(location, i.product)) == Sum(st.movements, Place(location, i.product));
  }

  ghost predicate ItemsCounted(before: seq<Item>, after: seq<Item>, st: Stock, location: nat,
                               counts: seq<(nat, real)>, recount: bool)
  {
    |after| == |before| && forall k :: 0 <= k < |before| ==>
      CountedAs(before[k], after[k], st, location, Given(counts, before[k].product), recount)
  }

  lemma CountAgain(st: Stock, location: nat, before: Item, mid: Item, given: Option<real>, physical: real,
                   recount: bool)
    requires Inv(st) && CountedAs(before, mid, st, location, given, recount)
    ensures mid.product == before.product
    ensures CountedAs(before, CountItem(st.movements, location, mid, physical, recount), st, location, Some(physical),
                      recount)
  {
    CountOne(st, location, mid, physical, recount);
    hide IsLastOf, Watermark, Sum, Inv;
  }

  lemma CountStep(st: Stock, location: nat, items: seq<Item>, mid: seq<Item>, counts: seq<(nat, real)>, at: nat,
                  product: nat, physical: real, recount: bool)
    requires Inv(st) && Distinct(items) && ItemsCounted(items, mid, st, location, counts, recount)
    requires at < |mid| && mid[at].product == product
    ensures ItemsCounted(items, mid[at := CountItem(st.movements, location, mid[at], physical, recount)], st, location,
                         counts + [(product, physical)], recount)
  {
    hide Inv, CountItem;
    var all := counts + [(product, physical)];
    assert all[..|counts|] == counts;
    var after := mid[at := CountItem(st.movements, location, mid[at], physical, recount)];
    forall k | 0 <= k < |items|
      ensures CountedAs(items[k], after[k], st, location, Given(all, items[k].product), recount)
    {
      assert CountedAs(items[k], mid[k], st, location, Given(counts, items[k].product), recount);
      assert mid[k].product == items[k].product;
      if k == at { CountAgain(st, location, items[k], mid[k], Given(counts, items[k].product), physical, recount); }
    }
  }

  ghost predicate Distinct(items: seq<Item>) {
    forall i, j :: 0 <= i < j < |items| ==> items[i].product != items[j].product
  }

  /** The item loop of a count succeeds if and only if the session has every product named, and
      counts every one of them. */
  lemma {:induction false} CountLoop(st: Stock, location: nat, items: seq<Item>, counts: seq<(nat, real)>,
      recount: bool)
    requires Inv(st) && Distinct(items)
    ensures var r := CountAll(st.movements, location, items, counts, recount);
      && (r.Some? <==> forall a :: 0 <= a < |counts| ==> HasProduct(items, counts[a].0))
      && (r.Some? ==> ItemsCounted(items, r.value, st, location, counts, recount))
  {
    hide Inv, CountItem;
    if counts != [] {
      var front := counts[..|counts| - 1];
      var (product, physical) := counts[|counts| - 1];
      CountLoop(st, location, items, front, recount);
      assert counts == front + [(product, physical)];
      var before := CountAll(st.movements, location, items, front, recount);
      if before.Some? {
        SameProducts(items, before.value, st, location, front, recount, product);
        var i := Index(before.value, product);
        if i.Some? {
          CountStep(st, location, items, before.value, front, i.value, product, physical, recount);
        }
      }
    }
  }

  lemma SameProducts(items: seq<Item>, after: seq<Item>, st: Stock, location: nat, counts: seq<(nat, real)>,
                     recount: bool, product: nat)
    requires ItemsCounted(items, after, st, location, counts, recount)
    ensures HasProduct(items, product) <==> Index(after, product).Some?
  {
    forall k | 0 <= k < |items| ensures after[k].product == items[k].product {
      assert CountedAs(items[k], after[k], st, location, Given(counts, items[k].product), recount);
    }
    hide CountedAs, Given;
    var i := Index(after, product);
    if i.Some? { assert items[i.value].product == product; }
    if HasProduct(items, product) {
      var k :| 0 <= k < |items| && items[k].product == product;
      assert after[k].product == product;
    }
  }

  /** A count is accepted if and only if it names its session and version, the session is not POSTED and
      has every product given. It then counts exactly those and puts the session to COUNTING. */
  lemma CountIff(st: Stock, c: Command)
    requires Inv(st) && c.CountOpname?
    ensures
      var id, after := c.opname, Next(st, c);
      var fits :=
        && Names(st, id, c.location, c.expected) && st.sessions[id].status != Posted
        && forall a :: 0 <= a < |c.counts| ==> HasProduct(st.sessions[id].items, c.counts[a].0);
      && (!fits ==> after == st)
      && (fits ==>
            && after.movements == st.movements && after.balances == st.balances
            && id in after.sessions && after.sessions == st.sessions[id := after.sessions[id]]
            && after.sessions[id].location == c.location && after.sessions[id].status == Counting
            && after.sessions[id].version == c.expected + 1
            && ItemsCounted(st.sessions[id].items, after.sessions[id].items, st, c.location, c.counts, c.recount))
  {
    if Names(st, c.opname, c.location, c.expected) {
      var items := st.sessions[c.opname].items;
      assert SessionInv(st.movements, st.sessions[c.opname]);
      CountLoop(st, c.location, items, c.counts, c.recount);
    }
    hide Inv, CountAll, ItemsCounted, HasProduct;
  }

  // ---------------------------------------------------------- review and post

  /** A review is accepted if and only if it names its session and version, the session is COUNTING and
      every item is counted; it changes nothing but status and version. */
  lemma ReviewIff(st: Stock, c: Command)
    requires c.ReviewOpname?
    ensures
      var fits :=
        && Names(st, c.opname, c.location, c.expected) && st.sessions[c.opname].status == Counting
        && forall k :: 0 <= k < |st.sessions[c.opname].items| ==> st.sessions[c.opname].items[k].counted.Some?;
      Next(st, c) ==
        if fits then
          var s := st.sessions[c.opname];
          st.(sessions := st.sessions[c.opname := Session(s.location, Review, s.version + 1, s.items)])
        else st
  {
  }

  /** A new session is a DRAFT at version 1 with its products uncounted and unmarked. */
  lemma CreateIff(st: Stock, c: Command)
    requires c.CreateOpname?
    ensures c.opname in st.sessions ==> Next(st, c) == st
    ensures c.opname !in st.sessions ==>
      var after := Next(st, c);
      && after.movements == st.movements && after.balances == st.balances
      && c.opname in after.sessions && after.sessions == st.sessions[c.opname := after.sessions[c.opname]]
      && var s := after.sessions[c.opname];
         && s.location == c.location && s.status == Draft && s.version == 1 && |s.items| == |c.products|
         && forall k :: 0 <= k < |s.items| ==>
              s.items[k].product == c.products[k] && s.items[k].counted == None && !s.items[k].recount
  {
  }

  /** The movement that settles one counted item. */
  predicate Settles(m: Movement, location: nat, i: Item) {
    && i.counted.Some? && m.place == Place(location, i.product) && m.delta == i.counted.value.variance != 0.0
    && (m.kind == OpnameIn <==> m.delta > 0.0) && (m.kind == OpnameOut <==> m.delta < 0.0)
  }

  ghost predicate SettlesOne(m: Movement, location: nat, items: seq<Item>) {
    exists k :: 0 <= k < |items| && Settles(m, location, items[k])
  }

  lemma {:induction false} VariancesSettle(location: nat, items: seq<Item>, a: nat)
    requires forall k :: 0 <= k < |items| ==> items[k].counted.Some?
    requires a < |Variances(location, items)|
    ensures SettlesOne(Variances(location, items)[a], location, items)
  {
    var front, last := items[..|items| - 1], items[|items| - 1];
    var ms, kept := Variances(location, items), Variances(location, front);
    if a < |kept| {
      VariancesSettle(location, front, a);
      var k :| 0 <= k < |front| && Settles(kept[a], location, front[k]);
      assert Settles(ms[a], location, items[k]);
    } else {
      assert Settles(ms[a], location, items[|items| - 1]);
    }
  }

  /** A post is accepted if and only if it names its session and version, the session is in REVIEW, every
      item is counted and none is marked for a recount. It appends movements that each settle one item,
      and together leave every product's ledger moved by its own variance. */
  lemma PostIff(st: Stock, c: Command)
    requires Inv(st) && c.PostOpname?
    ensures
      var after := Next(st, c);
      var fits :=
        && Names(st, c.opname, c.location, c.expected) && st.sessions[c.opname].status == Review
        && forall k :: 0 <= k < |st.sessions[c.opname].items| ==>
             st.sessions[c.opname].items[k].counted.Some? && !st.sessions[c.opname].items[k].recount;
      && (!fits ==> after == st)
      && (fits ==>
            var s, n := st.sessions[c.opname], |st.movements|;
            && n <= |after.movements| && after.movements[..n] == st.movements
            && c.opname in after.sessions
            && after.sessions[c.opname] == Session(s.location, Posted, s.version + 1, s.items)
            && (forall a :: n <= a < |after.movements| ==> SettlesOne(after.movements[a], c.location, s.items))
            && (forall k :: 0 <= k < |s.items| ==>
                  Sum(after.movements[n..], Place(c.location, s.items[k].product))
                  == s.items[k].counted.value.variance))
  {
    PostDone(st, c);
    PostEffect(st, c);
    hide Check, Next, Inv, Sum, SettlesOne;
    if Check(st, c).Done? { PostWrites(st, c); }
  }

  lemma PostWrites(st: Stock, c: Command)
    requires Inv(st) && c.PostOpname? && Check(st, c).Done? && c.opname in st.sessions
    ensures var after, s, n := Next(st, c), st.sessions[c.opname], |st.movements|;
      && (forall k :: 0 <= k < |s.items| ==> s.items[k].counted.Some?)
      && n <= |after.movements| && after.movements[..n] == st.movements
      && c.opname in after.sessions
      && after.sessions[c.opname] == Session(s.location, Posted, s.version + 1, s.items)
      && (forall a :: n <= a < |after.movements| ==> SettlesOne(after.movements[a], c.location, s.items))
      && (forall k :: 0 <= k < |s.items| ==>
            Sum(after.movements[n..], Place(c.location, s.items[k].product)) == s.items[k].counted.value.variance)
  {
    PostEffect(st, c);
    var s, n := st.sessions[c.opname], |st.movements|;
    var ms := Variances(c.location, s.items);
    assert SessionInv(st.movements, s);
    hide Next, Variances, RecordAll, Settles, Inv, Sum, Check, SettlesOne;
    RecordAllKeeps(st, ms);
    var after := Next(st, c);
    assert after.movements == st.movements + ms && after.movements[n..] == ms;
    forall k | 0 <= k < |s.items|
      ensures Sum(ms, Place(c.location, s.items[k].product)) == s.items[k].counted.value.variance
    {
      VarianceOf(c.location, s.items, k);
    }
    forall a | n <= a < |after.movements| ensures SettlesOne(after.movements[a], c.location, s.items) {
      VariancesSettle(c.location, s.items, a - n);
    }
  }

  lemma PostDone(st: Stock, c: Command)
    requires c.PostOpname?
    ensures Check(st, c).Done? <==>
      && Names(st, c.opname, c.location, c.expected) && st.sessions[c.opname].status == Review
      && forall k :: 0 <= k < |st.sessions[c.opname].items| ==>
           st.sessions[c.opname].items[k].counted.Some? && !st.sessions[c.opname].items[k].recount
  {
  }

  // -------------------------------------------------------------- the trigger

  /** A movement marks exactly the uncounted items of its product in COUNTING sessions of its location,
      and leaves everything else of every session as it was. */
  lemma MovementMarks(st: Stock, m: Movement, id: nat)
    requires id in st.sessions
    ensures var s, after := st.sessions[id], Record(st, m).sessions;
      && after.Keys == st.sessions.Keys && after[id].location == s.location && after[id].status == s.status
      && after[id].version == s.version && |after[id].items| == |s.items|
      && forall k :: 0 <= k < |s.items| ==>
           var i, j := s.items[k], after[id].items[k];
           && j.product == i.product && j.counted == i.counted
           && (j.recount <==>
                 i.recount
                 || (s.status == Counting && s.location == m.place.location && i.product == m.place.product
                     && i.counted.None?))
  {
  }

  /** Some item of the session's product is marked, and the session is not posted. */
  ghost predicate Marked(st: Stock, id: nat, product: nat) {
    id in st.sessions && st.sessions[id].status != Posted
    && exists k :: 0 <= k < |st.sessions[id].items| && MarkedItem(st.sessions[id].items[k], product)
  }

  predicate MarkedItem(i: Item, product: nat) { i.product == product && i.recount }

  /** An explicit recount of the product in that session. */
  predicate Recounts(c: Command, id: nat, product: nat) {
    c.CountOpname? && c.opname == id && c.recount && exists a :: 0 <= a < |c.counts| && c.counts[a].0 == product
  }

  lemma {:induction false} RecordsKeepMark(st: Stock, ms: seq<Movement>, id: nat, product: nat)
    requires Marked(st, id, product)
    ensures Marked(RecordAll(st, ms), id, product)
  {
    if ms != [] {
      var before, m := RecordAll(st, ms[..|ms| - 1]), ms[|ms| - 1];
      RecordsKeepMark(st, ms[..|ms| - 1], id, product);
      MovementMarks(before, m, id);
      var k :| 0 <= k < |before.sessions[id].items| && MarkedItem(before.sessions[id].items[k], product);
      assert MarkedItem(Record(before, m).sessions[id].items[k], product);
    }
  }

  lemma {:induction false} NotGiven(counts: seq<(nat, real)>, product: nat)
    requires forall a :: 0 <= a < |counts| ==> counts[a].0 != product
    ensures Given(counts, product).None?
  {
    if counts != [] { NotGiven(counts[..|counts| - 1], product); }
  }

  lemma CountKeepsMark(st: Stock, c: Command, id: nat, product: nat)
    requires Inv(st) && Marked(st, id, product) && c.CountOpname? && !Recounts(c, id, product)
    ensures Marked(Next(st, c), id, product)
  {
    CountIff(st, c);
    var after := Next(st, c);
    hide Next, Inv;
    if after != st && c.opname == id {
      var before, now := st.sessions[id].items, after.sessions[id].items;
      var k :| 0 <= k < |before| && MarkedItem(before[k], product);
      assert CountedAs(before[k], now[k], st, c.location, Given(c.counts, product), c.recount);
      if c.recount { NotGiven(c.counts, product); }
      assert MarkedItem(now[k], product);
    }
  }

  lemma PostKeepsMark(st: Stock, c: Command, id: nat, product: nat)
    requires Marked(st, id, product) && c.PostOpname?
    ensures Marked(Next(st, c), id, product)
  {
    PostEffect(st, c);
    var k :| 0 <= k < |st.sessions[id].items| && MarkedItem(st.sessions[id].items[k], product);
    if Check(st, c).Done? {
      assert c.opname != id;
      var ms := Variances(c.location, st.sessions[c.opname].items);
      hide Check, Next, Variances, RecordAll;
      RecordsKeepMark(st, ms, id, product);
    }
  }

  lemma StepKeepsMark(st: Stock, c: Command, id: nat, product: nat)
    requires Inv(st) && Marked(st, id, product) && !Recounts(c, id, product)
    ensures Marked(Next(st, c), id, product)
  {
    match c
    case Move(ms) => RecordsKeepMark(st, ms, id, product);
    case CreateOpname(_, _, _) => CreateIff(st, c); hide Next;
    case CountOpname(_, _, _, _, _) => CountKeepsMark(st, c, id, product);
    case ReviewOpname(_, _, _) => ReviewIff(st, c); hide Next;
    case PostOpname(_, _, _) => PostKeepsMark(st, c, id, product);
  }

  /** Once an item is marked, its session is never posted before an explicit recount of its product,
      whatever else is moved, counted, reviewed and posted in between. */
  lemma {:induction false} MarkedNeverPosts(st: Stock, cs: seq<Command>, id: nat, product: nat)
    requires Inv(st) && Marked(st, id, product) && forall i :: 0 <= i < |cs| ==> Readable(cs[i])
    requires forall i :: 0 <= i < |cs| ==> !Recounts(cs[i], id, product)
    ensures Marked(Run(st, cs), id, product)
  {
    hide Marked, Recounts, Inv, Next, Readable;
    if cs != [] {
      var front := cs[..|cs| - 1];
      MarkedNeverPosts(st, front, id, product);
      RunKeeps(st, front);
      StepKeepsMark(Run(st, front), cs[|cs| - 1], id, product);
    }
  }
}
