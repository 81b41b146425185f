/** The change feed: server pages, their application at the POS and the pull loop. */
module ChangeFeed {
  import opened Wrappers

  datatype Entity =
    | Authorization | Barcode | PaymentMethod | Product | ProductUnit | Promotion | PublishedRetailPrice | StockBalance
    | CashMovement | CashShift | SalesTransaction | Unsupported(name: string)

  datatype Payload = Quantity(location: nat, amount: real) | Document(text: string)

  /** One row of sync.change_feed. */
  datatype Row = Row(
    sequence: nat, business: nat, location: Option<nat>, entity: Entity, isEvent: bool, id: nat, payload: Payload)

  datatype Scope = Scope(business: nat, location: nat)

  datatype Page = Page(changes: seq<Row>, hasMore: bool, nextCursor: nat)

  /** The key a row is put under: projections by entity, observed events by sequence. */
  datatype Key = Projection(entity: Entity, id: nat) | Observed(sequence: nat)

  type Values = map<Key, Payload>

  // ------------------------------------------------------------------ server

  predicate InScope(r: Row, sc: Scope) {
    r.business == sc.business && (r.location.None? || r.location.value == sc.location)
  }

  predicate Supported(r: Row) {
    if r.isEvent then r.entity == CashMovement || r.entity == CashShift || r.entity == SalesTransaction
    else !r.entity.Unsupported? && r.entity != CashMovement && r.entity != CashShift && r.entity != SalesTransaction
  }

  /** The visible rows of the table, by sequence. */
  ghost predicate Ordered(rows: seq<Row>) {
    forall i, j :: 0 <= i < j < |rows| ==> rows[i].sequence < rows[j].sequence
  }

  /** Rows in scope with lo < sequence <= hi, in order. */
  function Between(feed: seq<Row>, sc: Scope, lo: nat, hi: nat): seq<Row> {
    if feed == [] then []
    else
      var r := feed[|feed| - 1];
      Between(feed[..|feed| - 1], sc, lo, hi) + if InScope(r, sc) && lo < r.sequence <= hi then [r] else []
  }

  /** Rows in scope with sequence > lo, in order: the query of pull without its LIMIT. */
  function Above(feed: seq<Row>, sc: Scope, lo: nat): seq<Row> {
    if feed == [] then []
    else
      var r := feed[|feed| - 1];
      Above(feed[..|feed| - 1], sc, lo) + if InScope(r, sc) && lo < r.sequence then [r] else []
  }

  function Visible(rows: seq<Row>): seq<Row> {
    if rows == [] then []
    else Visible(rows[..|rows| - 1]) + if Supported(rows[|rows| - 1]) then [rows[|rows| - 1]] else []
  }

  function Take(rows: seq<Row>, n: nat): seq<Row> { if n < |rows| then rows[..n] else rows }

  /** pull: reads limit + 1 rows to learn whether there are more. */
  function Pull(feed: seq<Row>, sc: Scope, cursor: nat, limit: nat): Page
    requires limit > 0
  {
    var rows := Take(Above(feed, sc, cursor), limit + 1);
    var hasMore := |rows| > limit;
    var selected := if hasMore then rows[..limit] else rows;
    Page(Visible(selected), hasMore, if selected == [] then cursor else selected[|selected| - 1].sequence)
  }

  // --------------------------------------------------------------------- POS

  function KeyOf(r: Row): Key { if r.isEvent then Observed(r.sequence) else Projection(r.entity, r.id) }

  function Put(v: Values, r: Row): Values { v[KeyOf(r) := r.payload] }

  function Replay(v: Values, rows: seq<Row>): Values {
    if rows == [] then v else Put(Replay(v, rows[..|rows| - 1]), rows[|rows| - 1])
  }

  datatype Apply = Applied(values: Values, cursor: nat) | CursorMismatch | InvalidInput

  /** applyProjectionPage: all of the page together with its cursor, or nothing. */
  function ApplyPage(v: Values, current: nat, business: nat, expected: nat, page: Page): Apply {
    if page.nextCursor < expected then InvalidInput
    else if exists i, j :: 0 <= i < j < |page.changes| && page.changes[i].sequence == page.changes[j].sequence then
      InvalidInput
    else if current != expected then CursorMismatch
    else if exists i :: 0 <= i < |page.changes| && !AcceptedChange(page.changes[i], business, expected, page.nextCursor)
    then InvalidInput
    else Applied(Replay(v, page.changes), page.nextCursor)
  }

  predicate AcceptedChange(r: Row, business: nat, lo: nat, hi: nat) { lo < r.sequence <= hi && r.business == business }

  /** A page is applied if and only if it starts at the device's cursor, does not move it back, repeats no
      sequence, and holds only rows of the business in the range it moves over. */
  lemma AppliedIff(v: Values, current: nat, business: nat, expected: nat, page: Page)
    ensures ApplyPage(v, current, business, expected, page).Applied? <==>
      && current == expected <= page.nextCursor
      && (forall i :: 0 <= i < |page.changes| ==>
            page.changes[i].business == business && expected < page.changes[i].sequence <= page.nextCursor)
      && (forall i, j :: 0 <= i < j < |page.changes| ==> page.changes[i].sequence != page.changes[j].sequence)
    ensures ApplyPage(v, current, business, expected, page).Applied? ==>
      ApplyPage(v, current, business, expected, page).cursor == page.nextCursor
  {
    assert forall i :: 0 <= i < |page.changes| ==>
      (AcceptedChange(page.changes[i], business, expected, page.nextCursor) <==>
       page.changes[i].business == business && expected < page.changes[i].sequence <= page.nextCursor);
  }

  // ------------------------------------------------------------------ ranges

  lemma {:induction false} AboveFacts(feed: seq<Row>, sc: Scope, lo: nat)
    requires Ordered(feed)
    ensures Ordered(Above(feed, sc, lo))
    ensures forall r :: r in Above(feed, sc, lo) <==> r in feed && InScope(r, sc) && lo < r.sequence
  {
    if feed != [] {
      var front, last := feed[..|feed| - 1], feed[|feed| - 1];
      AboveFacts(front, sc, lo);
      assert feed == front + [last];
    }
  }

  lemma {:induction false} BetweenFacts(feed: seq<Row>, sc: Scope, lo: nat, hi: nat)
    requires Ordered(feed)
    ensures Ordered(Between(feed, sc, lo, hi))
    ensures forall r :: r in Between(feed, sc, lo, hi) <==> r in feed && InScope(r, sc) && lo < r.sequence <= hi
  {
    if feed != [] {
      var front, last := feed[..|feed| - 1], feed[|feed| - 1];
      BetweenFacts(front, sc, lo, hi);
      assert feed == front + [last];
    }
  }

  lemma {:induction false} VisibleFacts(rows: seq<Row>)
    requires Ordered(rows)
    ensures Ordered(Visible(rows))
    ensures forall r :: r in Visible(rows) <==> r in rows && Supported(r)
  {
    if rows != [] {
      var front, last := rows[..|rows| - 1], rows[|rows| - 1];
      VisibleFacts(front);
      assert rows == front + [last];
      var v := Visible(front);
      forall i | 0 <= i < |v| ensures v[i].sequence < last.sequence {
        assert v[i] in v && v[i] in front;
      }
    }
  }

  lemma HasRow(a: seq<Row>)
    ensures a == [] || exists r :: r in a
  {
    if a != [] { assert a[0] in a; }
  }

  /** Ordered rows are determined by which rows they hold. */
  lemma {:induction false} SameRows(a: seq<Row>, b: seq<Row>)
    requires Ordered(a) && Ordered(b)
    requires forall r :: r in a <==> r in b
    ensures a == b
  {
    if a == [] || b == [] {
      HasRow(a); HasRow(b);
    } else {
      var x, y := a[|a| - 1], b[|b| - 1];
      assert x in b && y in a;
      assert x == y;
      var c, d := a[..|a| - 1], b[..|b| - 1];
      forall r ensures r in c <==> r in d { InFront(a, c, r); InFront(b, d, r); }
      SameRows(c, d);
      assert a == c + [x] && b == d + [y];
    }
  }

  lemma InFront(a: seq<Row>, front: seq<Row>, r: Row)
    requires a != [] && Ordered(a) && front == a[..|a| - 1]
    ensures r in front <==> r in a && r != a[|a| - 1]
  {
    if r in front {
      var i :| 0 <= i < |a| - 1 && a[i] == r;
    }
  }

  /** What a page carries: the supported rows of exactly the range its cursor advances over. */
  lemma PageIsRange(feed: seq<Row>, sc: Scope, cursor: nat, limit: nat)
    requires Ordered(feed) && limit > 0
    ensures var page := Pull(feed, sc, cursor, limit);
      && page.nextCursor >= cursor
      && page.changes == Visible(Between(feed, sc, cursor, page.nextCursor))
      && (page.nextCursor > cursor ==> exists r :: r in feed && r.sequence == page.nextCursor)
  {
    var page, above := Pull(feed, sc, cursor, limit), Above(feed, sc, cursor);
    var n := if |above| > limit then limit else |above|;
    var selected := above[..n];
    AboveFacts(feed, sc, cursor);
    assert page.changes == Visible(selected) by {
      assert n < |above| || selected == above;
      SelectedIsPrefix(above, limit);
    }
    BetweenFacts(feed, sc, cursor, page.nextCursor);
    if n > 0 { assert above[n - 1] in above; }
    hide Above, Between, Visible;
    PrefixRows(above, n, page.nextCursor);
    SameRows(selected, Between(feed, sc, cursor, page.nextCursor));
  }

  lemma SelectedIsPrefix(above: seq<Row>, limit: nat)
    ensures var rows := Take(above, limit + 1); var n := if |above| > limit then limit else |above|;
      (if |rows| > limit then rows[..limit] else rows) == above[..n]
  {
  }

  /** The first n of ordered rows are those up to the n-th sequence. */
  lemma PrefixRows(a: seq<Row>, n: nat, hi: nat)
    requires Ordered(a) && n <= |a| && (n > 0 ==> hi == a[n - 1].sequence)
    requires n == 0 ==> forall r :: r in a ==> hi < r.sequence
    ensures Ordered(a[..n])
    ensures forall r :: r in a[..n] <==> r in a && r.sequence <= hi
  {
    forall r | r in a && r.sequence <= hi ensures r in a[..n] {
      var i :| 0 <= i < |a| && a[i] == r;
      assert i < n;
    }
  }

  /** has_more means strict progress, and what remains shrinks by at least one row; without it
      nothing in scope remains. */
  lemma PageProgress(feed: seq<Row>, sc: Scope, cursor: nat, limit: nat)
    requires Ordered(feed) && limit > 0
    ensures var page := Pull(feed, sc, cursor, limit);
      && (page.hasMore ==> page.nextCursor > cursor
                           && |Above(feed, sc, page.nextCursor)| + limit == |Above(feed, sc, cursor)|)
      && (!page.hasMore ==> Above(feed, sc, page.nextCursor) == [])
  {
    hide Pull, Above, InScope;
    var page, above := Pull(feed, sc, cursor, limit), Above(feed, sc, cursor);
    var n := if |above| > limit then limit else |above|;
    PullTerms(feed, sc, cursor, limit);
    AboveFacts(feed, sc, cursor);
    AboveFacts(feed, sc, page.nextCursor);
    if n > 0 { assert above[n - 1] in above; }
    SuffixRows(above, n, page.nextCursor);
    var rest, later := above[n..], Above(feed, sc, page.nextCursor);
    assert forall r :: r in rest <==> r in later;
    hide Ordered;
    SameRows(rest, later);
  }

  /** A page in terms of the rows above its cursor. */
  lemma PullTerms(feed: seq<Row>, sc: Scope, cursor: nat, limit: nat)
    requires limit > 0
    ensures var page, above := Pull(feed, sc, cursor, limit), Above(feed, sc, cursor);
      var n := if |above| > limit then limit else |above|;
      && (page.hasMore <==> |above| > limit) && page.changes == Visible(above[..n])
      && page.nextCursor == if n == 0 then cursor else above[n - 1].sequence
  {
    hide Above, Visible;
    SelectedIsPrefix(Above(feed, sc, cursor), limit);
  }

  lemma SuffixRows(a: seq<Row>, n: nat, hi: nat)
    requires Ordered(a) && n <= |a| && (n > 0 ==> hi == a[n - 1].sequence)
    requires n == 0 ==> forall r :: r in a ==> hi < r.sequence
    ensures Ordered(a[n..])
    ensures forall r :: r in a[n..] <==> r in a && hi < r.sequence
  {
    forall r | r in a && hi < r.sequence ensures r in a[n..] {
      var i :| 0 <= i < |a| && a[i] == r;
      assert i >= n && a[n..][i - n] == r;
    }
  }

  /** A row of the business that is addressed to all of it or to the location. */
  ghost predicate AddressedTo(r: Row, sc: Scope) {
    r.business == sc.business && r.location in {None, Some(sc.location)}
  }

  /** A row the POS is sent: an event of three entities, or a projection of eight. */
  ghost predicate Published(r: Row) {
    || (r.isEvent && r.entity in {CashMovement, CashShift, SalesTransaction})
    || (!r.isEvent && r.entity in {Authorization, Barcode, PaymentMethod, Entity.Product, ProductUnit, Promotion,
                                   PublishedRetailPrice, StockBalance})
  }

  lemma RowInFields(r: Row, sc: Scope)
    ensures InScope(r, sc) <==> AddressedTo(r, sc)
    ensures Supported(r) <==> Published(r)
  {
  }

  /** A page in the fields of the feed's rows: it carries exactly the published rows of its range that
      are addressed to the scope. Its cursor stops at a row addressed to the scope, and has_more
      tells whether one is left above it. */
  lemma PageServes(feed: seq<Row>, sc: Scope, cursor: nat, limit: nat)
    requires Ordered(feed) && limit > 0
    ensures var page := Pull(feed, sc, cursor, limit);
      && (forall r :: r in page.changes <==>
            r in feed && cursor < r.sequence <= page.nextCursor && AddressedTo(r, sc) && Published(r))
      && (page.nextCursor != cursor ==>
            page.nextCursor > cursor && exists r :: r in feed && r.sequence == page.nextCursor && AddressedTo(r, sc))
      && (page.hasMore <==> exists r :: r in feed && page.nextCursor < r.sequence && AddressedTo(r, sc))
  {
    hide *;
    var page := Pull(feed, sc, cursor, limit);
    forall r ensures InScope(r, sc) <==> AddressedTo(r, sc) ensures Supported(r) <==> Published(r) {
      RowInFields(r, sc);
    }
    PageIsRange(feed, sc, cursor, limit);
    BetweenFacts(feed, sc, cursor, page.nextCursor);
    VisibleFacts(Between(feed, sc, cursor, page.nextCursor));
    CursorStops(feed, sc, cursor, limit);
  }

  lemma CursorStops(feed: seq<Row>, sc: Scope, cursor: nat, limit: nat)
    requires Ordered(feed) && limit > 0
    ensures var page := Pull(feed, sc, cursor, limit);
      && (page.nextCursor != cursor ==>
            page.nextCursor > cursor && exists r :: r in feed && r.sequence == page.nextCursor && InScope(r, sc))
      && (page.hasMore <==> exists r :: r in feed && page.nextCursor < r.sequence && InScope(r, sc))
  {
    hide *;
    var page, above := Pull(feed, sc, cursor, limit), Above(feed, sc, cursor);
    PageProgress(feed, sc, cursor, limit);
    PullTerms(feed, sc, cursor, limit);
    AboveFacts(feed, sc, page.nextCursor); AboveFacts(feed, sc, cursor);
    HasRow(Above(feed, sc, page.nextCursor));
    var n := if |above| > limit then limit else |above|;
    if n > 0 { assert above[n - 1] in above; }
  }

  lemma {:induction false} SplitRange(feed: seq<Row>, sc: Scope, lo: nat, mid: nat, hi: nat)
    requires Ordered(feed) && lo <= mid <= hi
    ensures Between(feed, sc, lo, hi) == Between(feed, sc, lo, mid) + Between(feed, sc, mid, hi)
  {
    if feed != [] {
      var front, r := feed[..|feed| - 1], feed[|feed| - 1];
      SplitRange(front, sc, lo, mid, hi);
      if r.sequence <= mid { NothingAbove(front, sc, mid, hi); }
    }
  }

  lemma {:induction false} NothingAbove(feed: seq<Row>, sc: Scope, lo: nat, hi: nat)
    requires forall i :: 0 <= i < |feed| ==> feed[i].sequence <= lo
    ensures Between(feed, sc, lo, hi) == []
  {
    if feed != [] { NothingAbove(feed[..|feed| - 1], sc, lo, hi); }
  }

  lemma {:induction false} EmptyRange(feed: seq<Row>, sc: Scope, c: nat)
    ensures Between(feed, sc, c, c) == []
  {
    if feed != [] { EmptyRange(feed[..|feed| - 1], sc, c); }
  }

  lemma {:induction false} VisibleConcat(a: seq<Row>, b: seq<Row>)
    ensures Visible(a + b) == Visible(a) + Visible(b)
  {
    if b == [] {
      assert a + b == a;
    } else {
      VisibleConcat(a, b[..|b| - 1]);
      assert (a + b)[..|a + b| - 1] == a + b[..|b| - 1];
    }
  }

  lemma {:induction false} ReplayConcat(v: Values, a: seq<Row>, b: seq<Row>)
    ensures Replay(v, a + b) == Replay(Replay(v, a), b)
  {
    if b == [] {
      assert a + b == a;
    } else {
      ReplayConcat(v, a, b[..|b| - 1]);
      assert (a + b)[..|a + b| - 1] == a + b[..|b| - 1];
    }
  }

  /** The cache a device must hold at a cursor: the start values overlaid by the visible rows. */
  function CacheAt(base: Values, feed: seq<Row>, sc: Scope, lo: nat, hi: nat): Values {
    Replay(base, Visible(Between(feed, sc, lo, hi)))
  }

  /** Which key a row is put under. */
  ghost predicate Writes(r: Row, k: Key) {
    match k
    case Projection(entity, id) => !r.isEvent && r.entity == entity && r.id == id
    case Observed(sequence) => r.isEvent && r.sequence == sequence
  }

  lemma PutWrites(v: Values, r: Row, k: Key)
    ensures Writes(r, k) ==> k in Put(v, r) && Put(v, r)[k] == r.payload
    ensures !Writes(r, k) ==> (k in Put(v, r) <==> k in v) && (k in v ==> Put(v, r)[k] == v[k])
  {
  }

  /** No row from position i on writes the key. */
  ghost predicate NotWritten(rows: seq<Row>, i: nat, k: Key) {
    forall j :: i <= j < |rows| ==> !Writes(rows[j], k)
  }

  /** Applying rows keeps a key that none of them writes ... */
  lemma {:induction false} UnwrittenStays(v: Values, rows: seq<Row>, k: Key)
    requires NotWritten(rows, 0, k)
    ensures (k in Replay(v, rows) <==> k in v) && (k in v ==> Replay(v, rows)[k] == v[k])
  {
    if rows != [] {
      var front, r := rows[..|rows| - 1], rows[|rows| - 1];
      UnwrittenStays(v, front, k);
      hide Put, Writes;
      PutWrites(Replay(v, front), r, k);
    }
  }

  /** ... and leaves under every other key the payload of the last row that writes it. */
  lemma {:induction false} LastWriteWins(v: Values, rows: seq<Row>, i: nat, k: Key)
    requires i < |rows| && Writes(rows[i], k) && NotWritten(rows, i + 1, k)
    ensures k in Replay(v, rows) && Replay(v, rows)[k] == rows[i].payload
  {
    hide Put, Writes;
    var front, r := rows[..|rows| - 1], rows[|rows| - 1];
    PutWrites(Replay(v, front), r, k);
    if i < |front| { LastWriteWins(v, front, i, k); }
  }

  lemma CacheExtends(base: Values, feed: seq<Row>, sc: Scope, lo: nat, mid: nat, hi: nat)
    requires Ordered(feed) && lo <= mid <= hi
    ensures CacheAt(base, feed, sc, lo, hi) == CacheAt(CacheAt(base, feed, sc, lo, mid), feed, sc, mid, hi)
  {
    SplitRange(feed, sc, lo, mid, hi);
    VisibleConcat(Between(feed, sc, lo, mid), Between(feed, sc, mid, hi));
    ReplayConcat(base, Visible(Between(feed, sc, lo, mid)), Visible(Between(feed, sc, mid, hi)));
  }

  // ------------------------------------------------------ ordered visibility

  /** The hypothesis on visibility: a reader who sees some row sees every row with a smaller
      sequence, so what a request sees is a prefix of the feed. */
  ghost predicate OrderedVisibility(snapshot: seq<Row>, feed: seq<Row>) { snapshot <= feed }

  /** A later feed shows the same rows up to any sequence the snapshot had reached. */
  lemma {:induction false} StableRange(snapshot: seq<Row>, feed: seq<Row>, sc: Scope, lo: nat, hi: nat)
    requires Ordered(feed) && OrderedVisibility(snapshot, feed)
    requires lo == hi || exists r :: r in snapshot && hi <= r.sequence
    ensures Between(feed, sc, lo, hi) == Between(snapshot, sc, lo, hi)
  {
    if lo == hi {
      EmptyRange(feed, sc, lo); EmptyRange(snapshot, sc, lo);
    } else if |feed| == |snapshot| {
      assert feed == snapshot;
    } else {
      var front := feed[..|feed| - 1];
      assert snapshot <= front;
      StableRange(snapshot, front, sc, lo, hi);
      var r :| r in snapshot && hi <= r.sequence;
      var i :| 0 <= i < |snapshot| && snapshot[i] == r;
      assert feed[i] == r;
    }
  }

  /** Exactly when a served page is complete: it carries the feed's own supported rows of the range it
      advances over if and only if every one of them was visible to the request. */
  lemma PageCompleteIff(snapshot: seq<Row>, feed: seq<Row>, sc: Scope, cursor: nat, limit: nat)
    requires Ordered(feed) && Ordered(snapshot) && limit > 0 && forall r :: r in snapshot ==> r in feed
    ensures var page := Pull(snapshot, sc, cursor, limit);
      page.changes == Visible(Between(feed, sc, cursor, page.nextCursor)) <==>
      forall r :: r in feed && InScope(r, sc) && Supported(r) && cursor < r.sequence <= page.nextCursor ==>
        r in snapshot
  {
    var page := Pull(snapshot, sc, cursor, limit);
    PageIsRange(snapshot, sc, cursor, limit);
    var mine, all := Between(snapshot, sc, cursor, page.nextCursor), Between(feed, sc, cursor, page.nextCursor);
    BetweenFacts(snapshot, sc, cursor, page.nextCursor); BetweenFacts(feed, sc, cursor, page.nextCursor);
    VisibleFacts(mine); VisibleFacts(all);
    hide Pull, Between, Visible, InScope, Supported;
    if forall r :: r in feed && InScope(r, sc) && Supported(r) && cursor < r.sequence <= page.nextCursor ==>
      r in snapshot {
      SameRows(Visible(mine), Visible(all));
    } else {
      var r :| r in feed && InScope(r, sc) && Supported(r) && cursor < r.sequence <= page.nextCursor && r !in snapshot;
      assert r in Visible(all) && r !in Visible(mine);
    }
  }

  /** A row that becomes visible below a served cursor is in no later page. */
  lemma LateRowIsSkipped(feed: seq<Row>, sc: Scope, late: Row, cursor: nat, limit: nat)
    requires Ordered(feed) && limit > 0 && late.sequence <= cursor
    ensures late !in Pull(feed, sc, cursor, limit).changes
  {
    var page := Pull(feed, sc, cursor, limit);
    PageIsRange(feed, sc, cursor, limit);
    BetweenFacts(feed, sc, cursor, page.nextCursor);
    VisibleFacts(Between(feed, sc, cursor, page.nextCursor));
  }

  lemma OneRow(r: Row, sc: Scope, lo: nat, hi: nat)
    requires InScope(r, sc) && Supported(r) && lo < r.sequence <= hi
    ensures Above([r], sc, lo) == [r] && Between([r], sc, lo, hi) == [r] && Visible([r]) == [r]
  {
    assert [r][..0] == [];
  }

  lemma TwoRows(a: Row, b: Row, sc: Scope, lo: nat, hi: nat)
    requires InScope(a, sc) && Supported(a) && lo < a.sequence <= hi
    requires InScope(b, sc) && Supported(b) && lo < b.sequence <= hi
    ensures Between([a, b], sc, lo, hi) == [a, b] && Visible([a, b]) == [a, b]
  {
    OneRow(a, sc, lo, hi);
    assert [a, b][..1] == [a] && [a] + [b] == [a, b];
  }

  lemma ReplayFew(v: Values, a: Row, b: Row)
    ensures Replay(v, [b]) == Put(v, b) && Replay(v, [a, b]) == Put(Put(v, a), b)
  {
    assert [b][..0] == [] && [a, b][..1] == [a] && [a][..0] == [];
    assert Replay(v, [a]) == Put(v, a);
  }

  /** A row that commits after a later one was pulled: the cache at that cursor lacks it, and
      pulling on never brings it. */
  lemma SequenceGapLosesRow(sc: Scope, one: Row, two: Row, base: Values, cursor: nat, limit: nat)
    requires InScope(one, sc) && Supported(one) && InScope(two, sc) && Supported(two) && limit > 0
    requires cursor < one.sequence < two.sequence && KeyOf(one) != KeyOf(two) && KeyOf(one) !in base
    ensures var page := Pull([two], sc, cursor, limit); var pulled := Replay(base, page.changes);
      && Ordered([one, two]) && page.nextCursor == two.sequence
      && Drain(pulled, page.nextCursor, [one, two], sc, limit) == (pulled, page.nextCursor)
      && KeyOf(one) !in pulled && KeyOf(one) in CacheAt(base, [one, two], sc, cursor, page.nextCursor)
  {
    hide Replay, Between, Put, Pull, Above, InScope, Supported, KeyOf;
    var feed, last := [one, two], two.sequence;
    PullOne(two, sc, cursor, limit);
    PullNothing(feed, sc, last, limit);
    TwoRows(one, two, sc, cursor, last);
    ReplayFew(base, one, two);
    PutKeys(base, one, two);
    EmptyReplay(Put(base, two));
  }

  lemma PullOne(r: Row, sc: Scope, cursor: nat, limit: nat)
    requires InScope(r, sc) && Supported(r) && cursor < r.sequence && limit > 0
    ensures Pull([r], sc, cursor, limit) == Page([r], false, r.sequence)
  {
    OneRow(r, sc, cursor, r.sequence);
    hide Above, Visible;
  }

  lemma PullNothing(feed: seq<Row>, sc: Scope, cursor: nat, limit: nat)
    requires Ordered(feed) && limit > 0 && forall r :: r in feed ==> r.sequence <= cursor
    ensures Pull(feed, sc, cursor, limit) == Page(Visible([]), false, cursor)
  {
    AboveFacts(feed, sc, cursor);
    HasRow(Above(feed, sc, cursor));
    hide Above, Visible;
  }

  lemma PutKeys(v: Values, one: Row, two: Row)
    requires KeyOf(one) !in v && KeyOf(one) != KeyOf(two)
    ensures KeyOf(one) in Put(Put(v, one), two) && KeyOf(one) !in Put(v, two)
  {
  }

  lemma EmptyReplay(v: Values)
    ensures Replay(v, Visible([])) == v
  {
  }

  // --------------------------------------------------------------- pull loop

  /** The page of a well-ordered snapshot is always applied. */
  lemma PageIsApplied(v: Values, snapshot: seq<Row>, sc: Scope, cursor: nat, limit: nat)
    requires Ordered(snapshot) && limit > 0
    ensures var page := Pull(snapshot, sc, cursor, limit);
      ApplyPage(v, cursor, sc.business, cursor, page) == Applied(Replay(v, page.changes), page.nextCursor)
  {
    var page := Pull(snapshot, sc, cursor, limit);
    PageIsRange(snapshot, sc, cursor, limit);
    var rows := Between(snapshot, sc, cursor, page.nextCursor);
    BetweenFacts(snapshot, sc, cursor, page.nextCursor);
    VisibleFacts(rows);
    hide Pull, Between, Visible, Replay;
    forall i | 0 <= i < |page.changes| ensures AcceptedChange(page.changes[i], sc.business, cursor, page.nextCursor) {
      assert page.changes[i] in page.changes && page.changes[i] in rows;
    }
  }

  /** One page applied to a synchronised cache leaves it synchronised at the page's cursor. */
  lemma PageAdvances(base: Values, snapshot: seq<Row>, feed: seq<Row>, sc: Scope, start: nat, cursor: nat, limit: nat)
    requires Ordered(feed) && OrderedVisibility(snapshot, feed) && start <= cursor && limit > 0
    ensures Ordered(snapshot)
    ensures var page := Pull(snapshot, sc, cursor, limit);
      && cursor <= page.nextCursor
      && Replay(CacheAt(base, feed, sc, start, cursor), page.changes) == CacheAt(base, feed, sc, start, page.nextCursor)
  {
    assert Ordered(snapshot) by { assert forall i :: 0 <= i < |snapshot| ==> snapshot[i] == feed[i]; }
    var page := Pull(snapshot, sc, cursor, limit);
    PageIsRange(snapshot, sc, cursor, limit);
    StableRange(snapshot, feed, sc, cursor, page.nextCursor);
    CacheExtends(base, feed, sc, start, cursor, page.nextCursor);
  }

  lemma NothingPulled(base: Values, feed: seq<Row>, sc: Scope, at: nat)
    ensures CacheAt(base, feed, sc, at, at) == base && Visible(Between(feed, sc, at, at)) == []
  {
    EmptyRange(feed, sc, at);
  }

  lemma PageCounts(snapshot: seq<Row>, feed: seq<Row>, sc: Scope, start: nat, cursor: nat, limit: nat)
    requires Ordered(feed) && Ordered(snapshot) && OrderedVisibility(snapshot, feed) && start <= cursor && limit > 0
    ensures var page := Pull(snapshot, sc, cursor, limit);
      |Visible(Between(feed, sc, start, page.nextCursor))|
      == |Visible(Between(feed, sc, start, cursor))| + |page.changes|
  {
    hide Pull, Between, Visible;
    var page := Pull(snapshot, sc, cursor, limit);
    PageIsRange(snapshot, sc, cursor, limit);
    StableRange(snapshot, feed, sc, cursor, page.nextCursor);
    SplitRange(feed, sc, start, cursor, page.nextCursor);
    VisibleConcat(Between(feed, sc, start, cursor), Between(feed, sc, cursor, page.nextCursor));
  }

  datatype PullRun =
    | Success(pages: nat, changes: nat, cursor: nat, hasMore: bool, acked: bool)
    | Failure(pages: nat, changes: nat, cursor: nat)

  /** The POS tables a pull touches, and the acknowledgement the server holds for the device. */
  class PosReplica {
    var values: Values
    var cursor: nat
    var acknowledged: nat

    constructor (v: Values, at: nat)
      ensures values == v && cursor == at && acknowledged == 0
    {
      values, cursor, acknowledged := v, at, 0;
    }

    /** applyProjectionPage in one transaction: an error leaves everything as it was. */
    method ApplyProjectionPage(business: nat, expected: nat, page: Page) returns (ok: bool)
      modifies `values, `cursor
      ensures ok <==> ApplyPage(old(values), old(cursor), business, expected, page).Applied?
      ensures ok ==> Applied(values, cursor) == ApplyPage(old(values), old(cursor), business, expected, page)
      ensures !ok ==> values == old(values) && cursor == old(cursor)
    {
      if page.nextCursor < expected { return false; }
      var seen: set<nat> := {};
      for i := 0 to |page.changes|
        invariant forall n :: n in seen <==> exists k :: 0 <= k < i && page.changes[k].sequence == n
        invariant forall a, b :: 0 <= a < b < i ==> page.changes[a].sequence != page.changes[b].sequence
      {
        if page.changes[i].sequence in seen { return false; }
        seen := seen + {page.changes[i].sequence};
      }
      if cursor != expected { return false; }
      var v := values;
      for i := 0 to |page.changes|
        invariant forall k :: 0 <= k < i ==> AcceptedChange(page.changes[k], business, expected, page.nextCursor)
        invariant v == Replay(values, page.changes[..i])
      {
        var change := page.changes[i];
        if change.sequence <= expected || change.sequence > page.nextCursor { return false; }
        if change.business != business { return false; }
        v := v[KeyOf(change) := change.payload];
        assert page.changes[..i + 1][..i] == page.changes[..i];
      }
      assert page.changes[..|page.changes|] == page.changes;
      values, cursor := v, page.nextCursor;
      return true;
    }

    /** acknowledge: refused beyond the server's last sequence, otherwise never moved back. */
    method Acknowledge(sequence: nat, latest: nat) returns (ok: bool)
      modifies `acknowledged
      ensures ok <==> sequence <= latest
      ensures acknowledged == if ok && old(acknowledged) < sequence then sequence else old(acknowledged)
    {
      if sequence > latest { return false; }
      acknowledged := if acknowledged < sequence then sequence else acknowledged;
      return true;
    }

    /** pullAvailable. snapshots[k] is what the k-th request sees, None a request that fails; the
        last one decides has_more. latest is the server's last sequence when the acknowledgement
        arrives, None if it does not arrive. Whatever the limit, the cache is the feed's at its cursor. */
    method PullAvailable(snapshots: seq<Option<seq<Row>>>, sc: Scope, limit: nat, latest: Option<nat>,
        ghost feed: seq<Row>)
      returns (r: PullRun)
      requires limit > 0 && |snapshots| > 0 && Ordered(feed) && acknowledged <= cursor
      requires forall k :: 0 <= k < |snapshots| && snapshots[k].Some? ==> OrderedVisibility(snapshots[k].value, feed)
      modifies this
      ensures r.cursor == cursor >= old(cursor)
      ensures values == CacheAt(old(values), feed, sc, old(cursor), cursor)
      ensures acknowledged <= cursor
      ensures r.Success? ==> (r.acked <==> latest.Some? && cursor <= latest.value)
      ensures acknowledged == if r.Success? && r.acked then cursor else old(acknowledged)
      ensures r.Success? && !r.hasMore ==>
        exists k :: 0 <= k < |snapshots| && snapshots[k].Some? && Above(snapshots[k].value, sc, cursor) == []
      ensures r.Failure? ==> r.pages < |snapshots| && snapshots[r.pages].None?
      ensures r.Success? && r.hasMore ==> r.pages == |snapshots|
      ensures r.pages <= |snapshots| && forall k :: 0 <= k < r.pages ==> snapshots[k].Some?
      ensures r.changes == |Visible(Between(feed, sc, old(cursor), cursor))|
    {
      ghost var base, start := values, cursor;
      hide Pull, Between, Visible, Above, CacheAt, Replay, Ordered, ApplyPage, OrderedVisibility;
      NothingPulled(base, feed, sc, start);
      var pages: nat, changes: nat := 0, 0;
      var at, hasMore, k := cursor, false, 0;
      while k < |snapshots|
        invariant 0 <= k <= |snapshots| && at == cursor >= start && acknowledged == old(acknowledged)
        invariant k > 0 ==> hasMore
        invariant pages == k && (forall i :: 0 <= i < k ==> snapshots[i].Some?)
        invariant changes == |Visible(Between(feed, sc, start, cursor))|
        invariant values == CacheAt(base, feed, sc, start, cursor)
      {
        if snapshots[k].None? { return Failure(pages, changes, at); }
        var page := Pull(snapshots[k].value, sc, at, limit);
        PageAdvances(base, snapshots[k].value, feed, sc, start, at, limit);
        PageProgress(snapshots[k].value, sc, at, limit);
        PageIsApplied(values, snapshots[k].value, sc, at, limit);
        PageCounts(snapshots[k].value, feed, sc, start, at, limit);
        if page.hasMore && page.nextCursor == at { return Failure(pages, changes, at); }
        var ok := ApplyProjectionPage(sc.business, at, page);
        if !ok { return Failure(pages, changes, at); }
        at, pages, changes, hasMore := page.nextCursor, pages + 1, changes + |page.changes|, page.hasMore;
        if !hasMore { break; }
        k := k + 1;
      }
      var acked := false;
      if latest.Some? { acked := Acknowledge(at, latest.value); }
      return Success(pages, changes, at, hasMore, acked);
    }
  }

  /** Draining a feed that stands still; the rows that remain are the termination measure. */
  function Drain(v: Values, cursor: nat, feed: seq<Row>, sc: Scope, limit: nat): (r: (Values, nat))
    requires limit > 0 && Ordered(feed)
    decreases |Above(feed, sc, cursor)|
  {
    var page := Pull(feed, sc, cursor, limit);
    PageProgress(feed, sc, cursor, limit);
    var next := Replay(v, page.changes);
    if page.hasMore then Drain(next, page.nextCursor, feed, sc, limit) else (next, page.nextCursor)
  }

  lemma {:induction false} DrainReaches(v: Values, cursor: nat, feed: seq<Row>, sc: Scope, limit: nat)
    requires limit > 0 && Ordered(feed)
    ensures var (values, at) := Drain(v, cursor, feed, sc, limit);
      at >= cursor && Above(feed, sc, at) == [] && values == CacheAt(v, feed, sc, cursor, at)
      && (at == cursor || exists r :: r in feed && InScope(r, sc) && r.sequence == at)
    decreases |Above(feed, sc, cursor)|
  {
    var page := Pull(feed, sc, cursor, limit);
    PageProgress(feed, sc, cursor, limit);
    PageIsRange(feed, sc, cursor, limit);
    NextIsInScope(feed, sc, cursor, limit);
    if page.hasMore {
      DrainReaches(Replay(v, page.changes), page.nextCursor, feed, sc, limit);
      var (values, at) := Drain(Replay(v, page.changes), page.nextCursor, feed, sc, limit);
      CacheExtends(v, feed, sc, cursor, page.nextCursor, at);
    }
  }

  lemma NextIsInScope(feed: seq<Row>, sc: Scope, cursor: nat, limit: nat)
    requires limit > 0 && Ordered(feed)
    ensures var next := Pull(feed, sc, cursor, limit).nextCursor;
      next == cursor || exists r :: r in feed && InScope(r, sc) && r.sequence == next
  {
    var above := Above(feed, sc, cursor);
    AboveFacts(feed, sc, cursor);
    SelectedIsPrefix(above, limit);
    var n := if |above| > limit then limit else |above|;
    if n > 0 { assert above[n - 1] in above; }
  }

  /** Every limit leads to the same cache and the same cursor. */
  lemma LimitDoesNotMatter(v: Values, cursor: nat, feed: seq<Row>, sc: Scope, limit: nat, other: nat)
    requires limit > 0 && other > 0 && Ordered(feed)
    ensures Drain(v, cursor, feed, sc, limit) == Drain(v, cursor, feed, sc, other)
  {
    hide Drain, CacheAt, Above, InScope;
    DrainReaches(v, cursor, feed, sc, limit);
    DrainReaches(v, cursor, feed, sc, other);
    var a, b := Drain(v, cursor, feed, sc, limit).1, Drain(v, cursor, feed, sc, other).1;
    SameEnd(feed, sc, cursor, a, b); SameEnd(feed, sc, cursor, b, a);
  }

  lemma SameEnd(feed: seq<Row>, sc: Scope, cursor: nat, a: nat, b: nat)
    requires Ordered(feed) && a >= cursor && b >= cursor && Above(feed, sc, b) == []
    requires a == cursor || exists r :: r in feed && InScope(r, sc) && r.sequence == a
    ensures a <= b
  {
    if a != cursor {
      var r :| r in feed && InScope(r, sc) && r.sequence == a;
      AboveFacts(feed, sc, b);
      assert r !in Above(feed, sc, b);
    }
  }
}
