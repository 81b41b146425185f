/** Stock balances at the POS: bootstrap snapshot plus pulled projections equal the server's
    balances at the cursor. */
module StockReplica {
  import opened Wrappers
  import opened ChangeFeed
  import I = Inventory

  /** One committed feed row and, for a stock projection, the movement it was written with. */
  datatype Entry = Entry(row: Row, movement: Option<I.Movement>)

  datatype Server = Server(stock: I.Stock, journal: seq<Entry>)

  function Rows(j: seq<Entry>): seq<Row> { if j == [] then [] else Rows(j[..|j| - 1]) + [j[|j| - 1].row] }

  function Movements(j: seq<Entry>): seq<I.Movement> {
    if j == [] then []
    else Movements(j[..|j| - 1]) + if j[|j| - 1].movement.Some? then [j[|j| - 1].movement.value] else []
  }

  /** The server's balance of a place at a cursor: the movements projected up to it. */
  function BalanceAt(j: seq<Entry>, p: I.Place, c: nat): real {
    if j == [] then 0.0
    else
      var e := j[|j| - 1];
      BalanceAt(j[..|j| - 1], p, c)
      + (if e.movement.Some? && e.movement.value.place == p && e.row.sequence <= c then e.movement.value.delta else 0.0)
  }

  /** appendStockBalanceProjection: the balance row read back after its movement. */
  function ProjectionRow(business: nat, sequence: nat, p: I.Place, quantity: real): Row {
    Row(sequence, business, Some(p.location), StockBalance, false, p.product, Quantity(p.location, quantity))
  }

  predicate IsStockProjection(r: Row) { r.entity == StockBalance && !r.isEvent }

  function LastSequence(j: seq<Entry>): nat { if j == [] then 0 else j[|j| - 1].row.sequence }

  /** The bootstrap cursor: the greatest sequence among the business's own rows, 0 without any. */
  function Cursor(j: seq<Entry>, business: nat): nat {
    if j == [] then 0
    else
      var c, r := Cursor(j[..|j| - 1], business), j[|j| - 1].row;
      if r.business == business && r.sequence > c then r.sequence else c
  }

  // ------------------------------------------------------------------ server

  /** The movements a command writes, in order. */
  function Moves(st: I.Stock, c: I.Command): seq<I.Movement> {
    if I.Check(st, c).Rejected? then []
    else if c.Move? then c.movements
    else if c.PostOpname? then I.Variances(c.location, st.sessions[c.opname].items)
    else []
  }

  /** Each movement of a command is followed by the projection of its balance. */
  function Project(business: nat, st: I.Stock, ms: seq<I.Movement>, seqs: seq<nat>): seq<Entry>
    requires |seqs| == |ms|
  {
    if ms == [] then []
    else
      var n := |ms| - 1;
      var after := I.RecordAll(st, ms);
      Project(business, st, ms[..n], seqs[..n])
      + [Entry(ProjectionRow(business, seqs[n], ms[n].place, I.Balance(after, ms[n].place)), Some(ms[n]))]
  }

  datatype Step =
    | Commit(command: I.Command, sequences: seq<nat>)
    | Publish(row: Row)

  /** Sequences are handed out in commit order, and only movements write stock projections. */
  ghost predicate Enabled(sv: Server, s: Step) {
    match s
    case Commit(c, seqs) =>
      && I.Readable(c) && |seqs| == |Moves(sv.stock, c)|
      && (forall i :: 0 <= i < |seqs| ==> seqs[i] > LastSequence(sv.journal))
      && (forall i, k :: 0 <= i < k < |seqs| ==> seqs[i] < seqs[k])
    case Publish(r) => r.sequence > LastSequence(sv.journal) && !IsStockProjection(r)
  }

  function Apply(business: nat, sv: Server, s: Step): Server
    requires s.Commit? ==> |s.sequences| == |Moves(sv.stock, s.command)|
  {
    match s
    case Commit(c, seqs) =>
      Server(I.Next(sv.stock, c), sv.journal + Project(business, sv.stock, Moves(sv.stock, c), seqs))
    case Publish(r) => sv.(journal := sv.journal + [Entry(r, None)])
  }

  ghost predicate IsRun(business: nat, svs: seq<Server>, steps: seq<Step>) {
    && |svs| == |steps| + 1
    && forall i :: 0 <= i < |steps| ==> Enabled(svs[i], steps[i]) && svs[i + 1] == Apply(business, svs[i], steps[i])
  }

  // -------------------------------------------------------------- invariants

  ghost predicate EntryInv(business: nat, before: seq<Entry>, e: Entry) {
    && LastSequence(before) < e.row.sequence
    && (if e.movement.Some? then
          e.row == ProjectionRow(business, e.row.sequence, e.movement.value.place,
                                 I.Sum(Movements(before) + [e.movement.value], e.movement.value.place))
        else !IsStockProjection(e.row))
  }

  ghost predicate JournalInv(business: nat, j: seq<Entry>) {
    j == [] || (JournalInv(business, j[..|j| - 1]) && EntryInv(business, j[..|j| - 1], j[|j| - 1]))
  }

  ghost predicate Inv(business: nat, sv: Server) {
    I.Inv(sv.stock) && JournalInv(business, sv.journal) && sv.stock.movements == Movements(sv.journal)
  }

  // ----------------------------------------------------------------- journal

  lemma {:induction false} RowsFacts(business: nat, j: seq<Entry>)
    requires JournalInv(business, j)
    ensures |Rows(j)| == |j| && Ordered(Rows(j))
    ensures forall i :: 0 <= i < |j| ==> Rows(j)[i] == j[i].row && j[i].row.sequence <= LastSequence(j)
  {
    if j != [] { RowsFacts(business, j[..|j| - 1]); }
  }

  lemma {:induction false} RowsPrefix(j: seq<Entry>, k: seq<Entry>)
    requires j <= k
    ensures Rows(j) <= Rows(k) && |Rows(j)| == |j|
  {
    if |k| == |j| {
      assert j == k;
      if k != [] { RowsPrefix(k[..|k| - 1], k[..|k| - 1]); }
    } else {
      RowsPrefix(j, k[..|k| - 1]);
    }
  }

  lemma JournalAppend(business: nat, j: seq<Entry>, e: Entry)
    requires JournalInv(business, j) && EntryInv(business, j, e)
    ensures JournalInv(business, j + [e])
    ensures Movements(j + [e]) == Movements(j) + if e.movement.Some? then [e.movement.value] else []
    ensures LastSequence(j + [e]) == e.row.sequence
  {
    assert (j + [e])[..|j|] == j;
  }

  /** The entry of the last movement of a command. */
  function LastEntry(business: nat, st: I.Stock, ms: seq<I.Movement>, seqs: seq<nat>): Entry
    requires |seqs| == |ms| > 0
  {
    var m := ms[|ms| - 1];
    Entry(ProjectionRow(business, seqs[|ms| - 1], m.place, I.Balance(I.RecordAll(st, ms), m.place)), Some(m))
  }

  lemma LastEntryInv(business: nat, st: I.Stock, before: seq<Entry>, ms: seq<I.Movement>, seqs: seq<nat>)
    requires I.Inv(st) && |seqs| == |ms| > 0 && LastSequence(before) < seqs[|ms| - 1]
    requires Movements(before) == st.movements + ms[..|ms| - 1]
    ensures EntryInv(business, before, LastEntry(business, st, ms, seqs))
    ensures Movements(before) + [ms[|ms| - 1]] == st.movements + ms
  {
    var m := ms[|ms| - 1];
    I.RecordAllKeeps(st, ms);
    hide I.RecordAll, Movements, I.Sum;
    assert ms == ms[..|ms| - 1] + [m];
    assert Movements(before) + [m] == st.movements + ms;
    assert I.Balance(I.RecordAll(st, ms), m.place) == I.Sum(st.movements + ms, m.place);
  }

  /** Projecting a command's movements extends a sound journal to a sound journal. */
  lemma {:induction false} ProjectKeeps(business: nat, sv: Server, ms: seq<I.Movement>, seqs: seq<nat>)
    requires Inv(business, sv) && |seqs| == |ms|
    requires forall i :: 0 <= i < |seqs| ==> seqs[i] > LastSequence(sv.journal)
    requires forall i, k :: 0 <= i < k < |seqs| ==> seqs[i] < seqs[k]
    ensures var j := sv.journal + Project(business, sv.stock, ms, seqs);
      && JournalInv(business, j) && Movements(j) == sv.stock.movements + ms
      && LastSequence(j) == if ms == [] then LastSequence(sv.journal) else seqs[|seqs| - 1]
  {
    hide JournalInv, Movements, I.Inv, LastEntry, EntryInv, Project, LastSequence;
    if ms == [] {
      EmptyProject(business, sv.stock, ms, seqs);
      assert sv.journal + [] == sv.journal && sv.stock.movements + ms == sv.stock.movements;
    } else {
      var n := |ms| - 1;
      ProjectKeeps(business, sv, ms[..n], seqs[..n]);
      var before := sv.journal + Project(business, sv.stock, ms[..n], seqs[..n]);
      var e := LastEntry(business, sv.stock, ms, seqs);
      assert LastSequence(before) < seqs[n];
      LastEntryInv(business, sv.stock, before, ms, seqs);
      JournalAppend(business, before, e);
      LastEntryRow(business, sv.stock, ms, seqs);
      assert sv.journal + Project(business, sv.stock, ms, seqs) == before + [e];
    }
  }

  lemma EmptyProject(business: nat, st: I.Stock, ms: seq<I.Movement>, seqs: seq<nat>)
    requires ms == [] && seqs == []
    ensures Project(business, st, ms, seqs) == []
  {
  }

  lemma LastEntryRow(business: nat, st: I.Stock, ms: seq<I.Movement>, seqs: seq<nat>)
    requires |seqs| == |ms| > 0
    ensures var e := LastEntry(business, st, ms, seqs);
      && e.row.sequence == seqs[|ms| - 1] && e.movement == Some(ms[|ms| - 1])
      && Project(business, st, ms, seqs) == Project(business, st, ms[..|ms| - 1], seqs[..|ms| - 1]) + [e]
  {
    hide I.RecordAll;
  }

  lemma NextMovements(st: I.Stock, c: I.Command)
    requires I.Inv(st)
    ensures I.Next(st, c).movements == st.movements + Moves(st, c)
  {
    if I.Check(st, c).Done? {
      if c.Move? { I.RecordAllKeeps(st, c.movements); }
      if c.PostOpname? { I.RecordAllKeeps(st, Moves(st, c)); }
    }
  }

  lemma ApplyKeeps(business: nat, sv: Server, s: Step)
    requires Inv(business, sv) && Enabled(sv, s)
    ensures Inv(business, Apply(business, sv, s))
    ensures sv.journal <= Apply(business, sv, s).journal
  {
    match s
    case Commit(c, seqs) =>
      I.NextKeeps(sv.stock, c);
      NextMovements(sv.stock, c);
      ProjectKeeps(business, sv, Moves(sv.stock, c), seqs);
      hide Project, JournalInv, Movements, Moves;
    case Publish(r) =>
      JournalAppend(business, sv.journal, Entry(r, None));
      hide JournalInv, Movements;
  }

  /** Every run keeps the journal sound and only ever extends it. */
  lemma {:induction false} RunKeeps(business: nat, svs: seq<Server>, steps: seq<Step>, i: nat)
    requires IsRun(business, svs, steps) && Inv(business, svs[0]) && i <= |steps|
    ensures Inv(business, svs[i])
    ensures forall k :: 0 <= k <= i ==> svs[k].journal <= svs[i].journal
  {
    if i > 0 {
      RunKeeps(business, svs, steps, i - 1);
      ApplyKeeps(business, svs[i - 1], steps[i - 1]);
    }
  }

  // ---------------------------------------------------------------- balances

  lemma {:induction false} CursorWithin(business: nat, j: seq<Entry>)
    requires JournalInv(business, j)
    ensures Cursor(j, business) <= LastSequence(j)
  {
    if j != [] { CursorWithin(business, j[..|j| - 1]); }
  }

  /** It is the sequence of a row of the business, or 0, and no row of the business is above it. */
  lemma {:induction false} CursorIsOwn(j: seq<Entry>, business: nat)
    ensures var c := Cursor(j, business);
      && (c > 0 ==> exists i :: 0 <= i < |j| && j[i].row.business == business && j[i].row.sequence == c)
      && (forall i :: 0 <= i < |j| && j[i].row.business == business ==> j[i].row.sequence <= c)
  {
    if j != [] { CursorIsOwn(j[..|j| - 1], business); }
  }

  /** The business's own cursor already covers every movement; rows of others above it carry none. */
  lemma {:induction false} BalanceAtAll(business: nat, j: seq<Entry>, p: I.Place, c: nat)
    requires JournalInv(business, j) && Cursor(j, business) <= c
    ensures BalanceAt(j, p, c) == I.Sum(Movements(j), p)
  {
    if j != [] {
      var front, e := j[..|j| - 1], j[|j| - 1];
      hide I.Sum;
      BalanceAtAll(business, front, p, c);
      assert e.movement.Some? ==> e.row.sequence <= c;
      hide JournalInv, EntryInv, Cursor, LastSequence;
      if e.movement.Some? {
        I.SumAppend(Movements(front), e.movement.value, p);
      } else {
        assert Movements(j) == Movements(front);
      }
    }
  }

  /** The balance at a cursor does not change as the journal grows past it. */
  lemma {:induction false} BalanceAtStable(business: nat, j: seq<Entry>, k: seq<Entry>, p: I.Place, c: nat)
    requires JournalInv(business, k) && j <= k && c <= LastSequence(j)
    ensures BalanceAt(k, p, c) == BalanceAt(j, p, c)
  {
    if |j| == |k| {
      assert j == k;
    } else {
      var front := k[..|k| - 1];
      BalanceAtStable(business, j, front, p, c);
      RowsFacts(business, front);
      if j != [] { assert front[|j| - 1] == j[|j| - 1]; }
    }
  }

  /** What the POS reads for a product; a missing row is zero. */
  function Lookup(v: Values, product: nat): real {
    var k := Projection(StockBalance, product);
    if k in v && v[k].Quantity? then v[k].amount else 0.0
  }

  lemma PutLookup(v: Values, r: Row, product: nat)
    ensures Lookup(Put(v, r), product) ==
            if IsStockProjection(r) && r.id == product then (if r.payload.Quantity? then r.payload.amount else 0.0)
            else Lookup(v, product)
  {
  }

  /** Replaying the rows of a range takes a cache from the balances at its lower end to those at
      its upper end. */
  lemma {:induction false} CacheFollows(business: nat, j: seq<Entry>, base: Values, location: nat, product: nat,
      lo: nat, hi: nat)
    requires JournalInv(business, j) && lo <= hi
    requires Lookup(base, product) == BalanceAt(j, I.Place(location, product), lo)
    ensures Lookup(CacheAt(base, Rows(j), Scope(business, location), lo, hi), product)
            == BalanceAt(j, I.Place(location, product), hi)
  {
    hide CacheAt, Lookup, EntryInv, Movements, Between, I.Sum;
    if j == [] {
      CacheSettled(business, j, base, location, product, lo, hi);
    } else {
      var front, e := j[..|j| - 1], j[|j| - 1];
      assert j == front + [e] && Rows(j) == Rows(front) + [e.row];
      BalanceStep(front, e, I.Place(location, product), lo);
      if e.row.sequence <= lo {
        CacheSettled(business, j, base, location, product, lo, hi);
      } else {
        hide Rows, BalanceAt;
        CacheFollows(business, front, base, location, product, lo, hi);
        CacheStep(business, front, e, base, location, product, lo, hi);
      }
    }
  }

  /** A journal that ends at or below a range leaves the cache as it was. */
  lemma CacheSettled(business: nat, j: seq<Entry>, base: Values, location: nat, product: nat, lo: nat, hi: nat)
    requires JournalInv(business, j) && LastSequence(j) <= lo <= hi
    requires Lookup(base, product) == BalanceAt(j, I.Place(location, product), lo)
    ensures Lookup(CacheAt(base, Rows(j), Scope(business, location), lo, hi), product)
            == BalanceAt(j, I.Place(location, product), hi)
  {
    hide JournalInv, BalanceAt, Lookup, Between, Replay, Visible, Rows, I.Sum, Movements;
    RowsFacts(business, j);
    CursorWithin(business, j);
    NothingAbove(Rows(j), Scope(business, location), lo, hi);
    EmptyReplay(base);
    BalanceAtAll(business, j, I.Place(location, product), lo);
    BalanceAtAll(business, j, I.Place(location, product), hi);
  }

  lemma CacheStep(business: nat, front: seq<Entry>, e: Entry, base: Values, location: nat, product: nat, lo: nat,
      hi: nat)
    requires JournalInv(business, front) && EntryInv(business, front, e) && lo < e.row.sequence
    requires Lookup(CacheAt(base, Rows(front), Scope(business, location), lo, hi), product)
             == BalanceAt(front, I.Place(location, product), hi)
    ensures Lookup(CacheAt(base, Rows(front) + [e.row], Scope(business, location), lo, hi), product)
            == BalanceAt(front + [e], I.Place(location, product), hi)
  {
    hide JournalInv, BalanceAt, Rows, Between, I.Sum, Visible, Replay, Lookup, Put, Movements;
    var sc, p := Scope(business, location), I.Place(location, product);
    var rows := Between(Rows(front), sc, lo, hi);
    RangeAppend(Rows(front), e.row, sc, lo, hi);
    BalanceStep(front, e, p, hi);
    CacheAppend(base, rows, e.row);
    if e.row.sequence <= hi {
      CursorWithin(business, front);
      BalanceAtAll(business, front, p, hi);
      if e.movement.Some? { I.SumAppend(Movements(front), e.movement.value, p); }
      PutLookup(Replay(base, Visible(rows)), e.row, product);
    }
  }

  lemma BalanceStep(front: seq<Entry>, e: Entry, p: I.Place, hi: nat)
    ensures BalanceAt(front + [e], p, hi) == BalanceAt(front, p, hi)
              + (if e.movement.Some? && e.movement.value.place == p && e.row.sequence <= hi
                 then e.movement.value.delta else 0.0)
  {
    assert (front + [e])[..|front|] == front;
  }

  lemma RangeAppend(rows: seq<Row>, r: Row, sc: Scope, lo: nat, hi: nat)
    ensures Between(rows + [r], sc, lo, hi)
            == Between(rows, sc, lo, hi) + if InScope(r, sc) && lo < r.sequence <= hi then [r] else []
  {
    assert (rows + [r])[..|rows|] == rows;
  }

  lemma CacheAppend(base: Values, rows: seq<Row>, r: Row)
    ensures Replay(base, Visible(rows + [r]))
            == if Supported(r) then Put(Replay(base, Visible(rows)), r) else Replay(base, Visible(rows))
    ensures Visible(rows + []) == Visible(rows)
  {
    var v := Visible(rows);
    assert (rows + [r])[..|rows|] == rows && rows + [] == rows;
    assert Visible(rows + [r]) == v + if Supported(r) then [r] else [];
    assert (v + [r])[..|v|] == v && v + [] == v;
    hide Visible, Put, Supported;
  }

  // ----------------------------------------------------------------- bootstrap

  predicate IsStockKey(k: Key) { k.Projection? && k.entity == StockBalance }

  /** The stock rows of the bootstrap response, by key. */
  function Incoming(st: I.Stock, location: nat): Values {
    map p | p in st.balances && p.location == location ::
      Projection(StockBalance, p.product) := Quantity(location, st.balances[p])
  }

  /** The stock part of applyBootstrapSnapshot: rows that did not come are deleted, the rest put. */
  function Bootstrap(v: Values, st: I.Stock, location: nat): Values {
    (map k | k in v && !IsStockKey(k) :: v[k]) + Incoming(st, location)
  }

  lemma IncomingFacts(st: I.Stock, location: nat, product: nat)
    ensures var k := Projection(StockBalance, product); var p := I.Place(location, product);
      && (k in Incoming(st, location) <==> p in st.balances)
      && (p in st.balances ==> Incoming(st, location)[k] == Quantity(location, st.balances[p]))
  {
    var k, p := Projection(StockBalance, product), I.Place(location, product);
    if p in st.balances {
      assert p.location == location && Projection(StockBalance, p.product) == k;
    }
    if k in Incoming(st, location) {
      var q :| q in st.balances && q.location == location && Projection(StockBalance, q.product) == k;
      assert q == p;
    }
  }

  lemma BootstrapLookup(v: Values, st: I.Stock, location: nat, product: nat)
    ensures Lookup(Bootstrap(v, st, location), product) == I.Balance(st, I.Place(location, product))
  {
    IncomingFacts(st, location, product);
    hide Incoming;
  }

  /** This part touches nothing that is not a stock balance, and leaves no balance of a product that did
      not come. */
  lemma BootstrapKeeps(v: Values, st: I.Stock, location: nat, k: Key)
    ensures var after := Bootstrap(v, st, location);
      if IsStockKey(k) then k in after <==> I.Place(location, k.id) in st.balances
      else (k in after <==> k in v) && (k in v ==> after[k] == v[k])
  {
    if IsStockKey(k) { IncomingFacts(st, location, k.id); }
  }

  /** Bootstrapping at any moment of a run and pulling to any later cursor leaves every stock
      balance of the location equal to the server's at that cursor. */
  lemma BootstrapThenPull(business: nat, svs: seq<Server>, steps: seq<Step>, at: nat, now: nat, v: Values,
      location: nat, product: nat, cursor: nat)
    requires IsRun(business, svs, steps) && Inv(business, svs[0]) && at <= now <= |steps|
    requires Cursor(svs[at].journal, business) <= cursor
    ensures
      var base, start := Bootstrap(v, svs[at].stock, location), Cursor(svs[at].journal, business);
      Lookup(CacheAt(base, Rows(svs[now].journal), Scope(business, location), start, cursor), product)
      == BalanceAt(svs[now].journal, I.Place(location, product), cursor)
  {
    RunKeeps(business, svs, steps, at);
    RunKeeps(business, svs, steps, now);
    var p := I.Place(location, product);
    var early, later := svs[at].journal, svs[now].journal;
    BootstrapLookup(v, svs[at].stock, location, product);
    assert I.Balance(svs[at].stock, p) == I.Sum(Movements(early), p);
    var start := Cursor(early, business);
    CursorWithin(business, early);
    BalanceAtAll(business, early, p, start);
    BalanceAtStable(business, early, later, p, start);
    hide Bootstrap, Lookup, JournalInv, BalanceAt, Cursor;
    CacheFollows(business, later, Bootstrap(v, svs[at].stock, location), location, product, start, cursor);
  }

  /** With nothing left to pull, that is the balance table itself. */
  lemma CaughtUp(business: nat, sv: Server, p: I.Place, cursor: nat)
    requires Inv(business, sv) && Cursor(sv.journal, business) <= cursor
    ensures BalanceAt(sv.journal, p, cursor) == I.Balance(sv.stock, p)
  {
    BalanceAtAll(business, sv.journal, p, cursor);
    assert I.Balance(sv.stock, p) == I.Sum(sv.stock.movements, p);
  }

  /** Nothing in the location's scope above the cursor means its balances are the table's. */
  lemma {:induction false} NothingAboveIsAll(business: nat, j: seq<Entry>, p: I.Place, c: nat)
    requires JournalInv(business, j) && Above(Rows(j), Scope(business, p.location), c) == []
    ensures BalanceAt(j, p, c) == I.Sum(Movements(j), p)
  {
    if j != [] {
      var front, e := j[..|j| - 1], j[|j| - 1];
      assert Rows(j)[..|Rows(j)| - 1] == Rows(front);
      NothingAboveIsAll(business, front, p, c);
      hide Above, Rows;
      if e.movement.Some? {
        I.SumAppend(Movements(front), e.movement.value, p);
      } else {
        assert Movements(j) == Movements(front);
      }
    }
  }

  ghost predicate SawAll(snapshots: seq<Option<seq<Row>>>, feed: seq<Row>) {
    forall k :: 0 <= k < |snapshots| && snapshots[k].Some? ==> snapshots[k].value == feed
  }

  /** applyBootstrapSnapshot from the state svs[at] of a run, then pullAvailable up to svs[now]: every
      stock balance of the location is the server's at the cursor the device ends on, and the balance
      table itself when the last page came from the whole feed and said there was no more. */
  method BootstrapAndPull(replica: PosReplica, early: Server, location: nat, business: nat,
      snapshots: seq<Option<seq<Row>>>, limit: nat, latest: Option<nat>,
      ghost svs: seq<Server>, ghost steps: seq<Step>, ghost at: nat, ghost now: nat)
    returns (r: PullRun)
    requires IsRun(business, svs, steps) && Inv(business, svs[0]) && at <= now <= |steps| && early == svs[at]
    requires limit > 0 && |snapshots| > 0 && replica.acknowledged <= Cursor(svs[at].journal, business)
    requires forall k :: 0 <= k < |snapshots| && snapshots[k].Some? ==>
      OrderedVisibility(snapshots[k].value, Rows(svs[now].journal))
    modifies replica
    ensures replica.cursor >= Cursor(svs[at].journal, business) && replica.acknowledged <= replica.cursor
    ensures forall product ::
      Lookup(replica.values, product) == BalanceAt(svs[now].journal, I.Place(location, product), replica.cursor)
    ensures r.Success? && !r.hasMore && SawAll(snapshots, Rows(svs[now].journal)) ==>
      forall product :: Lookup(replica.values, product) == I.Balance(svs[now].stock, I.Place(location, product))
  {
    ghost var before, feed := replica.values, Rows(svs[now].journal);
    ghost var sc := Scope(business, location);
    RunKeeps(business, svs, steps, now);
    RowsFacts(business, svs[now].journal);
    replica.values := Bootstrap(replica.values, early.stock, location);
    replica.cursor := Cursor(early.journal, business);
    ghost var base, start := replica.values, replica.cursor;
    hide IsRun, Inv, Lookup, BalanceAt, CacheAt, Bootstrap, Rows, Cursor;
    r := replica.PullAvailable(snapshots, Scope(business, location), limit, latest, feed);
    forall product
      ensures Lookup(replica.values, product)
        == BalanceAt(svs[now].journal, I.Place(location, product), replica.cursor)
    {
      BootstrapThenPull(business, svs, steps, at, now, before, location, product, replica.cursor);
    }
    if r.Success? && !r.hasMore && Above(feed, sc, replica.cursor) == [] {
      forall product ensures Lookup(replica.values, product) == I.Balance(svs[now].stock, I.Place(location, product)) {
        AllIsTable(business, svs[now], I.Place(location, product), replica.cursor);
      }
    }
  }

  lemma AllIsTable(business: nat, sv: Server, p: I.Place, c: nat)
    requires Inv(business, sv) && Above(Rows(sv.journal), Scope(business, p.location), c) == []
    ensures BalanceAt(sv.journal, p, c) == I.Balance(sv.stock, p)
  {
    NothingAboveIsAll(business, sv.journal, p, c);
    assert I.Balance(sv.stock, p) == I.Sum(sv.stock.movements, p);
  }
}
