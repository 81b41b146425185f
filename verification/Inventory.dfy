/** Stock movements, balances and stock opname (count, review, post). */
module Inventory {
  import opened Wrappers

  datatype Place = Place(location: nat, product: nat)

  datatype Kind = Sale | Receipt | CustomerReturn | AdjustmentIn | AdjustmentOut | OpnameIn | OpnameOut

  datatype Movement = Movement(place: Place, delta: real, kind: Kind)

  /** What one count stored: the system quantity, the physical one and the ledger watermark. */
  datatype Count = Count(system: real, physical: real, variance: real, sequence: nat)

  datatype Item = Item(product: nat, counted: Option<Count>, recount: bool)

  datatype SessionStatus = Draft | Counting | Review | Posted

  datatype Session = Session(location: nat, status: SessionStatus, version: nat, items: seq<Item>)

  /** inventory.stock_movements in ledger order, inventory.stock_balances and the opname tables. */
  datatype Stock = Stock(movements: seq<Movement>, balances: map<Place, real>, sessions: map<nat, Session>)

  datatype Outcome = Done | Rejected(code: Code)

  datatype Code =
    | OpnameNotFound
    | OpnameTenantMismatch
    | OpnameVersionConflict
    | OpnameStateInvalid
    | OpnameItemNotFound
    | OpnameCountIncomplete
    | OpnameRecountRequired
    | DuplicateKey

  // ------------------------------------------------------------------ ledger

  function Balance(st: Stock, p: Place): real { if p in st.balances then st.balances[p] else 0.0 }

  /** Sum of the deltas recorded for one place. */
  function Sum(ms: seq<Movement>, p: Place): real {
    if ms == [] then 0.0
    else Sum(ms[..|ms| - 1], p) + (if ms[|ms| - 1].place == p then ms[|ms| - 1].delta else 0.0)
  }

  /** max(ledger_sequence) of one place. */
  function Watermark(ms: seq<Movement>, p: Place): (k: nat)
    ensures k <= |ms|
  {
    if ms == [] then 0 else if ms[|ms| - 1].place == p then |ms| else Watermark(ms[..|ms| - 1], p)
  }

  /** The trigger on stock_movements: an uncounted item of a COUNTING session must be recounted. */
  function MarkItem(i: Item, product: nat): Item {
    if i.product == product && i.counted.None? then i.(recount := true) else i
  }

  function MarkItems(items: seq<Item>, product: nat): (r: seq<Item>)
    ensures |r| == |items| && forall k :: 0 <= k < |r| ==> r[k] == MarkItem(items[k], product)
  {
    if items == [] then [] else MarkItems(items[..|items| - 1], product) + [MarkItem(items[|items| - 1], product)]
  }

  function Mark(s: Session, m: Movement): Session {
    if s.location == m.place.location && s.status == Counting then
      s.(items := MarkItems(s.items, m.place.product))
    else s
  }

  /** One movement: the ledger row, the upsert of its balance and the trigger. */
  function Record(st: Stock, m: Movement): Stock {
    Stock(st.movements + [m],
          st.balances[m.place := Balance(st, m.place) + m.delta],
          map k | k in st.sessions :: Mark(st.sessions[k], m))
  }

  function RecordAll(st: Stock, ms: seq<Movement>): Stock {
    if ms == [] then st else Record(RecordAll(st, ms[..|ms| - 1]), ms[|ms| - 1])
  }

  // ------------------------------------------------------------------ opname

  datatype Command =
    | Move(movements: seq<Movement>)
    | CreateOpname(opname: nat, location: nat, products: seq<nat>)
    | CountOpname(opname: nat, location: nat, expected: nat, counts: seq<(nat, real)>, recount: bool)
    | ReviewOpname(opname: nat, location: nat, expected: nat)
    | PostOpname(opname: nat, location: nat, expected: nat)

  /** system_qty_at_count, physical_qty, variance_qty and count_movement_sequence in one UPDATE. */
  function CountItem(ms: seq<Movement>, location: nat, i: Item, physical: real, recount: bool): Item {
    var p := Place(location, i.product);
    var system := Sum(ms, p);
    Item(i.product, Some(Count(system, physical, physical - system, Watermark(ms, p))),
      if recount then false else i.recount)
  }

  /** The row of a product, if the session has one. */
  function Index(items: seq<Item>, product: nat): (r: Option<nat>)
    ensures r.Some? ==> r.value < |items| && items[r.value].product == product
    ensures r.None? ==> forall k :: 0 <= k < |items| ==> items[k].product != product
  {
    if items == [] then None
    else if items[|items| - 1].product == product then Some(|items| - 1)
    else Index(items[..|items| - 1], product)
  }

  /** The loop of countOpnameCommand; None when some product is not in the session. */
  function CountAll(ms: seq<Movement>, location: nat, items: seq<Item>, counts: seq<(nat, real)>, recount: bool)
    : Option<seq<Item>>
  {
    if counts == [] then Some(items)
    else
      var before := CountAll(ms, location, items, counts[..|counts| - 1], recount);
      var (product, physical) := counts[|counts| - 1];
      if before.None? then None
      else
        var i := Index(before.value, product);
        if i.None? then None
        else Some(before.value[i.value := CountItem(ms, location, before.value[i.value], physical, recount)])
  }

  function NewItems(products: seq<nat>): (r: seq<Item>)
    ensures |r| == |products| && forall k :: 0 <= k < |r| ==> r[k] == Item(products[k], None, false)
  {
    if products == [] then [] else NewItems(products[..|products| - 1]) + [Item(products[|products| - 1], None, false)]
  }

  /** The movements a post writes: one for every item whose variance is not zero. */
  function Variances(location: nat, items: seq<Item>): seq<Movement>
    requires forall k :: 0 <= k < |items| ==> items[k].counted.Some?
  {
    if items == [] then []
    else
      var i := items[|items| - 1];
      var v := i.counted.value.variance;
      Variances(location, items[..|items| - 1])
      + (if v == 0.0 then [] else [Movement(Place(location, i.product), v, if v > 0.0 then OpnameIn else OpnameOut)])
  }

  function CheckSession(st: Stock, id: nat, location: nat, expected: nat): Outcome {
    if id !in st.sessions then Rejected(OpnameNotFound)
    else if st.sessions[id].location != location then Rejected(OpnameTenantMismatch)
    else if st.sessions[id].version != expected then Rejected(OpnameVersionConflict)
    else Done
  }

  function Check(st: Stock, c: Command): Outcome {
    match c
    case Move(_) => Done
    case CreateOpname(id, _, _) => if id in st.sessions then Rejected(DuplicateKey) else Done
    case CountOpname(id, location, expected, counts, recount) =>
      if CheckSession(st, id, location, expected).Rejected? then CheckSession(st, id, location, expected)
      else if st.sessions[id].status == Posted then Rejected(OpnameStateInvalid)
      else if CountAll(st.movements, location, st.sessions[id].items, counts, recount).None? then
        Rejected(OpnameItemNotFound)
      else Done
    case ReviewOpname(id, location, expected) =>
      if CheckSession(st, id, location, expected).Rejected? then CheckSession(st, id, location, expected)
      else if st.sessions[id].status != Counting then Rejected(OpnameStateInvalid)
      else if exists k :: 0 <= k < |st.sessions[id].items| && st.sessions[id].items[k].counted.None? then
        Rejected(OpnameCountIncomplete)
      else Done
    case PostOpname(id, location, expected) =>
      if CheckSession(st, id, location, expected).Rejected? then CheckSession(st, id, location, expected)
      else if st.sessions[id].status != Review then Rejected(OpnameStateInvalid)
      else if exists k :: 0 <= k < |st.sessions[id].items| && st.sessions[id].items[k].recount then
        Rejected(OpnameRecountRequired)
      else if exists k :: 0 <= k < |st.sessions[id].items| && st.sessions[id].items[k].counted.None? then
        Rejected(OpnameCountIncomplete)
      else Done
  }

  function Next(st: Stock, c: Command): Stock {
    if Check(st, c).Rejected? then st
    else
      match c
      case Move(ms) => RecordAll(st, ms)
      case CreateOpname(id, location, products) =>
        st.(sessions := st.sessions[id := Session(location, Draft, 1, NewItems(products))])
      case CountOpname(id, location, _, counts, recount) =>
        var s := st.sessions[id];
        var items := CountAll(st.movements, location, s.items, counts, recount).value;
        st.(sessions := st.sessions[id := Session(location, Counting, s.version + 1, items)])
      case ReviewOpname(id, _, _) =>
        var s := st.sessions[id];
        st.(sessions := st.sessions[id := s.(status := Review, version := s.version + 1)])
      case PostOpname(id, location, _) =>
        var s := st.sessions[id];
        var moved := RecordAll(st, Variances(location, s.items));
        moved.(sessions := moved.sessions[id := s.(status := Posted, version := s.version + 1)])
  }

  function Run(st: Stock, cs: seq<Command>): Stock {
    if cs == [] then st else Next(Run(st, cs[..|cs| - 1]), cs[|cs| - 1])
  }

  /** What the readers and the catalogue query guarantee: the products of a session are distinct. */
  predicate Readable(c: Command) {
    c.CreateOpname? ==> forall i, j :: 0 <= i < j < |c.products| ==> c.products[i] != c.products[j]
  }

  // -------------------------------------------------------------- invariants

  /** A stored count is the ledger's sum up to its watermark. */
  ghost predicate CountInv(ms: seq<Movement>, location: nat, i: Item) {
    i.counted.Some? ==>
      var c := i.counted.value;
      && c.sequence <= |ms| && c.system == Sum(ms[..c.sequence], Place(location, i.product))
      && c.variance == c.physical - c.system
  }

  ghost predicate SessionInv(ms: seq<Movement>, s: Session) {
    && (forall i, j :: 0 <= i < j < |s.items| ==> s.items[i].product != s.items[j].product)
    && (forall k :: 0 <= k < |s.items| ==> CountInv(ms, s.location, s.items[k]))
  }

  ghost predicate Balanced(st: Stock) { forall p :: Balance(st, p) == Sum(st.movements, p) }

  ghost predicate Inv(st: Stock) {
    Balanced(st) && forall k :: k in st.sessions ==> SessionInv(st.movements, st.sessions[k])
  }

  // ------------------------------------------------------------------- steps

  lemma SumAppend(ms: seq<Movement>, m: Movement, p: Place)
    ensures Sum(ms + [m], p) == Sum(ms, p) + (if m.place == p then m.delta else 0.0)
  {
    assert (ms + [m])[..|ms|] == ms;
  }

  lemma {:induction false} SumSplit(ms: seq<Movement>, k: nat, p: Place)
    requires k <= |ms|
    ensures Sum(ms, p) == Sum(ms[..k], p) + Sum(ms[k..], p)
  {
    if k == |ms| {
      assert ms[..k] == ms && ms[k..] == [];
    } else {
      var front := ms[..|ms| - 1];
      SumSplit(front, k, p);
      assert front[..k] == ms[..k] && ms[k..][..|ms| - 1 - k] == front[k..];
    }
  }

  lemma {:induction false} NothingAfterWatermark(ms: seq<Movement>, p: Place)
    ensures Sum(ms[..Watermark(ms, p)], p) == Sum(ms, p)
  {
    if ms != [] {
      var front := ms[..|ms| - 1];
      if ms[|ms| - 1].place == p {
        assert ms[..|ms|] == ms;
      } else {
        NothingAfterWatermark(front, p);
        assert front[..Watermark(front, p)] == ms[..Watermark(front, p)];
      }
    }
  }

  lemma MarkKeeps(ms: seq<Movement>, s: Session, m: Movement)
    requires SessionInv(ms, s)
    ensures SessionInv(ms + [m], Mark(s, m))
  {
    var t := Mark(s, m);
    forall k | 0 <= k < |t.items| ensures CountInv(ms + [m], t.location, t.items[k]) {
      assert CountInv(ms, s.location, s.items[k]);
      if t.items[k].counted.Some? {
        var n := t.items[k].counted.value.sequence;
        assert (ms + [m])[..n] == ms[..n];
      }
    }
  }

  lemma RecordKeeps(st: Stock, m: Movement)
    requires Inv(st)
    ensures Inv(Record(st, m))
  {
    var n := Record(st, m);
    forall p ensures Balance(n, p) == Sum(n.movements, p) {
      assert Balance(st, p) == Sum(st.movements, p);
      SumAppend(st.movements, m, p);
    }
    forall k | k in n.sessions ensures SessionInv(n.movements, n.sessions[k]) {
      MarkKeeps(st.movements, st.sessions[k], m);
    }
  }

  lemma {:induction false} RecordAllKeeps(st: Stock, ms: seq<Movement>)
    requires Inv(st)
    ensures Inv(RecordAll(st, ms))
    ensures RecordAll(st, ms).movements == st.movements + ms
    ensures RecordAll(st, ms).sessions.Keys == st.sessions.Keys
  {
    if ms == [] {
      assert st.movements + ms == st.movements;
    } else {
      RecordAllKeeps(st, ms[..|ms| - 1]);
      RecordKeeps(RecordAll(st, ms[..|ms| - 1]), ms[|ms| - 1]);
      assert ms == ms[..|ms| - 1] + [ms[|ms| - 1]];
      assert st.movements + ms == (st.movements + ms[..|ms| - 1]) + [ms[|ms| - 1]];
    }
  }

  /** A count reads the balance: its system quantity is what the balance table holds. */
  lemma CountItemKeeps(ms: seq<Movement>, location: nat, i: Item, physical: real, recount: bool)
    ensures CountInv(ms, location, CountItem(ms, location, i, physical, recount))
  {
    NothingAfterWatermark(ms, Place(location, i.product));
  }

  lemma {:induction false} CountAllKeeps(ms: seq<Movement>, s: Session, counts: seq<(nat, real)>, recount: bool)
    requires SessionInv(ms, s)
    ensures var r := CountAll(ms, s.location, s.items, counts, recount);
      r.Some? ==> |r.value| == |s.items| && SessionInv(ms, s.(items := r.value))
  {
    if counts != [] {
      var front := counts[..|counts| - 1];
      CountAllKeeps(ms, s, front, recount);
      var before := CountAll(ms, s.location, s.items, front, recount);
      if before.Some? {
        var i := Index(before.value, counts[|counts| - 1].0);
        if i.Some? {
          CountItemKeeps(ms, s.location, before.value[i.value], counts[|counts| - 1].1, recount);
        }
      }
    }
  }

  lemma NextKeeps(st: Stock, c: Command)
    requires Inv(st) && Readable(c)
    ensures Inv(Next(st, c))
  {
    if Check(st, c).Done? {
      match c
      case Move(ms) => RecordAllKeeps(st, ms);
      case CreateOpname(_, _, _) =>
      case CountOpname(id, location, _, counts, recount) =>
        CountAllKeeps(st.movements, st.sessions[id], counts, recount);
      case ReviewOpname(_, _, _) =>
      case PostOpname(id, location, _) => PostKeeps(st, c);
    }
  }

  lemma {:induction false} RecordAllKeepsSession(st: Stock, ms: seq<Movement>, id: nat)
    requires id in st.sessions && st.sessions[id].status != Counting
    ensures id in RecordAll(st, ms).sessions && RecordAll(st, ms).sessions[id] == st.sessions[id]
  {
    if ms != [] { RecordAllKeepsSession(st, ms[..|ms| - 1], id); }
  }

  lemma PostKeeps(st: Stock, c: Command)
    requires Inv(st) && c.PostOpname? && Check(st, c).Done?
    ensures Inv(Next(st, c))
  {
    var s := st.sessions[c.opname];
    var ms := Variances(c.location, s.items);
    RecordAllKeeps(st, ms);
    RecordAllKeepsSession(st, ms, c.opname);
    var moved := RecordAll(st, ms);
    assert SessionInv(moved.movements, moved.sessions[c.opname]);
    hide RecordAll, Variances, Sum;
  }

  /** Every run keeps each balance equal to the sum of its movement deltas, and every stored count
      equal to the ledger at its watermark. */
  lemma {:induction false} RunKeeps(st: Stock, cs: seq<Command>)
    requires Inv(st) && forall i :: 0 <= i < |cs| ==> Readable(cs[i])
    ensures Inv(Run(st, cs))
  {
    if cs != [] {
      RunKeeps(st, cs[..|cs| - 1]);
      NextKeeps(Run(st, cs[..|cs| - 1]), cs[|cs| - 1]);
    }
  }

  // ------------------------------------------------------------------ posting

  /** A session's variances hold, for each of its products, exactly that product's variance. */
  lemma {:induction false} VarianceOf(location: nat, items: seq<Item>, k: nat)
    requires forall i :: 0 <= i < |items| ==> items[i].counted.Some?
    requires forall i, j :: 0 <= i < j < |items| ==> items[i].product != items[j].product
    requires k < |items|
    ensures Sum(Variances(location, items), Place(location, items[k].product)) == items[k].counted.value.variance
  {
    var front, last := items[..|items| - 1], items[|items| - 1];
    var p := Place(location, items[k].product);
    if k == |items| - 1 { NoVariance(location, front, items[k].product); } else { VarianceOf(location, front, k); }
    var v := last.counted.value.variance;
    if v == 0.0 {
      assert Variances(location, front) + [] == Variances(location, front);
    } else {
      SumAppend(Variances(location, front),
        Movement(Place(location, last.product), v, if v > 0.0 then OpnameIn else OpnameOut), p);
    }
  }

  lemma {:induction false} NoVariance(location: nat, items: seq<Item>, product: nat)
    requires forall i :: 0 <= i < |items| ==> items[i].counted.Some? && items[i].product != product
    ensures Sum(Variances(location, items), Place(location, product)) == 0.0
  {
    if items != [] {
      var front, last := items[..|items| - 1], items[|items| - 1];
      NoVariance(location, front, product);
      var v := last.counted.value.variance;
      if v == 0.0 {
        assert Variances(location, front) + [] == Variances(location, front);
      } else {
        SumAppend(Variances(location, front),
          Movement(Place(location, last.product), v, if v > 0.0 then OpnameIn else OpnameOut),
                  Place(location, product));
      }
    }
  }

  lemma {:induction false} SumConcat(a: seq<Movement>, b: seq<Movement>, p: Place)
    ensures Sum(a + b, p) == Sum(a, p) + Sum(b, p)
  {
    SumSplit(a + b, |a|, p);
    assert (a + b)[..|a|] == a && (a + b)[|a|..] == b;
  }

  /** Posting leaves each counted product at its physical quantity plus every delta recorded after
      that product's count, whatever was interleaved since. */
  lemma PostLeavesPhysical(st: Stock, c: Command, k: nat)
    requires Inv(st) && c.PostOpname? && Check(st, c).Done?
    requires k < |st.sessions[c.opname].items|
    ensures var i := st.sessions[c.opname].items[k];
      && i.counted.Some? && i.counted.value.sequence <= |st.movements|
      && Balance(Next(st, c), Place(c.location, i.product))
         == i.counted.value.physical + Sum(st.movements[i.counted.value.sequence..], Place(c.location, i.product))
  {
    var s := st.sessions[c.opname];
    var i := s.items[k];
    var p := Place(c.location, i.product);
    var ms := Variances(c.location, s.items);
    assert CountInv(st.movements, s.location, i);
    SumSplit(st.movements, i.counted.value.sequence, p);
    VarianceOf(c.location, s.items, k);
    RecordAllKeeps(st, ms);
    SumConcat(st.movements, ms, p);
    var moved := RecordAll(st, ms);
    assert Balance(moved, p) == Sum(moved.movements, p);
    assert Balance(Next(st, c), p) == Balance(moved, p);
  }

  lemma EmptyPost(st: Stock, location: nat)
    ensures RecordAll(st, Variances(location, [])) == st
  {
  }

  /** What an accepted post does to the tables. */
  lemma PostEffect(st: Stock, c: Command)
    requires c.PostOpname?
    ensures Check(st, c).Rejected? ==> Next(st, c) == st
    ensures Check(st, c).Done? ==> c.opname in st.sessions && forall k :: 0 <= k < |st.sessions[c.opname].items| ==>
      st.sessions[c.opname].items[k].counted.Some?
    ensures Check(st, c).Done? ==>
      var s := st.sessions[c.opname];
      var moved := RecordAll(st, Variances(c.location, s.items));
      Next(st, c) == moved.(sessions := moved.sessions[c.opname := s.(status := Posted, version := s.version + 1)])
  {
    hide RecordAll, Variances;
  }

  /** One turn of the posting loop. */
  lemma VarianceStep(st: Stock, location: nat, items: seq<Item>, i: nat)
    requires forall k :: 0 <= k < |items| ==> items[k].counted.Some?
    requires i < |items|
    ensures var v := items[i].counted.value.variance;
      var done := RecordAll(st, Variances(location, items[..i]));
      var m := Movement(Place(location, items[i].product), v, if v > 0.0 then OpnameIn else OpnameOut);
      RecordAll(st, Variances(location, items[..i + 1])) == if v == 0.0 then done else Record(done, m)
  {
    hide Record;
    var v := items[i].counted.value.variance;
    var done := Variances(location, items[..i]);
    var m := Movement(Place(location, items[i].product), v, if v > 0.0 then OpnameIn else OpnameOut);
    assert items[..i + 1][..i] == items[..i];
    assert done + [] == done && (done + [m])[..|done|] == done;
  }

  // -------------------------------------------------------------- the tables

  class InventoryTables {
    var movements: seq<Movement>
    var balances: map<Place, real>
    var sessions: map<nat, Session>

    function Contents(): Stock
      reads this
    {
      Stock(movements, balances, sessions)
    }

    constructor ()
      ensures Contents() == Stock([], map[], map[]) && Inv(Contents())
    {
      movements, balances, sessions := [], map[], map[];
    }

    /** The insert, the balance upsert and the recount trigger of one movement. */
    method RecordMovement(m: Movement)
      requires Inv(Contents())
      modifies this
      ensures Contents() == Record(old(Contents()), m) && Inv(Contents())
    {
      RecordKeeps(Contents(), m);
      movements := movements + [m];
      balances := balances[m.place := (if m.place in balances then balances[m.place] else 0.0) + m.delta];
      sessions := map k | k in sessions :: Mark(sessions[k], m);
    }

    /** The item loop of an adjustment, a sale, a receipt or a restock. */
    method RecordMovements(ms: seq<Movement>)
      requires Inv(Contents())
      modifies this
      ensures Contents() == RecordAll(old(Contents()), ms) && Inv(Contents())
    {
      for i := 0 to |ms|
        invariant Contents() == RecordAll(old(Contents()), ms[..i]) && Inv(Contents())
      {
        RecordMovement(ms[i]);
        assert ms[..i + 1][..i] == ms[..i];
      }
      assert ms[..|ms|] == ms;
    }

    /** The lock, the session checks and the item checks of postOpnameCommand. */
    method CheckPost(id: nat, location: nat, expected: nat) returns (r: Outcome)
      ensures r == Check(Contents(), Command.PostOpname(id, location, expected))
    {
      if id !in sessions { return Rejected(OpnameNotFound); }
      var s := sessions[id];
      if s.location != location { return Rejected(OpnameTenantMismatch); }
      if s.version != expected { return Rejected(OpnameVersionConflict); }
      if s.status != Review { return Rejected(OpnameStateInvalid); }
      if exists k :: 0 <= k < |s.items| && s.items[k].recount { return Rejected(OpnameRecountRequired); }
      if exists k :: 0 <= k < |s.items| && s.items[k].counted.None? { return Rejected(OpnameCountIncomplete); }
      return Done;
    }

    /** postOpnameCommand. */
    method PostOpname(id: nat, location: nat, expected: nat) returns (r: Outcome)
      requires Inv(Contents())
      modifies this
      ensures r == Check(old(Contents()), Command.PostOpname(id, location, expected))
      ensures Contents() == Next(old(Contents()), Command.PostOpname(id, location, expected)) && Inv(Contents())
    {
      hide Check, Next, Inv, Record, Variances, RecordAll;
      ghost var st, c := Contents(), Command.PostOpname(id, location, expected);
      NextKeeps(st, c);
      r := CheckPost(id, location, expected);
      PostEffect(st, c);
      if r.Rejected? { return; }
      var s := sessions[id];
      var items := s.items;
      EmptyPost(st, location);
      for i := 0 to |items|
        invariant Inv(Contents()) && Contents() == RecordAll(st, Variances(location, items[..i]))
      {
        var v := items[i].counted.value.variance;
        VarianceStep(st, location, items, i);
        if v != 0.0 {
          RecordMovement(Movement(Place(location, items[i].product), v, if v > 0.0 then OpnameIn else OpnameOut));
        }
      }
      assert items[..|items|] == items;
      sessions := sessions[id := s.(status := Posted, version := s.version + 1)];
    }
  }
}
