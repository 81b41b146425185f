/** stableValue: the canonical form that request hashes are computed from. */
module Canonical {

  /** A JSON value; an object keeps its fields in insertion order. */
  datatype Json =
    | Null
    | Bool(b: bool)
    | Number(n: real)
    | Text(s: string)
    | Array(items: seq<Json>)
    | Object(fields: seq<Field>)

  datatype Field = Field(key: string, value: Json)

  // ------------------------------------------------------------ key order

  /** Array.prototype.sort on strings: lexicographic by code unit. */
  predicate Before(a: string, b: string) {
    if |b| == 0 then false
    else if |a| == 0 then true
    else a[0] < b[0] || (a[0] == b[0] && Before(a[1..], b[1..]))
  }

  lemma {:induction false} BeforeTotal(a: string, b: string)
    ensures a == b || Before(a, b) || Before(b, a)
    ensures !(Before(a, b) && Before(b, a)) && (a == b ==> !Before(a, b))
  {
    if |a| > 0 && |b| > 0 {
      BeforeTotal(a[1..], b[1..]);
      if a[0] == b[0] && a[1..] == b[1..] { assert a == [a[0]] + a[1..] == [b[0]] + b[1..] == b; }
    }
  }

  lemma {:induction false} BeforeTransitive(a: string, b: string, c: string)
    requires Before(a, b) && Before(b, c)
    ensures Before(a, c)
  {
    if |a| > 0 && a[0] == b[0] && b[0] == c[0] { BeforeTransitive(a[1..], b[1..], c[1..]); }
  }

  predicate HasKey(fs: seq<Field>, k: string) { exists i :: 0 <= i < |fs| && fs[i].key == k }

  ghost predicate Within(a: seq<Field>, b: seq<Field>) { forall f :: f in a ==> f in b }

  predicate Distinct(fs: seq<Field>) {
    forall i, j :: 0 <= i < j < |fs| ==> fs[i].key != fs[j].key
  }

  predicate Sorted(fs: seq<Field>) {
    forall i, j :: 0 <= i < j < |fs| ==> Before(fs[i].key, fs[j].key)
  }

  // ------------------------------------------------------------ canonical form

  function Insert(f: Field, fs: seq<Field>): seq<Field> {
    if fs == [] then [f]
    else if Before(fs[0].key, f.key) then [fs[0]] + Insert(f, fs[1..])
    else [f] + fs
  }

  function SortFields(fs: seq<Field>): seq<Field> {
    if fs == [] then [] else Insert(fs[0], SortFields(fs[1..]))
  }

  /** stableValue: arrays map, objects sort their keys, everything else is itself. */
  function StableValue(v: Json): Json
    decreases v
  {
    match v
    case Array(items) => Array(StableItems(items))
    case Object(fields) => Object(SortFields(StableFields(fields)))
    case _ => v
  }

  function StableItems(items: seq<Json>): (r: seq<Json>)
    ensures |r| == |items|
    ensures forall i :: 0 <= i < |r| ==> r[i] == StableValue(items[i])
    decreases items
  {
    if items == [] then [] else [StableValue(items[0])] + StableItems(items[1..])
  }

  function StableFields(fields: seq<Field>): (r: seq<Field>)
    ensures |r| == |fields|
    ensures forall i :: 0 <= i < |r| ==> r[i] == Field(fields[i].key, StableValue(fields[i].value))
    decreases fields
  {
    if fields == [] then []
    else [Field(fields[0].key, StableValue(fields[0].value))] + StableFields(fields[1..])
  }

  /** Keys of one object are distinct, at every depth. */
  predicate WellFormed(v: Json)
    decreases v
  {
    match v
    case Array(items) => forall i :: 0 <= i < |items| ==> WellFormed(items[i])
    case Object(fields) =>
      Distinct(fields) && forall i :: 0 <= i < |fields| ==> WellFormed(fields[i].value)
    case _ => true
  }

  /** Equality up to the order of object keys, stated without sorting. */
  ghost predicate Same(a: Json, b: Json)
    decreases a
  {
    match a
    case Array(xs) =>
      b.Array? && |xs| == |b.items| && forall i :: 0 <= i < |xs| ==> Same(xs[i], b.items[i])
    case Object(fs) =>
      b.Object? && (forall k :: HasKey(fs, k) <==> HasKey(b.fields, k))
      && forall i, j :: 0 <= i < |fs| && 0 <= j < |b.fields| && fs[i].key == b.fields[j].key ==>
                          Same(fs[i].value, b.fields[j].value)
    case _ => a == b
  }

  // ------------------------------------------------------------ sorting facts

  lemma {:induction false} InsertKeeps(f: Field, fs: seq<Field>)
    ensures multiset(Insert(f, fs)) == multiset(fs) + multiset{f}
    ensures forall g :: g in Insert(f, fs) ==> g in fs || g == f
  {
    if fs != [] {
      assert fs == [fs[0]] + fs[1..];
      InsertKeeps(f, fs[1..]);
    }
  }

  lemma {:induction false} InsertSorted(f: Field, fs: seq<Field>)
    requires Sorted(fs) && forall i :: 0 <= i < |fs| ==> fs[i].key != f.key
    ensures Sorted(Insert(f, fs))
  {
    if fs != [] {
      BeforeTotal(fs[0].key, f.key);
      if Before(fs[0].key, f.key) {
        InsertSorted(f, fs[1..]);
        InsertKeeps(f, fs[1..]);
        assert forall g :: g in Insert(f, fs[1..]) ==> Before(fs[0].key, g.key);
      } else {
        forall i | 0 <= i < |fs| ensures Before(f.key, fs[i].key) {
          if i > 0 { BeforeTransitive(f.key, fs[0].key, fs[i].key); }
        }
      }
    }
  }

  lemma {:induction false} SortFieldsSorts(fs: seq<Field>)
    requires Distinct(fs)
    ensures Sorted(SortFields(fs)) && multiset(SortFields(fs)) == multiset(fs)
  {
    if fs != [] {
      assert fs == [fs[0]] + fs[1..];
      SortFieldsSorts(fs[1..]);
      var r := SortFields(fs[1..]);
      forall i | 0 <= i < |r| ensures r[i].key != fs[0].key {
        assert r[i] in multiset(r);
        assert r[i] in fs[1..];
      }
      InsertKeeps(fs[0], r);
      InsertSorted(fs[0], r);
    }
  }

  /** Two sorted field lists with the same fields are the same list. */
  lemma {:induction false} SortedUnique(a: seq<Field>, b: seq<Field>)
    requires Sorted(a) && Sorted(b) && Within(a, b) && Within(b, a)
    ensures a == b
  {
    assert a != [] ==> a[0] in a;
    assert b != [] ==> b[0] in b;
    if a != [] {
      HeadsAgree(a, b);
      WithinTail(a, b); WithinTail(b, a);
      SortedUnique(a[1..], b[1..]);
      assert a == [a[0]] + a[1..] && b == [b[0]] + b[1..];
    }
  }

  lemma HeadsAgree(a: seq<Field>, b: seq<Field>)
    requires Sorted(a) && Sorted(b) && a != [] && b != [] && a[0] in b && b[0] in a
    ensures a[0] == b[0]
  {
    var i :| 0 <= i < |b| && b[i] == a[0];
    var j :| 0 <= j < |a| && a[j] == b[0];
    BeforeTotal(a[0].key, b[0].key);
  }

  lemma WithinTail(a: seq<Field>, b: seq<Field>)
    requires Sorted(a) && a != [] && b != [] && a[0] == b[0] && Within(a, b)
    ensures Within(a[1..], b[1..])
  {
    forall f | f in a[1..] ensures f in b[1..] {
      var i :| 0 <= i < |a[1..]| && a[1..][i] == f;
      assert Before(a[0].key, a[i + 1].key);
      BeforeTotal(a[0].key, a[0].key);
      assert f in a && f != b[0];
      var j :| 0 <= j < |b| && b[j] == f;
      assert b[1..][j - 1] == f;
    }
  }

  // ------------------------------------------------------------ the main result

  lemma SortedStableFields(fs: seq<Field>)
    requires Distinct(fs)
    ensures Sorted(SortFields(StableFields(fs)))
    ensures Within(SortFields(StableFields(fs)), StableFields(fs))
    ensures Within(StableFields(fs), SortFields(StableFields(fs)))
  {
    var st := StableFields(fs);
    SortFieldsSorts(st);
    var sorted := SortFields(st);
    forall f ensures f in sorted <==> f in st {
      assert f in sorted <==> f in multiset(sorted);
      assert f in st <==> f in multiset(st);
    }
  }

  /** Two requests share a canonical form exactly when they are equal up to object key order. */
  lemma {:induction false} CanonicalFormDecidesSameness(a: Json, b: Json)
    requires WellFormed(a) && WellFormed(b)
    ensures StableValue(a) == StableValue(b) <==> Same(a, b)
    decreases a
  {
    match a
    case Array(xs) =>
      if b.Array? {
        SameArrays(xs, b.items);
      }
    case Object(fs) =>
      if b.Object? {
        SameObjects(a, fs, b.fields);
      }
    case _ =>
  }

  lemma {:induction false} SameArrays(xs: seq<Json>, ys: seq<Json>)
    requires forall i :: 0 <= i < |xs| ==> WellFormed(xs[i])
    requires forall i :: 0 <= i < |ys| ==> WellFormed(ys[i])
    ensures StableItems(xs) == StableItems(ys)
       <==> |xs| == |ys| && forall i :: 0 <= i < |xs| ==> Same(xs[i], ys[i])
    decreases xs
  {
    if |xs| == |ys| {
      forall i | 0 <= i < |xs| ensures StableValue(xs[i]) == StableValue(ys[i]) <==> Same(xs[i], ys[i]) {
        CanonicalFormDecidesSameness(xs[i], ys[i]);
      }
      if StableItems(xs) == StableItems(ys) {
        forall i | 0 <= i < |xs| ensures Same(xs[i], ys[i]) {
          assert StableItems(xs)[i] == StableItems(ys)[i];
        }
      }
    }
  }

  lemma {:induction false} SameObjects(a: Json, fs: seq<Field>, gs: seq<Field>)
    requires a.Object? && a.fields == fs && WellFormed(a) && WellFormed(Object(gs))
    ensures SortFields(StableFields(fs)) == SortFields(StableFields(gs)) <==> Same(a, Object(gs))
    decreases fs
  {
    var x, y := StableFields(fs), StableFields(gs);
    SortedStableFields(fs); SortedStableFields(gs);
    forall i, j | 0 <= i < |fs| && 0 <= j < |gs|
      ensures StableValue(fs[i].value) == StableValue(gs[j].value) <==> Same(fs[i].value, gs[j].value)
    {
      assert fs[i].value < fs[i];
      CanonicalFormDecidesSameness(fs[i].value, gs[j].value);
    }
    if SortFields(x) == SortFields(y) {
      forall k ensures HasKey(fs, k) <==> HasKey(gs, k) {
        if HasKey(fs, k) { KeyMatches(fs, gs, k); }
        if HasKey(gs, k) { KeyMatches(gs, fs, k); }
      }
      forall i, j | 0 <= i < |fs| && 0 <= j < |gs| && fs[i].key == gs[j].key
        ensures Same(fs[i].value, gs[j].value)
      {
        ValueMatches(fs, gs, i, j);
      }
    }
    if Same(a, Object(gs)) {
      SameKeysSameFields(fs, gs); SameKeysSameFields(gs, fs);
      SortedUnique(SortFields(x), SortFields(y));
    }
  }

  lemma KeyMatches(fs: seq<Field>, gs: seq<Field>, k: string)
    requires HasKey(fs, k) && Within(StableFields(fs), StableFields(gs))
    ensures HasKey(gs, k)
  {
    var i :| 0 <= i < |fs| && fs[i].key == k;
    var j := FieldMatches(fs, gs, i);
  }

  lemma ValueMatches(fs: seq<Field>, gs: seq<Field>, i: nat, j: nat)
    requires Distinct(gs) && Within(StableFields(fs), StableFields(gs))
    requires i < |fs| && j < |gs| && fs[i].key == gs[j].key
    ensures StableValue(fs[i].value) == StableValue(gs[j].value)
  {
    hide *;
    var k := FieldMatches(fs, gs, i);
    SameIndex(gs, j, k);
  }

  lemma SameIndex(gs: seq<Field>, j: nat, k: nat)
    requires Distinct(gs) && j < |gs| && k < |gs| && gs[j].key == gs[k].key
    ensures j == k
  {
  }

  lemma FieldMatches(fs: seq<Field>, gs: seq<Field>, i: nat) returns (j: nat)
    requires i < |fs| && Within(StableFields(fs), StableFields(gs))
    ensures j < |gs| && fs[i].key == gs[j].key && StableValue(fs[i].value) == StableValue(gs[j].value)
  {
    var x, y := StableFields(fs), StableFields(gs);
    assert x[i] in x;
    j :| 0 <= j < |y| && y[j] == x[i];
  }

  lemma SameKeysSameFields(fs: seq<Field>, gs: seq<Field>)
    requires forall k :: HasKey(fs, k) ==> HasKey(gs, k)
    requires forall i, j :: 0 <= i < |fs| && 0 <= j < |gs| && fs[i].key == gs[j].key ==>
                              StableValue(fs[i].value) == StableValue(gs[j].value)
    ensures Within(StableFields(fs), StableFields(gs))
  {
    var x, y := StableFields(fs), StableFields(gs);
    forall f | f in x ensures f in y {
      var i :| 0 <= i < |x| && x[i] == f;
      assert HasKey(fs, fs[i].key);
      var j :| 0 <= j < |gs| && gs[j].key == fs[i].key;
      assert y[j] == x[i];
    }
  }

  // ------------------------------------------------------------- "__proto__"

  const PROTO := "__proto__"

  /** Assigning target["__proto__"] sets a prototype instead of a member, so such a member is lost. */
  function Prune(v: Json): Json
    decreases v
  {
    match v
    case Array(items) => Array(PruneItems(items))
    case Object(fields) => Object(PruneFields(fields))
    case _ => v
  }

  function PruneItems(items: seq<Json>): (r: seq<Json>)
    ensures |r| == |items| && forall i :: 0 <= i < |items| ==> r[i] == Prune(items[i])
    decreases items
  {
    if items == [] then [] else [Prune(items[0])] + PruneItems(items[1..])
  }

  function PruneFields(fields: seq<Field>): seq<Field>
    decreases fields
  {
    if fields == [] then []
    else
      (if fields[0].key == PROTO then [] else [Field(fields[0].key, Prune(fields[0].value))]) + PruneFields(fields[1..])
  }

  /** What requestHash digests. */
  function CanonicalForm(v: Json): Json { StableValue(Prune(v)) }

  lemma {:induction false} PruneKeeps(v: Json)
    requires WellFormed(v)
    ensures WellFormed(Prune(v))
    decreases v
  {
    match v
    case Array(items) =>
      forall i | 0 <= i < |items| ensures WellFormed(Prune(items[i])) { PruneKeeps(items[i]); }
    case Object(fields) => PruneFieldsKeep(fields);
    case _ =>
  }

  lemma {:induction false} PruneFieldsKeep(fs: seq<Field>)
    requires Distinct(fs) && forall i :: 0 <= i < |fs| ==> WellFormed(fs[i].value)
    ensures var r := PruneFields(fs);
      && Distinct(r) && (forall i :: 0 <= i < |r| ==> WellFormed(r[i].value))
      && (forall i :: 0 <= i < |r| ==> HasKey(fs, r[i].key))
    decreases fs
  {
    if fs != [] {
      var rest := fs[1..];
      assert fs == [fs[0]] + rest;
      PruneFieldsKeep(rest);
      PruneKeeps(fs[0].value);
      var r := PruneFields(rest);
      forall i | 0 <= i < |r| ensures HasKey(fs, r[i].key) && r[i].key != fs[0].key {
        var j :| 0 <= j < |rest| && rest[j].key == r[i].key;
        assert fs[j + 1].key == r[i].key;
      }
    }
  }

  /** Two requests are hashed alike exactly when, without their "__proto__" members, they are equal
      up to the order of object keys. */
  lemma HashDecidesSameness(a: Json, b: Json)
    requires WellFormed(a) && WellFormed(b)
    ensures CanonicalForm(a) == CanonicalForm(b) <==> Same(Prune(a), Prune(b))
  {
    PruneKeeps(a); PruneKeeps(b);
    hide StableValue, Prune, Same, WellFormed;
    CanonicalFormDecidesSameness(Prune(a), Prune(b));
  }

  /** No object at any depth has a "__proto__" member. */
  predicate NoProto(v: Json)
    decreases v
  {
    match v
    case Array(items) => forall i :: 0 <= i < |items| ==> NoProto(items[i])
    case Object(fields) => forall i :: 0 <= i < |fields| ==> fields[i].key != "__proto__" && NoProto(fields[i].value)
    case _ => true
  }

  lemma {:induction false} NothingPruned(v: Json)
    requires NoProto(v)
    ensures Prune(v) == v
    decreases v
  {
    match v
    case Array(items) =>
      forall i | 0 <= i < |items| ensures Prune(items[i]) == items[i] { NothingPruned(items[i]); }
      assert PruneItems(items) == items;
    case Object(fields) => NoFieldPruned(fields);
    case _ =>
  }

  lemma {:induction false} NoFieldPruned(fs: seq<Field>)
    requires forall i :: 0 <= i < |fs| ==> fs[i].key != "__proto__" && NoProto(fs[i].value)
    ensures PruneFields(fs) == fs
    decreases fs
  {
    if fs != [] {
      assert fs == [fs[0]] + fs[1..];
      NothingPruned(fs[0].value);
      NoFieldPruned(fs[1..]);
    }
  }

  /** Without such members the hash decides sameness of the requests as they were sent. */
  lemma PlainHashDecidesSameness(a: Json, b: Json)
    requires WellFormed(a) && WellFormed(b) && NoProto(a) && NoProto(b)
    ensures CanonicalForm(a) == CanonicalForm(b) <==> Same(a, b)
  {
    hide Prune, Same, WellFormed, CanonicalForm;
    NothingPruned(a); NothingPruned(b);
    HashDecidesSameness(a, b);
  }

  /** So a "__proto__" member does not reach the hash. */
  lemma ProtoIsNotHashed(v: Json)
    ensures CanonicalForm(Object([Field(PROTO, v)])) == CanonicalForm(Object([]))
  {
    var fs := [Field(PROTO, v)];
    assert fs[1..] == [];
    assert PruneFields(fs) == [] + PruneFields([]) == [];
  }
}
