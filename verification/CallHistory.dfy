/** What a history of calls is answered, in the words of the calls themselves: the first call that ran
    for a command decides it, a repetition is answered with its result, anything else under the same
    command id is refused. */
module CallHistory {
  import opened Canonical
  import opened Outbox
  import opened Wrappers
  import opened Idempotency

  /** One call of executeIdempotent; op is None when the operation would throw. */
  datatype Request = Request(session: Session, command: Command, op: Option<Json>)

  function ServerAfter(rs: seq<Request>): Server {
    if rs == [] then Server(map[], map[], [])
    else
      var r := rs[|rs| - 1];
      Execute(ServerAfter(rs[..|rs| - 1]), r.session, r.command, r.op).0
  }

  /** The answer to the n-th call. */
  function AnswerTo(rs: seq<Request>, n: nat): Answer
    requires n < |rs|
  {
    Execute(ServerAfter(rs[..n]), rs[n].session, rs[n].command, rs[n].op).1
  }

  // ---------------------------------------------------------------- reference

  /** The same command of the same business: one key of the table. */
  predicate SameCommand(a: Request, b: Request) {
    a.session.business == b.session.business && a.command.kind == b.command.kind && a.command.id == b.command.id
  }

  /** A repetition: by the same user on the same device, with the same payload up to key order. */
  ghost predicate Repeats(a: Request, b: Request) {
    a.session.user == b.session.user && a.session.device == b.session.device
    && Same(Prune(a.command.payload), Prune(b.command.payload))
  }

  /** The first earlier call of the same command whose operation did not throw. */
  function FirstRun(rs: seq<Request>, n: nat, r: Request): (i: Option<nat>)
    requires n <= |rs|
    ensures i.Some? ==> i.value < n && SameCommand(rs[i.value], r) && rs[i.value].op.Some?
    ensures i.Some? ==> forall k :: 0 <= k < i.value ==> !(SameCommand(rs[k], r) && rs[k].op.Some?)
    ensures i.None? ==> forall k :: 0 <= k < n ==> !(SameCommand(rs[k], r) && rs[k].op.Some?)
  {
    if n == 0 then None
    else
      var i := FirstRun(rs, n - 1, r);
      if i.Some? then i else if SameCommand(rs[n - 1], r) && rs[n - 1].op.Some? then Some(n - 1) else None
  }

  /** What the n-th call must be answered. */
  ghost function Expected(rs: seq<Request>, n: nat): Answer
    requires n < |rs|
  {
    var r, first := rs[n], FirstRun(rs, n, rs[n]);
    if first.Some? then
      if Repeats(r, rs[first.value]) then Answered(true, rs[first.value].op.value)
      else Refused("IDEMPOTENCY_KEY_REUSE_ERROR")
    else if r.op.Some? then Answered(false, r.op.value)
    else Refused("OPERATION_FAILED")
  }

  // -------------------------------------------------------------------- proof

  lemma KeysOf(a: Request, b: Request)
    ensures KeyOf(a.session, a.command) == KeyOf(b.session, b.command) <==> SameCommand(a, b)
  {
  }

  lemma HashesOf(a: Request, b: Request)
    requires SameCommand(a, b) && WellFormed(a.command.payload) && WellFormed(b.command.payload)
    ensures HashOf(a.session, a.command) == HashOf(b.session, b.command) <==> Repeats(a, b)
  {
    hide Prune, CanonicalForm, Same, WellFormed;
    HashDecidesSameness(a.command.payload, b.command.payload);
  }

  /** The record of a call's command is that of the first call that ran. */
  ghost predicate RecordIs(table: map<Key, Record>, rs: seq<Request>, n: nat, r: Request)
    requires n <= |rs|
  {
    var key, first := KeyOf(r.session, r.command), FirstRun(rs, n, r);
    && (key in table <==> first.Some?)
    && (first.Some? ==>
          var f := rs[first.value];
          table[key] == Record(HashOf(f.session, f.command), Completed, f.op))
  }

  lemma {:induction false} TableIs(rs: seq<Request>, n: nat, r: Request)
    requires n <= |rs|
    ensures RecordIs(ServerAfter(rs[..n]).table, rs, n, r)
  {
    hide HashOf, SameCommand;
    if n > 0 {
      var last, before := rs[n - 1], ServerAfter(rs[..n - 1]);
      assert rs[..n][..n - 1] == rs[..n - 1];
      TableIs(rs, n - 1, r);
      TableIs(rs, n - 1, last);
      KeysOf(last, r);
      SameFirst(rs, n - 1, last, r);
      hide KeyOf, ServerAfter;
      assert ServerAfter(rs[..n]) == Execute(before, last.session, last.command, last.op).0 by { AfterOne(rs, n); }
    }
  }

  lemma AfterOne(rs: seq<Request>, n: nat)
    requires 0 < n <= |rs|
    ensures ServerAfter(rs[..n]) ==
      Execute(ServerAfter(rs[..n - 1]), rs[n - 1].session, rs[n - 1].command, rs[n - 1].op).0
  {
    hide Execute;
    assert rs[..n][..n - 1] == rs[..n - 1];
  }

  lemma {:induction false} SameFirst(rs: seq<Request>, n: nat, a: Request, b: Request)
    requires n <= |rs|
    ensures SameCommand(a, b) ==> FirstRun(rs, n, a) == FirstRun(rs, n, b)
  {
    if n > 0 { SameFirst(rs, n - 1, a, b); }
  }

  /** Every call of every history is answered as the calls before it demand. */
  lemma AnswersAreExpected(rs: seq<Request>, n: nat)
    requires n < |rs| && forall i :: 0 <= i < |rs| ==> WellFormed(rs[i].command.payload)
    ensures AnswerTo(rs, n) == Expected(rs, n)
  {
    hide HashOf, KeyOf, ServerAfter, Repeats, SameCommand, WellFormed;
    TableIs(rs, n, rs[n]);
    var first := FirstRun(rs, n, rs[n]);
    if first.Some? {
      SameFirst(rs, n, rs[n], rs[first.value]);
      CommandSymmetric(rs[first.value], rs[n]);
      HashesOf(rs[n], rs[first.value]);
    }
  }

  lemma CommandSymmetric(a: Request, b: Request)
    requires SameCommand(a, b)
    ensures SameCommand(b, a)
  {
  }

  /** The calls whose operation ran for good: the first of their command that did not throw. */
  ghost function Ran(rs: seq<Request>, n: nat): seq<Effect>
    requires n <= |rs|
  {
    if n == 0 then []
    else
      var r := rs[n - 1];
      Ran(rs, n - 1) +
      (if r.op.Some? && FirstRun(rs, n - 1, r).None?
       then [Effect(Key(r.session.business, r.command.kind, r.command.id), r.op.value)] else [])
  }

  /** And nothing else took effect. */
  lemma {:induction false} EffectsAreFirstRuns(rs: seq<Request>, n: nat)
    requires n <= |rs|
    ensures ServerAfter(rs[..n]).effects == Ran(rs, n)
  {
    hide HashOf, SameCommand;
    if n > 0 {
      EffectsAreFirstRuns(rs, n - 1);
      TableIs(rs, n - 1, rs[n - 1]);
      AfterOne(rs, n);
      hide ServerAfter, FirstRun;
    }
  }
}
