/** executeIdempotent under concurrent transactions and rollbacks. */
module Idempotency {
  import opened Canonical
  import opened Outbox
  import opened Wrappers

  /** The authenticated context of one request. */
  datatype Session = Session(user: nat, device: nat, business: nat)

  /** The unique key of sync.idempotency_records. */
  datatype Key = Key(business: nat, kind: string, id: nat)

  /** What requestHash digests; SHA-256 of it is taken to be injective. */
  datatype Fingerprint = Fingerprint(user: nat, sessionDevice: nat, id: nat, kind: string, payload: Json)

  datatype RecordStatus = Processing | Completed

  datatype Record = Record(hash: Fingerprint, status: RecordStatus, response: Option<Json>)

  /** One committed business operation. */
  datatype Effect = Effect(key: Key, result: Json)

  datatype Answer = Answered(replayed: bool, result: Json) | Refused(code: string)

  /** Where an open transaction stands between its INSERT and its COMMIT. */
  datatype Point = AtOperation | AtUpdate(result: Json) | AtReturn(result: Json)

  datatype Tx = Tx(session: Session, command: Command, row: Record, point: Point)

  /** table and effects are committed; each open transaction holds one uncommitted row. */
  datatype Server = Server(table: map<Key, Record>, open: map<nat, Tx>, effects: seq<Effect>)

  function KeyOf(session: Session, c: Command): Key { Key(session.business, c.kind, c.id) }

  function HashOf(session: Session, c: Command): Fingerprint {
    Fingerprint(session.user, session.device, c.id, c.kind, CanonicalForm(c.payload))
  }

  function TxKey(tx: Tx): Key { KeyOf(tx.session, tx.command) }

  /** ON CONFLICT waits while another transaction holds the key uncommitted. */
  predicate Waits(sv: Server, key: Key) { exists t :: t in sv.open && TxKey(sv.open[t]) == key }

  /** The branch taken when the INSERT found a committed row. */
  function Lookup(row: Record, hash: Fingerprint): Answer {
    if row.hash != hash then Refused("IDEMPOTENCY_KEY_REUSE_ERROR")
    else if row.status == Completed && row.response.Some? then Answered(true, row.response.value)
    else Refused("COMMAND_IN_PROGRESS")
  }

  datatype Begun = Blocked | Decided(answer: Answer) | Opened(server: Server)

  function Begin(sv: Server, t: nat, session: Session, c: Command): Begun {
    var key := KeyOf(session, c);
    if t in sv.open || Waits(sv, key) then Blocked
    else if key in sv.table then Decided(Lookup(sv.table[key], HashOf(session, c)))
    else
      var row := Record(HashOf(session, c), Processing, None);
      Opened(sv.(open := sv.open[t := Tx(session, c, row, AtOperation)]))
  }

  /** The operation returned a result inside the transaction. */
  function Operate(sv: Server, t: nat, result: Json): Option<Server> {
    if t in sv.open && sv.open[t].point == AtOperation then
      Some(sv.(open := sv.open[t := sv.open[t].(point := AtUpdate(result))]))
    else None
  }

  /** UPDATE ... SET status = 'COMPLETED'. */
  function Update(sv: Server, t: nat): Option<Server> {
    if t in sv.open && sv.open[t].point.AtUpdate? then
      var tx := sv.open[t];
      var row := tx.row.(status := Completed, response := Some(tx.point.result));
      Some(sv.(open := sv.open[t := tx.(row := row, point := AtReturn(tx.point.result))]))
    else None
  }

  /** COMMIT publishes the transaction's row, whatever it holds, with its effect. */
  function Commit(sv: Server, t: nat): Option<Server> {
    if t in sv.open && sv.open[t].point.AtReturn? then
      var tx := sv.open[t];
      Some(Server(sv.table[TxKey(tx) := tx.row], sv.open - {t},
                  sv.effects + [Effect(TxKey(tx), tx.point.result)]))
    else None
  }

  /** ROLLBACK, from any point. */
  function Rollback(sv: Server, t: nat): Server { sv.(open := sv.open - {t}) }

  // --------------------------------------------------------------- invariant

  /** Open transactions hold distinct, uncommitted keys, and are COMPLETED before they return. */
  ghost predicate TxInv(sv: Server) {
    && (forall t :: t in sv.open ==> TxKey(sv.open[t]) !in sv.table)
    && (forall t, u :: t in sv.open && u in sv.open && TxKey(sv.open[t]) == TxKey(sv.open[u]) ==> t == u)
    && (forall t :: t in sv.open ==> sv.open[t].row.hash == HashOf(sv.open[t].session, sv.open[t].command))
    && (forall t :: t in sv.open && sv.open[t].point.AtReturn? ==>
          sv.open[t].row.status == Completed && sv.open[t].row.response == Some(sv.open[t].point.result))
  }

  /** Committed records are COMPLETED, and are in bijection with the committed operations. */
  ghost predicate EffectInv(table: map<Key, Record>, effects: seq<Effect>) {
    && (forall k :: k in table ==> table[k].status == Completed && table[k].response.Some?)
    && (forall i, j :: 0 <= i < j < |effects| ==> effects[i].key != effects[j].key)
    && (forall i :: 0 <= i < |effects| ==>
          effects[i].key in table && table[effects[i].key].response == Some(effects[i].result))
    && (forall k :: k in table ==> exists i :: 0 <= i < |effects| && effects[i].key == k)
  }

  ghost predicate Inv(sv: Server) { TxInv(sv) && EffectInv(sv.table, sv.effects) }

  /** Committed records are never changed or removed. */
  ghost predicate Grows(a: Server, b: Server) {
    forall k :: k in a.table ==> k in b.table && b.table[k] == a.table[k]
  }

  lemma BeginKeeps(sv: Server, t: nat, session: Session, c: Command)
    requires Inv(sv) && Begin(sv, t, session, c).Opened?
    ensures Inv(Begin(sv, t, session, c).server) && Grows(sv, Begin(sv, t, session, c).server)
  {
    hide CanonicalForm, EffectInv;
  }

  lemma OperateKeeps(sv: Server, t: nat, result: Json)
    requires Inv(sv) && Operate(sv, t, result).Some?
    ensures Inv(Operate(sv, t, result).value) && Grows(sv, Operate(sv, t, result).value)
  {
    hide HashOf, EffectInv;
  }

  lemma UpdateKeeps(sv: Server, t: nat)
    requires Inv(sv) && Update(sv, t).Some?
    ensures Inv(Update(sv, t).value) && Grows(sv, Update(sv, t).value)
  {
    hide HashOf, EffectInv;
  }

  lemma CommitKeeps(sv: Server, t: nat)
    requires Inv(sv) && Commit(sv, t).Some?
    ensures Inv(Commit(sv, t).value) && Grows(sv, Commit(sv, t).value)
  {
    hide HashOf, EffectInv;
    var tx := sv.open[t];
    EffectAppended(sv.table, sv.effects, TxKey(tx), tx.row, tx.point.result);
  }

  lemma EffectAppended(table: map<Key, Record>, effects: seq<Effect>, key: Key, row: Record, result: Json)
    requires EffectInv(table, effects) && key !in table && row.status == Completed && row.response == Some(result)
    ensures EffectInv(table[key := row], effects + [Effect(key, result)])
  {
    var after := effects + [Effect(key, result)];
    assert after[|effects|].key == key;
    var grown := table[key := row];
    forall k | k in grown ensures exists i :: 0 <= i < |after| && after[i].key == k {
      if k != key {
        var i :| 0 <= i < |effects| && effects[i].key == k;
        assert after[i] == effects[i];
      }
    }
  }

  lemma RollbackKeeps(sv: Server, t: nat)
    requires Inv(sv)
    ensures Inv(Rollback(sv, t)) && Grows(sv, Rollback(sv, t))
  {
    hide HashOf, EffectInv;
  }

  /** No reachable lookup answers COMMAND_IN_PROGRESS, and a replay returns the result of the
      one committed operation of its key. */
  lemma ReplayReturnsFirstResult(sv: Server, t: nat, session: Session, c: Command)
    requires Inv(sv) && Begin(sv, t, session, c).Decided?
    ensures var a := Begin(sv, t, session, c).answer;
      && a != Refused("COMMAND_IN_PROGRESS")
      && (a.Answered? ==> a.replayed)
      && (a.Answered? ==> exists i :: 0 <= i < |sv.effects| && sv.effects[i] == Effect(KeyOf(session, c), a.result))
      && (a.Refused? <==> sv.table[KeyOf(session, c)].hash != HashOf(session, c))
  {
    assert "COMMAND_IN_PROGRESS"[0] != "IDEMPOTENCY_KEY_REUSE_ERROR"[0];
    var key := KeyOf(session, c);
    var i :| 0 <= i < |sv.effects| && sv.effects[i].key == key;
  }

  // ------------------------------------------------------- one call, undisturbed

  /** executeIdempotent as its caller sees it; op is None when the operation throws. */
  function Execute(sv: Server, session: Session, c: Command, op: Option<Json>): (Server, Answer) {
    var key, hash := KeyOf(session, c), HashOf(session, c);
    if key in sv.table then (sv, Lookup(sv.table[key], hash))
    else if op.None? then (sv, Refused("OPERATION_FAILED"))
    else (Server(sv.table[key := Record(hash, Completed, Some(op.value))], sv.open,
                 sv.effects + [Effect(key, op.value)]), Answered(false, op.value))
  }

  /** The transaction steps, run to the end for a fresh transaction, are that one atomic step. */
  lemma StepsRefineExecute(sv: Server, t: nat, session: Session, c: Command, result: Json)
    requires t !in sv.open && !Waits(sv, KeyOf(session, c)) && KeyOf(session, c) !in sv.table
    ensures var b := Begin(sv, t, session, c);
      b.Opened? && Operate(b.server, t, result).Some?
      && Update(Operate(b.server, t, result).value, t).Some?
      && Commit(Update(Operate(b.server, t, result).value, t).value, t) == Some(Execute(sv, session, c, Some(result)).0)
      && Rollback(b.server, t) == sv
  {
    var b := Begin(sv, t, session, c).server;
    assert b.open - {t} == sv.open;
    var u := Update(Operate(b, t, result).value, t).value;
    assert u.open - {t} == sv.open;
  }

  class IdempotencyStore {
    var table: map<Key, Record>
    var effects: seq<Effect>

    constructor ()
      ensures table == map[] && effects == []
    {
      table, effects := map[], [];
    }

    ghost function View(): Server
      reads this
    {
      Server(table, map[], effects)
    }

    method ExecuteIdempotent(session: Session, c: Command, op: Option<Json>) returns (a: Answer)
      modifies this
      ensures (View(), a) == Execute(old(View()), session, c, op)
    {
      var key, hash := KeyOf(session, c), HashOf(session, c);
      if key in table {
        a := Lookup(table[key], hash);
        return;
      }
      var saved, savedEffects := table, effects;
      table := table[key := Record(hash, Processing, None)];
      if op.None? {
        table, effects := saved, savedEffects;
        return Refused("OPERATION_FAILED");
      }
      effects := effects + [Effect(key, op.value)];
      table := table[key := table[key].(status := Completed, response := Some(op.value))];
      assert table == saved[key := Record(hash, Completed, Some(op.value))];
      a := Answered(false, op.value);
    }
  }
}
