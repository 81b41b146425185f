/** Command delivery as a transition system: several lease holders over one outbox, a network
    that loses, repeats and delays, and concurrent server transactions. */
module Delivery {
  import opened Canonical
  import opened Outbox
  import opened Wrappers
  import opened Idempotency

  datatype Call = Call(session: Session, command: Command)

  datatype Reply = Reply(call: Call, accepted: bool)

  /** Calls and replies are never consumed: any of them may arrive late, repeatedly or never. */
  datatype System = System(rows: seq<Row>, calls: set<Call>, replies: set<Reply>, server: Server)

  datatype Step =
    | Enqueue(row: Row)                               // the POS records a new command
    | Claim(input: ClaimInput)                        // some holder claims a batch
    | Send(i: nat, session: Session)                  // a holder pushes a row
    | Foreign(call: Call)                             // any other client, even one reusing an id
    | StartTx(t: nat, call: Call)                     // a call reaches executeIdempotent
    | RunOperation(t: nat, result: Json)
    | RecordResult(t: nat)
    | CommitTx(t: nat)
    | RollbackTx(t: nat)
    | RefuseCall(call: Call)                          // refused around the transaction
    | Settle(owner: nat, batch: seq<Settlement>)      // a holder settles what it was told
    | Recover(business: nat)

  function NewRow(r: Row): bool {
    r.status == Pending && r.leaseOwner.None?
  }

  predicate Accepts(d: Disposition) { d == DAccepted || d == DAcceptedWithReview }

  /** A holder settles as accepted only on an accepting reply to that row's own command. */
  ghost predicate Told(s: System, st: Settlement) {
    Accepts(st.disposition) ==>
      var i := IndexOf(s.rows, st.id);
      i.Some? && exists r :: r in s.replies && r.accepted && r.call.command == s.rows[i.value].command
                             && r.call.session.business == r.call.command.business
  }

  ghost predicate Enabled(s: System, step: Step) {
    match step
    case Enqueue(row) => NewRow(row) && IndexOf(s.rows, row.command.id).None?
    case Claim(input) => input.limit > 0 && input.now < input.expires
    case Send(i, session) => i < |s.rows| && session.business == s.rows[i].command.business
    case Foreign(call) => true
    case StartTx(t, call) => call in s.calls && !Begin(s.server, t, call.session, call.command).Blocked?
    case RunOperation(t, result) => Operate(s.server, t, result).Some?
    case RecordResult(t) => Update(s.server, t).Some?
    case CommitTx(t) => Commit(s.server, t).Some?
    case RollbackTx(t) => t in s.server.open
    case RefuseCall(call) => call in s.calls
    case Settle(owner, batch) =>
      WellFormedBatch(batch) && forall k :: 0 <= k < |batch| ==> Told(s, batch[k])
    case Recover(business) => true
  }

  function TxCall(tx: Tx): Call { Call(tx.session, tx.command) }

  ghost function Apply(s: System, step: Step): System
    requires Enabled(s, step)
  {
    match step
    case Enqueue(row) => s.(rows := s.rows + [row])
    case Claim(input) => s.(rows := AfterClaim(s.rows, input))
    case Send(i, session) => s.(calls := s.calls + {Call(session, s.rows[i].command)})
    case Foreign(call) => s.(calls := s.calls + {call})
    case StartTx(t, call) =>
      (match Begin(s.server, t, call.session, call.command)
       case Opened(sv) => s.(server := sv)
       case Decided(a) => s.(replies := s.replies + {Reply(call, a.Answered?)})
       case Blocked => s)
    case RunOperation(t, result) => s.(server := Operate(s.server, t, result).value)
    case RecordResult(t) => s.(server := Update(s.server, t).value)
    case CommitTx(t) =>
      s.(server := Commit(s.server, t).value, replies := s.replies + {Reply(TxCall(s.server.open[t]), true)})
    case RollbackTx(t) =>
      s.(server := Rollback(s.server, t), replies := s.replies + {Reply(TxCall(s.server.open[t]), false)})
    case RefuseCall(call) => s.(replies := s.replies + {Reply(call, false)})
    case Settle(owner, batch) =>
      var r := SettleAll(s.rows, owner, batch);
      if r.Ok? then s.(rows := r.value) else s
    case Recover(business) => s.(rows := AfterRecovery(s.rows, business))
  }

  // --------------------------------------------------------------- invariant

  /** The server holds a COMPLETED record whose hash is that of this very call. */
  ghost predicate Recorded(sv: Server, call: Call) {
    var key := KeyOf(call.session, call.command);
    key in sv.table && sv.table[key].status == Completed
    && sv.table[key].hash == HashOf(call.session, call.command)
  }

  ghost predicate RecordedFor(sv: Server, c: Command) {
    exists session: Session :: session.business == c.business && Recorded(sv, Call(session, c))
  }

  ghost predicate RowsBacked(s: System) {
    forall i :: 0 <= i < |s.rows| && s.rows[i].status == Accepted ==> RecordedFor(s.server, s.rows[i].command)
  }

  ghost predicate RepliesBacked(s: System) {
    forall r :: r in s.replies && r.accepted ==> Recorded(s.server, r.call)
  }

  ghost predicate SystemInv(s: System) {
    UniqueIds(s.rows) && Inv(s.server) && RepliesBacked(s) && RowsBacked(s)
  }

  /** Every ACCEPTED row of a is the same row of b. */
  ghost predicate AcceptedStays(a: seq<Row>, b: seq<Row>) {
    |a| <= |b| && forall i :: 0 <= i < |a| ==>
      b[i].command == a[i].command && (a[i].status == Accepted ==> b[i] == a[i])
  }

  lemma RecordedSurvives(a: Server, b: Server, call: Call)
    requires Grows(a, b) && Recorded(a, call)
    ensures Recorded(b, call)
  {
  }

  lemma ServerStepKeeps(s: System, sv: Server)
    requires SystemInv(s) && Inv(sv) && Grows(s.server, sv)
    ensures SystemInv(s.(server := sv))
  {
    hide HashOf;
    var s' := s.(server := sv);
    forall i | 0 <= i < |s.rows| && s.rows[i].status == Accepted ensures RecordedFor(sv, s.rows[i].command) {
      var session: Session :| session.business == s.rows[i].command.business
                              && Recorded(s.server, Call(session, s.rows[i].command));
      RecordedSurvives(s.server, sv, Call(session, s.rows[i].command));
    }
  }

  lemma ReplyKeeps(s: System, r: Reply)
    requires SystemInv(s) && (r.accepted ==> Recorded(s.server, r.call))
    ensures SystemInv(s.(replies := s.replies + {r}))
  {
    hide Recorded, Inv;
  }

  lemma CommitRecords(sv: Server, t: nat)
    requires Inv(sv) && Commit(sv, t).Some?
    ensures Recorded(Commit(sv, t).value, TxCall(sv.open[t]))
  {
    hide HashOf;
  }

  lemma RowStepKeeps(s: System, rows: seq<Row>)
    requires SystemInv(s) && UniqueIds(rows)
    requires forall i :: 0 <= i < |rows| && rows[i].status == Accepted ==> RecordedFor(s.server, rows[i].command)
    ensures SystemInv(s.(rows := rows))
  {
    hide Inv, RecordedFor, Recorded;
  }

  lemma ToldIsRecorded(s: System, st: Settlement)
    requires SystemInv(s) && Told(s, st) && Accepts(st.disposition)
    ensures var i := IndexOf(s.rows, st.id); i.Some? && RecordedFor(s.server, s.rows[i.value].command)
  {
    hide Recorded, Inv;
    var i := IndexOf(s.rows, st.id);
    var r :| r in s.replies && r.accepted && r.call.command == s.rows[i.value].command
             && r.call.session.business == r.call.command.business;
    assert r.call == Call(r.call.session, s.rows[i.value].command);
  }

  predicate ToldAbout(st: Settlement, r: Row) { Accepts(st.disposition) && r.command.id == st.id }

  lemma {:induction false} SettleBacked(s: System, rows: seq<Row>, owner: nat, batch: seq<Settlement>)
    requires UniqueIds(rows) && WellFormedBatch(batch)
    requires forall i :: 0 <= i < |rows| && rows[i].status == Accepted ==> RecordedFor(s.server, rows[i].command)
    requires forall k, i :: 0 <= k < |batch| && 0 <= i < |rows| && ToldAbout(batch[k], rows[i]) ==>
                              RecordedFor(s.server, rows[i].command)
    requires SettleAll(rows, owner, batch).Ok?
    ensures var after := SettleAll(rows, owner, batch).value;
      UniqueIds(after) && AcceptedStays(rows, after)
      && forall i :: 0 <= i < |after| && after[i].status == Accepted ==> RecordedFor(s.server, after[i].command)
    decreases |batch|
  {
    hide RecordedFor;
    if batch != [] {
      var mid := SettleOne(rows, owner, batch[0]).value;
      var j := IndexOf(rows, batch[0].id).value;
      assert mid == rows[j := Settled(rows[j], batch[0])];
      assert forall k :: 0 <= k < |batch| - 1 ==> batch[1..][k] == batch[k + 1];
      SettleBacked(s, mid, owner, batch[1..]);
    }
  }

  lemma SettleKeeps(s: System, owner: nat, batch: seq<Settlement>)
    requires SystemInv(s) && Enabled(s, Settle(owner, batch)) && SettleAll(s.rows, owner, batch).Ok?
    ensures var rows := SettleAll(s.rows, owner, batch).value;
      SystemInv(s.(rows := rows)) && AcceptedStays(s.rows, rows)
  {
    hide Recorded, Inv;
    forall k, i | 0 <= k < |batch| && 0 <= i < |s.rows| && ToldAbout(batch[k], s.rows[i])
      ensures RecordedFor(s.server, s.rows[i].command)
    {
      UniqueIndex(s.rows, i);
      ToldIsRecorded(s, batch[k]);
    }
    SettleBacked(s, s.rows, owner, batch);
    RowStepKeeps(s, SettleAll(s.rows, owner, batch).value);
  }

  lemma ClaimKeepsAccepted(rows: seq<Row>, input: ClaimInput)
    ensures AcceptedStays(rows, AfterClaim(rows, input))
    ensures forall i :: 0 <= i < |rows| ==>
      (AfterClaim(rows, input)[i].status == Accepted <==> rows[i].status == Accepted)
  {
    hide Claimed;
    forall i: nat | i < |rows| && i in Claimed(rows, input) ensures rows[i].status != Accepted {
      ClaimedAreClaimable(rows, input, i);
    }
  }

  lemma RowStepsKeep(s: System, step: Step)
    requires SystemInv(s) && Enabled(s, step) && (step.Enqueue? || step.Claim? || step.Recover?)
    ensures SystemInv(Apply(s, step)) && AcceptedStays(s.rows, Apply(s, step).rows)
  {
    hide Recorded, Inv, RecordedFor, Claimed;
    if step.Claim? {
      ClaimKeepsIds(s.rows, step.input);
      ClaimKeepsAccepted(s.rows, step.input);
    }
    RowStepKeeps(s, Apply(s, step).rows);
  }

  lemma ServerStepsKeep(s: System, step: Step)
    requires SystemInv(s) && Enabled(s, step)
    requires step.StartTx? || step.RunOperation? || step.RecordResult? || step.CommitTx? || step.RollbackTx?
    ensures SystemInv(Apply(s, step)) && Apply(s, step).rows == s.rows
  {
    hide Inv, Begin, Operate, Update, Commit, Rollback, RowsBacked, RepliesBacked, HashOf;
    match step
    case StartTx(t, call) =>
      var b := Begin(s.server, t, call.session, call.command);
      if b.Opened? {
        BeginKeeps(s.server, t, call.session, call.command);
        ServerStepKeeps(s, b.server);
      } else {
        AnswerIsRecorded(s.server, t, call);
        ReplyKeeps(s, Reply(call, b.answer.Answered?));
      }
    case RunOperation(t, result) =>
      OperateKeeps(s.server, t, result);
      ServerStepKeeps(s, Operate(s.server, t, result).value);
    case RecordResult(t) =>
      UpdateKeeps(s.server, t);
      ServerStepKeeps(s, Update(s.server, t).value);
    case CommitTx(t) =>
      CommitKeeps(s.server, t); CommitIsOpen(s.server, t); CommitRecords(s.server, t);
      var mid := s.(server := Commit(s.server, t).value);
      ServerStepKeeps(s, mid.server);
      ReplyKeeps(mid, Reply(TxCall(s.server.open[t]), true));
    case RollbackTx(t) =>
      RollbackKeeps(s.server, t);
      var mid := s.(server := Rollback(s.server, t));
      ServerStepKeeps(s, mid.server);
      ReplyKeeps(mid, Reply(TxCall(s.server.open[t]), false));
    case _ =>
  }

  lemma CommitIsOpen(sv: Server, t: nat)
    requires Commit(sv, t).Some?
    ensures t in sv.open
  {
  }

  lemma AnswerIsRecorded(sv: Server, t: nat, call: Call)
    requires Inv(sv) && Begin(sv, t, call.session, call.command).Decided?
    ensures Begin(sv, t, call.session, call.command).answer.Answered? ==> Recorded(sv, call)
  {
    hide HashOf;
  }

  /** Every step of the system keeps the invariant and every ACCEPTED row. */
  lemma StepKeeps(s: System, step: Step)
    requires SystemInv(s) && Enabled(s, step)
    ensures SystemInv(Apply(s, step)) && AcceptedStays(s.rows, Apply(s, step).rows)
  {
    hide Inv, RowsBacked, RepliesBacked, UniqueIds, Begin, AfterClaim, AfterRecovery, SettleAll;
    match step
    case Settle(owner, batch) =>
      if SettleAll(s.rows, owner, batch).Ok? { SettleKeeps(s, owner, batch); }
    case RefuseCall(call) => ReplyKeeps(s, Reply(call, false));
    case Enqueue(_) => RowStepsKeep(s, step);
    case Claim(_) => RowStepsKeep(s, step);
    case Recover(_) => RowStepsKeep(s, step);
    case Send(i, session) => CallKeeps(s, Call(session, s.rows[i].command));
    case Foreign(call) => CallKeeps(s, call);
    case _ => ServerStepsKeep(s, step);
  }

  lemma CallKeeps(s: System, call: Call)
    requires SystemInv(s)
    ensures SystemInv(s.(calls := s.calls + {call}))
  {
  }

  // -------------------------------------------------------------- whole runs

  ghost predicate Initial(s: System) {
    s.rows == [] && s.calls == {} && s.replies == {} && s.server == Server(map[], map[], [])
  }

  ghost predicate Next(a: System, b: System) { exists step :: Enabled(a, step) && Apply(a, step) == b }

  ghost predicate IsRun(run: seq<System>) {
    |run| > 0 && Initial(run[0]) && forall i :: 0 <= i < |run| - 1 ==> Next(run[i], run[i + 1])
  }

  lemma {:induction false} RunKeepsInvariant(run: seq<System>, n: nat)
    requires IsRun(run) && n < |run|
    ensures SystemInv(run[n])
  {
    if n > 0 {
      RunKeepsInvariant(run, n - 1);
      assert Next(run[n - 1], run[n - 1 + 1]);
      var step :| Enabled(run[n - 1], step) && Apply(run[n - 1], step) == run[n];
      hide SystemInv, Enabled, Apply;
      StepKeeps(run[n - 1], step);
    }
  }

  /** Exactly-once effect: in every state of every run no key has two committed operations, and
      every ACCEPTED outbox row has a COMPLETED record with the hash of its own command. */
  lemma ExactlyOnce(run: seq<System>, n: nat)
    requires IsRun(run) && n < |run|
    ensures var s := run[n];
      && (forall i, j :: 0 <= i < j < |s.server.effects| ==> s.server.effects[i].key != s.server.effects[j].key)
      && (forall i :: 0 <= i < |s.rows| && s.rows[i].status == Accepted ==> RecordedFor(s.server, s.rows[i].command))
      && (forall k :: k in s.server.table ==> s.server.table[k].status == Completed)
  {
    RunKeepsInvariant(run, n);
  }

  /** ACCEPTED is absorbing over every run. */
  lemma {:induction false} AcceptedIsAbsorbing(run: seq<System>, m: nat, n: nat)
    requires IsRun(run) && m <= n < |run|
    ensures AcceptedStays(run[m].rows, run[n].rows)
  {
    if m < n {
      AcceptedIsAbsorbing(run, m, n - 1);
      RunKeepsInvariant(run, n - 1);
      assert Next(run[n - 1], run[n - 1 + 1]);
      var step :| Enabled(run[n - 1], step) && Apply(run[n - 1], step) == run[n];
      hide *;
      StepKeeps(run[n - 1], step);
      AcceptedStaysTransitive(run[m].rows, run[n - 1].rows, run[n].rows);
    }
  }

  lemma AcceptedStaysTransitive(a: seq<Row>, b: seq<Row>, c: seq<Row>)
    requires AcceptedStays(a, b) && AcceptedStays(b, c)
    ensures AcceptedStays(a, c)
  {
  }

  /** A recorded command is, up to object key order and "__proto__" members, the command the row carries. */
  lemma RecordedPayloadIsSame(sv: Server, a: Call, b: Call)
    requires Recorded(sv, a) && Recorded(sv, b) && KeyOf(a.session, a.command) == KeyOf(b.session, b.command)
    requires WellFormed(a.command.payload) && WellFormed(b.command.payload)
    ensures a.session == b.session && Same(Prune(a.command.payload), Prune(b.command.payload))
  {
    HashDecidesSameness(a.command.payload, b.command.payload);
  }

  /** A holder whose row was re-leased to someone else changes nothing, not even its other rows. */
  lemma StaleSettlementChangesNothing(s: System, owner: nat, batch: seq<Settlement>, k: nat)
    requires UniqueIds(s.rows) && Enabled(s, Settle(owner, batch)) && k < |batch|
    requires var i := IndexOf(s.rows, batch[k].id); i.Some? && s.rows[i.value].leaseOwner != Some(owner)
    ensures Apply(s, Settle(owner, batch)) == s
  {
    SettleCommitsIffHeld(s.rows, owner, batch);
  }
}
