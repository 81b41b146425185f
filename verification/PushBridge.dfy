/** From the server's push loop to the holder's settlements: why an accepting settlement always
    rests on a committed record. */
module PushBridge {
  import opened Canonical
  import opened Outbox
  import opened Wrappers
  import opened Idempotency
  import opened Delivery
  import opened PushRun

  // ------------------------------------------------------- the server's push

  /** What happens to one command of a batch: refused before its transaction (online only, grant
      out of scope, validation), or executed; op is None when the operation throws. */
  datatype Dispatch =
    | Refuse(retryable: bool, code: string)
    | Run(op: Option<Json>, review: bool, code: string, retryable: bool)

  predicate Accepting(s: ResultStatus) { s == StAccepted || s == StAcceptedWithReview }

  function Rejection(retryable: bool): ResultStatus { if retryable then StRejectedRetryable else StRejectedOther }

  /** One entry of results: accepted if and only if executeIdempotent answered. */
  function ResultOf(id: nat, d: Dispatch, answered: bool): CommandResult {
    if d.Run? && answered then CommandResult(id, if d.review then StAcceptedWithReview else StAccepted, d.code)
    else CommandResult(id, Rejection(d.retryable), d.code)
  }

  /** One command of the loop: the server after it, and whether it was answered. */
  function Served(sv: Server, call: Call, d: Dispatch): (Server, bool) {
    if d.Refuse? then (sv, false)
    else
      var (after, a) := Execute(sv, call.session, call.command, d.op);
      (after, a.Answered?)
  }

  /** The transaction steps of one dispatched command, ending with its reply. */
  function ServeSteps(sv: Server, t: nat, call: Call, d: Dispatch): seq<Step> {
    if d.Refuse? then [RefuseCall(call)]
    else if KeyOf(call.session, call.command) in sv.table then [StartTx(t, call)]
    else if d.op.None? then [StartTx(t, call), RollbackTx(t)]
    else [StartTx(t, call), RunOperation(t, d.op.value), RecordResult(t), CommitTx(t)]
  }

  /** Steps enabled one after the other. */
  ghost predicate Path(a: System, steps: seq<Step>, b: System)
    decreases |steps|
  {
    if steps == [] then a == b else Enabled(a, steps[0]) && Path(Apply(a, steps[0]), steps[1..], b)
  }

  lemma {:induction false} PathConcat(a: System, s: seq<Step>, b: System, t: seq<Step>, c: System)
    requires Path(a, s, b) && Path(b, t, c)
    ensures Path(a, s + t, c)
    decreases |s|
  {
    hide Enabled, Apply;
    if s == [] {
      assert s + t == t;
    } else {
      PathConcat(Apply(a, s[0]), s[1..], b, t, c);
      assert (s + t)[0] == s[0] && (s + t)[1..] == s[1..] + t;
    }
  }

  /** A call that finds its key free runs its transaction undisturbed. */
  ghost predicate Free(sv: Server, t: nat, call: Call) {
    t !in sv.open && !Waits(sv, KeyOf(call.session, call.command))
  }

  /** Serving one command is a path of delivery steps, and its reply says whether it was answered. */
  lemma ServeIsPath(s: System, t: nat, call: Call, d: Dispatch)
    requires call in s.calls && Free(s.server, t, call)
    ensures var (after, answered) := Served(s.server, call, d);
      Path(s, ServeSteps(s.server, t, call, d), s.(server := after, replies := s.replies + {Reply(call, answered)}))
  {
    if d.Refuse? {
      SingleStep(s, RefuseCall(call));
    } else if KeyOf(call.session, call.command) in s.server.table {
      hide HashOf;
      SingleStep(s, StartTx(t, call));
    } else {
      FreshIsPath(s, t, call, d.op);
    }
  }

  lemma SingleStep(s: System, step: Step)
    requires Enabled(s, step)
    ensures Path(s, [step], Apply(s, step))
  {
    hide Enabled, Apply;
    assert [step][1..] == [];
  }

  lemma FreshIsPath(s: System, t: nat, call: Call, op: Option<Json>)
    requires call in s.calls && Free(s.server, t, call) && KeyOf(call.session, call.command) !in s.server.table
    ensures var (after, a) := Execute(s.server, call.session, call.command, op);
      var steps := if op.None? then [StartTx(t, call), RollbackTx(t)]
                   else [StartTx(t, call), RunOperation(t, op.value), RecordResult(t), CommitTx(t)];
      Path(s, steps, s.(server := after, replies := s.replies + {Reply(call, a.Answered?)}))
  {
    var s1 := Started(s, t, call);
    if op.None? { FailedIsPath(s, s1, t, call); } else { CommittedIsPath(s, s1, t, call, op.value); }
  }

  /** The system with the call's transaction open. */
  ghost function Started(s: System, t: nat, call: Call): (r: System)
    requires call in s.calls && Free(s.server, t, call) && KeyOf(call.session, call.command) !in s.server.table
    ensures Enabled(s, StartTx(t, call)) && r == Apply(s, StartTx(t, call)) == s.(server := r.server)
    ensures Begin(s.server, t, call.session, call.command) == Opened(r.server)
    ensures t in r.server.open && TxCall(r.server.open[t]) == call
  {
    s.(server := Begin(s.server, t, call.session, call.command).server)
  }

  lemma FailedIsPath(s: System, s1: System, t: nat, call: Call)
    requires call in s.calls && Free(s.server, t, call) && KeyOf(call.session, call.command) !in s.server.table
    requires s1 == Started(s, t, call)
    ensures Path(s, [StartTx(t, call), RollbackTx(t)], s.(replies := s.replies + {Reply(call, false)}))
  {
    hide HashOf;
    var s2 := s.(replies := s.replies + {Reply(call, false)});
    assert Rollback(s1.server, t) == s.server by { StepsRefineExecute(s.server, t, call.session, call.command, Null); }
    assert Enabled(s1, RollbackTx(t)) && Apply(s1, RollbackTx(t)) == s2;
    hide Enabled, Apply;
    TwoSteps(s, StartTx(t, call), s1, RollbackTx(t), s2);
  }

  lemma CommittedIsPath(s: System, s1: System, t: nat, call: Call, result: Json)
    requires call in s.calls && Free(s.server, t, call) && KeyOf(call.session, call.command) !in s.server.table
    requires s1 == Started(s, t, call)
    ensures Path(s, [StartTx(t, call), RunOperation(t, result), RecordResult(t), CommitTx(t)],
                 s.(server := Execute(s.server, call.session, call.command, Some(result)).0,
                    replies := s.replies + {Reply(call, true)}))
  {
    hide HashOf, Begin, Execute, Free, Waits;
    StepsRefine(s.server, t, call, result);
    var sv2 := Operate(s1.server, t, result).value;
    var sv3 := Update(sv2, t).value;
    var s2, s3 := s.(server := sv2), s.(server := sv3);
    var s4 := s.(server := Commit(sv3, t).value, replies := s.replies + {Reply(call, true)});
    assert Enabled(s1, RunOperation(t, result)) && Apply(s1, RunOperation(t, result)) == s2;
    assert Enabled(s2, RecordResult(t)) && Apply(s2, RecordResult(t)) == s3;
    assert TxCall(sv3.open[t]) == call;
    assert Enabled(s3, CommitTx(t)) && Apply(s3, CommitTx(t)) == s4;
    hide Enabled, Apply, Operate, Update, Commit;
    TwoSteps(s, StartTx(t, call), s1, RunOperation(t, result), s2);
    TwoSteps(s2, RecordResult(t), s3, CommitTx(t), s4);
    PathConcat(s, [StartTx(t, call), RunOperation(t, result)], s2, [RecordResult(t), CommitTx(t)], s4);
    assert [StartTx(t, call), RunOperation(t, result)] + [RecordResult(t), CommitTx(t)]
        == [StartTx(t, call), RunOperation(t, result), RecordResult(t), CommitTx(t)];
  }

  lemma StepsRefine(sv: Server, t: nat, call: Call, result: Json)
    requires Free(sv, t, call) && KeyOf(call.session, call.command) !in sv.table
    ensures var b := Begin(sv, t, call.session, call.command);
      b.Opened? && Operate(b.server, t, result).Some?
      && Update(Operate(b.server, t, result).value, t).Some?
      && Commit(Update(Operate(b.server, t, result).value, t).value, t)
         == Some(Execute(sv, call.session, call.command, Some(result)).0)
  {
    hide HashOf, Begin, Operate, Update, Commit, Execute, Rollback;
    StepsRefineExecute(sv, t, call.session, call.command, result);
  }

  lemma TwoSteps(a: System, x: Step, b: System, y: Step, c: System)
    requires Enabled(a, x) && Apply(a, x) == b && Enabled(b, y) && Apply(b, y) == c
    ensures Path(a, [x, y], c)
  {
    hide Enabled, Apply;
    assert [x, y][1..] == [y] && [y][1..] == [];
    assert Path(b, [y], c);
  }

  /** The whole loop over a batch: the server in the end and which commands were answered. */
  function ServeAll(sv: Server, session: Session, cs: seq<Command>, ds: seq<Dispatch>): (r: (Server, seq<bool>))
    requires |cs| == |ds|
    ensures |r.1| == |cs|
  {
    if cs == [] then (sv, [])
    else
      var n := |cs| - 1;
      var (before, answers) := ServeAll(sv, session, cs[..n], ds[..n]);
      var (after, answered) := Served(before, Call(session, cs[n]), ds[n]);
      (after, answers + [answered])
  }

  function Results(cs: seq<Command>, ds: seq<Dispatch>, answers: seq<bool>): (r: seq<CommandResult>)
    requires |cs| == |ds| == |answers|
    ensures |r| == |cs| && forall k :: 0 <= k < |cs| ==> r[k] == ResultOf(cs[k].id, ds[k], answers[k])
  {
    if cs == [] then []
    else
      var n := |cs| - 1;
      Results(cs[..n], ds[..n], answers[..n]) + [ResultOf(cs[n].id, ds[n], answers[n])]
  }

  function Replies(session: Session, cs: seq<Command>, answers: seq<bool>): set<Reply>
    requires |cs| == |answers|
  {
    if cs == [] then {}
    else
      var n := |cs| - 1;
      Replies(session, cs[..n], answers[..n]) + {Reply(Call(session, cs[n]), answers[n])}
  }

  /** The system after a batch was served. */
  function AfterServing(s: System, session: Session, cs: seq<Command>, ds: seq<Dispatch>): System
    requires |cs| == |ds|
  {
    var (after, answers) := ServeAll(s.server, session, cs, ds);
    s.(server := after, replies := s.replies + Replies(session, cs, answers))
  }

  lemma {:induction false} ServeAllKeepsOpen(sv: Server, session: Session, cs: seq<Command>, ds: seq<Dispatch>)
    requires |cs| == |ds|
    ensures ServeAll(sv, session, cs, ds).0.open == sv.open
  {
    if cs != [] { ServeAllKeepsOpen(sv, session, cs[..|cs| - 1], ds[..|cs| - 1]); }
  }

  /** The push loop is a path of delivery steps. */
  lemma {:induction false} PushIsPath(s: System, t: nat, session: Session, cs: seq<Command>, ds: seq<Dispatch>)
    requires |cs| == |ds|
    requires forall k :: 0 <= k < |cs| ==> Call(session, cs[k]) in s.calls && Free(s.server, t, Call(session, cs[k]))
    ensures exists steps :: Path(s, steps, AfterServing(s, session, cs, ds))
  {
    if cs == [] {
      assert s.replies + {} == s.replies;
      assert Path(s, [], AfterServing(s, session, cs, ds));
    } else {
      var n := |cs| - 1;
      var call := Call(session, cs[n]);
      PushIsPath(s, t, session, cs[..n], ds[..n]);
      ServeAllKeepsOpen(s.server, session, cs[..n], ds[..n]);
      var mid, end := AfterServing(s, session, cs[..n], ds[..n]), AfterServing(s, session, cs, ds);
      var steps :| Path(s, steps, mid);
      ServeIsPath(mid, t, call, ds[n]);
      var (before, answers) := ServeAll(s.server, session, cs[..n], ds[..n]);
      var (after, answered) := Served(before, call, ds[n]);
      assert (answers + [answered])[..n] == answers;
      assert end == mid.(server := after, replies := mid.replies + {Reply(call, answered)});
      hide Path, ServeAll, Served, AfterServing;
      PathConcat(s, steps, mid, ServeSteps(mid.server, t, call, ds[n]), end);
    }
  }

  /** push over the idempotency table: the table and the results are those of the loop. */
  method ServePush(store: IdempotencyStore, session: Session, cs: seq<Command>, ds: seq<Dispatch>)
    returns (results: seq<CommandResult>)
    requires |cs| == |ds|
    modifies store
    ensures var (after, answers) := ServeAll(old(store.View()), session, cs, ds);
      store.View() == after && results == Results(cs, ds, answers)
  {
    hide ServeAll, Results, ResultOf, Execute;
    results := [];
    ghost var sv := store.View();
    NothingServed(sv, session, cs, ds);
    for k := 0 to |cs|
      invariant var (after, answers) := ServeAll(sv, session, cs[..k], ds[..k]);
        store.View() == after && results == Results(cs[..k], ds[..k], answers)
    {
      ghost var answers := ServeAll(sv, session, cs[..k], ds[..k]).1;
      ghost var before := store.View();
      var answered := false;
      if ds[k].Run? {
        var a := store.ExecuteIdempotent(session, cs[k], ds[k].op);
        answered := a.Answered?;
      }
      assert (store.View(), answered) == Served(before, Call(session, cs[k]), ds[k]);
      ServedOne(sv, session, cs, ds, k, before, answers, store.View(), answered);
      results := results + [ResultOf(cs[k].id, ds[k], answered)];
    }
    assert cs[..|cs|] == cs && ds[..|ds|] == ds;
  }

  lemma NothingServed(sv: Server, session: Session, cs: seq<Command>, ds: seq<Dispatch>)
    requires |cs| == |ds|
    ensures ServeAll(sv, session, cs[..0], ds[..0]) == (sv, []) && Results(cs[..0], ds[..0], []) == []
  {
  }

  /** One turn of the loop. */
  lemma ServedOne(sv: Server, session: Session, cs: seq<Command>, ds: seq<Dispatch>, k: nat,
      before: Server, answers: seq<bool>, after: Server, answered: bool)
    requires k < |cs| == |ds| && ServeAll(sv, session, cs[..k], ds[..k]) == (before, answers)
    requires Served(before, Call(session, cs[k]), ds[k]) == (after, answered)
    ensures ServeAll(sv, session, cs[..k + 1], ds[..k + 1]) == (after, answers + [answered])
    ensures Results(cs[..k + 1], ds[..k + 1], answers + [answered])
            == Results(cs[..k], ds[..k], answers) + [ResultOf(cs[k].id, ds[k], answered)]
  {
    hide Served, ResultOf;
    assert cs[..k + 1][..k] == cs[..k] && ds[..k + 1][..k] == ds[..k];
    assert (answers + [answered])[..k] == answers;
  }

  // ----------------------------------------------------- the client's response

  function Side(rs: seq<CommandResult>, accepting: bool): seq<CommandResult> {
    if rs == [] then []
    else Side(rs[..|rs| - 1], accepting) + if Accepting(rs[|rs| - 1].status) == accepting then [rs[|rs| - 1]] else []
  }

  /** normalizeRichPushResponse: each result goes to the side of its status. */
  function Decode(rs: seq<CommandResult>): Push { Batch(Side(rs, true), Side(rs, false)) }

  lemma {:induction false} SideHolds(rs: seq<CommandResult>, accepting: bool, id: nat)
    ensures Mentions(Side(rs, accepting), id) <==>
            exists k :: 0 <= k < |rs| && rs[k].id == id && Accepting(rs[k].status) == accepting
  {
    if rs != [] {
      var front, last := rs[..|rs| - 1], rs[|rs| - 1];
      SideHolds(front, accepting, id);
      var side := Side(front, accepting);
      if Accepting(last.status) == accepting { MentionsAppend(side, last, id); } else { assert side + [] == side; }
      assert forall k :: 0 <= k < |front| ==> front[k] == rs[k];
    }
  }

  lemma MentionsAppend(rs: seq<CommandResult>, r: CommandResult, id: nat)
    ensures Mentions(rs + [r], id) <==> Mentions(rs, id) || r.id == id
  {
    var t := rs + [r];
    assert t[|rs|] == r;
    if Mentions(rs, id) {
      var k :| 0 <= k < |rs| && rs[k].id == id;
      assert t[k].id == id;
    }
  }

  /** The accepted side of a response names a command only on an accepting reply to it. */
  ghost predicate Honest(s: System, c: Command, push: Push) {
    push.Batch? && Mentions(push.accepted, c.id) ==>
      exists r :: r in s.replies && r.accepted && r.call.command == c && r.call.session.business == c.business
  }

  lemma {:induction false} ReplyIsThere(session: Session, cs: seq<Command>, answers: seq<bool>, k: nat)
    requires |cs| == |answers| && k < |cs|
    ensures Reply(Call(session, cs[k]), answers[k]) in Replies(session, cs, answers)
  {
    if k < |cs| - 1 { ReplyIsThere(session, cs[..|cs| - 1], answers[..|cs| - 1], k); }
  }

  /** Every response of the server's push is honest about every command of its batch. */
  lemma PushIsHonest(s: System, session: Session, cs: seq<Command>, ds: seq<Dispatch>, k: nat)
    requires |cs| == |ds| && k < |cs| && session.business == cs[k].business
    requires forall i, j :: 0 <= i < j < |cs| ==> cs[i].id != cs[j].id
    ensures Honest(AfterServing(s, session, cs, ds), cs[k],
      Decode(Results(cs, ds, ServeAll(s.server, session, cs, ds).1)))
  {
    hide ServeAll, Side, Results, Replies, Mentions;
    var answers := ServeAll(s.server, session, cs, ds).1;
    var rs := Results(cs, ds, answers);
    SideHolds(rs, true, cs[k].id);
    if Mentions(Side(rs, true), cs[k].id) {
      var i :| 0 <= i < |rs| && rs[i].id == cs[k].id && Accepting(rs[i].status);
      assert i == k && answers[k];
      ReplyIsThere(session, cs, answers, k);
      assert Reply(Call(session, cs[k]), true) in AfterServing(s, session, cs, ds).replies;
    }
  }

  // ---------------------------------------------------- the holder's settlements

  /** What the orchestrator settles on an honest response is what the delivery system allows. */
  lemma SettlementIsTold(s: System, c: Command, me: Context, push: Push, retryAt: Time)
    requires Honest(s, c, push) && UniqueIds(s.rows)
    requires exists i :: 0 <= i < |s.rows| && s.rows[i].command == c
    ensures Told(s, SettlementFor(c, me, push, retryAt)) && WellFormedBatch([SettlementFor(c, me, push, retryAt)])
  {
    var i :| 0 <= i < |s.rows| && s.rows[i].command == c;
    UniqueIndex(s.rows, i);
    AcceptedOnlyWhenNamed(c, me, push);
    hide Resolve, ErrorOf;
  }

  /** Every settlement a push run makes is an enabled delivery step, whatever the network and the
      server did in between: worlds(k) is the rest of the system at the k-th settlement. */
  lemma EverySettlementIsAStep(worlds: nat -> System, rows: seq<Row>, owner: nat, cs: seq<Command>, me: Context,
      gateway: nat -> Push, rival: nat -> Option<ClaimInput>, retryAt: nat -> Time, k: nat)
    requires UniqueIds(rows) && k < |cs| && (exists i :: 0 <= i < |rows| && rows[i].command == cs[k])
    requires Settlements(rows, owner, cs, me, gateway, rival, retryAt, k).Ok? && Honest(worlds(k), cs[k], gateway(k))
    ensures var before := Settlements(rows, owner, cs, me, gateway, rival, retryAt, k).value;
      var s := worlds(k).(rows := AfterRival(before, rival(k)));
      var step := Settle(owner, [SettlementFor(cs[k], me, gateway(k), retryAt(k))]);
      var after := Settlements(rows, owner, cs, me, gateway, rival, retryAt, k + 1);
      Enabled(s, step) && Apply(s, step) == s.(rows := if after.Ok? then after.value else s.rows)
  {
    hide Honest, SettlementFor, Settlements, SettleAll, AfterRival, Enabled, Apply;
    var before := Settlements(rows, owner, cs, me, gateway, rival, retryAt, k).value;
    SettlementsKeepCommands(rows, owner, cs, me, gateway, rival, retryAt, k);
    SettlementsStep(rows, owner, cs, me, gateway, rival, retryAt, k, before);
    var held := AfterRival(before, rival(k));
    HeldRows(rows, before, rival(k), cs[k]);
    HonestAnyRows(worlds(k), held, cs[k], gateway(k));
    SettleStep(worlds(k).(rows := held), owner, cs[k], me, gateway(k), retryAt(k));
  }

  lemma HeldRows(rows: seq<Row>, before: seq<Row>, rival: Option<ClaimInput>, c: Command)
    requires UniqueIds(rows) && SameCommands(rows, before) && exists i :: 0 <= i < |rows| && rows[i].command == c
    ensures var held := AfterRival(before, rival);
      UniqueIds(held) && exists i :: 0 <= i < |held| && held[i].command == c
  {
    hide AfterRival;
    var held := AfterRival(before, rival);
    RivalKeepsCommands(before, rival);
    var i :| 0 <= i < |rows| && rows[i].command == c;
    assert held[i].command == c;
  }

  lemma HonestAnyRows(s: System, rows: seq<Row>, c: Command, push: Push)
    requires Honest(s, c, push)
    ensures Honest(s.(rows := rows), c, push)
  {
    hide Mentions;
  }

  lemma SettleStep(s: System, owner: nat, c: Command, me: Context, push: Push, retryAt: Time)
    requires Honest(s, c, push) && UniqueIds(s.rows) && exists i :: 0 <= i < |s.rows| && s.rows[i].command == c
    ensures var batch := [SettlementFor(c, me, push, retryAt)];
      var after := SettleAll(s.rows, owner, batch);
      && Enabled(s, Settle(owner, batch))
      && Apply(s, Settle(owner, batch)) == s.(rows := if after.Ok? then after.value else s.rows)
  {
    SettlementIsTold(s, c, me, push, retryAt);
    hide Honest, SettlementFor, SettleAll, Told, UniqueIds;
  }

  /** The rest of the system only moves forward between two settlements. */
  ghost predicate MovesOn(a: System, b: System) { Inv(b.server) && RepliesBacked(b) && Grows(a.server, b.server) }

  /** So a whole push run over honest responses keeps every ACCEPTED row backed by a record. */
  lemma {:induction false} PushRunStaysBacked(worlds: nat -> System, rows: seq<Row>, owner: nat, cs: seq<Command>,
      me: Context, gateway: nat -> Push, rival: nat -> Option<ClaimInput>, retryAt: nat -> Time, n: nat)
    requires n <= |cs| && SystemInv(worlds(0).(rows := rows))
    requires forall k :: 0 <= k < |cs| ==> exists i :: 0 <= i < |rows| && rows[i].command == cs[k]
    requires forall k: nat :: k < n ==> Honest(worlds(k), cs[k], gateway(k)) && MovesOn(worlds(k), worlds(k + 1))
    requires Settlements(rows, owner, cs, me, gateway, rival, retryAt, n).Ok?
    ensures SystemInv(worlds(n).(rows := Settlements(rows, owner, cs, me, gateway, rival, retryAt, n).value))
  {
    hide SystemInv, SettlementFor, SettleAll, AfterRival, Honest, MovesOn;
    if n > 0 {
      var k := n - 1;
      PushRunStaysBacked(worlds, rows, owner, cs, me, gateway, rival, retryAt, k);
      var before := Settlements(rows, owner, cs, me, gateway, rival, retryAt, k).value;
      assert UniqueIds(rows) by { InvUnique(worlds(0).(rows := rows)); }
      assert Honest(worlds(k), cs[k], gateway(k)) && MovesOn(worlds(k), worlds(k + 1));
      EverySettlementIsAStep(worlds, rows, owner, cs, me, gateway, rival, retryAt, k);
      hide Settlements, Enabled, Apply;
      var held := worlds(k).(rows := AfterRival(before, rival(k)));
      RivalKeepsInv(worlds(k).(rows := before), rival(k));
      var step := Settle(owner, [SettlementFor(cs[k], me, gateway(k), retryAt(k))]);
      StepKeeps(held, step);
      WorldKeepsInv(Apply(held, step), worlds(k), worlds(k + 1));
    }
  }

  lemma InvUnique(s: System)
    requires SystemInv(s)
    ensures UniqueIds(s.rows)
  {
  }

  lemma RivalKeepsInv(s: System, rival: Option<ClaimInput>)
    requires SystemInv(s)
    ensures SystemInv(s.(rows := AfterRival(s.rows, rival)))
  {
    hide SystemInv, AfterClaim;
    if rival.Some? && rival.value.limit > 0 && rival.value.now < rival.value.expires {
      StepKeeps(s, Claim(rival.value));
      assert Apply(s, Claim(rival.value)) == s.(rows := AfterRival(s.rows, rival));
    } else {
      assert s.(rows := AfterRival(s.rows, rival)) == s;
    }
  }

  lemma WorldKeepsInv(s: System, a: System, b: System)
    requires SystemInv(s) && s.server == a.server && MovesOn(a, b)
    ensures SystemInv(b.(rows := s.rows))
  {
    hide Inv, Recorded;
    ServerStepKeeps(s, b.server);
  }

  // ------------------------------------------------------------ end to end

  /** How one gateway call ended: it failed or its reply was lost, whatever the server did with it, or
      the server served it in some state p and what it answered is part of the world by now. */
  ghost predicate Delivered(w: System, session: Session, c: Command, push: Push) {
    push.Threw? || exists p: System, d: Dispatch :: ServedIn(p, w, session, c, d, push)
  }

  ghost predicate ServedIn(p: System, w: System, session: Session, c: Command, d: Dispatch, push: Push) {
    && push == Decode(Results([c], [d], ServeAll(p.server, session, [c], [d]).1))
    && AfterServing(p, session, [c], [d]).replies <= w.replies
  }

  lemma DeliveredIsHonest(w: System, session: Session, c: Command, push: Push)
    requires Delivered(w, session, c, push) && session.business == c.business
    ensures Honest(w, c, push)
  {
    if push.Batch? {
      hide ServeAll, Results, Decode, AfterServing, Mentions;
      var p: System, d: Dispatch :| ServedIn(p, w, session, c, d, push);
      PushIsHonest(p, session, [c], [d], 0);
    }
  }

  /** How the server's answer to one command reaches the device: on the accepted side if and only if its
      transaction answered, for review if and only if it was flagged so, and worth retrying if and only
      if it did not answer and the refusal is retryable. */
  lemma AnswerReaches(sv: Server, session: Session, c: Command, d: Dispatch)
    ensures var push := Decode(Results([c], [d], ServeAll(sv, session, [c], [d]).1));
      var ran := d.Run? && Execute(sv, session, c, d.op).1.Answered?;
      && (NamedAccepted(c, push) <==> ran) && (NamedRejected(c, push) <==> !ran)
      && (AcceptedForReview(c, push) <==> ran && d.review)
      && (WorthRetrying(c, push) <==> !ran && d.retryable)
      && (forall r: CommandResult :: Says(push.accepted + push.rejected, r) ==> r.id == c.id && r.code == d.code)
  {
    hide Execute;
    var answered := Served(sv, Call(session, c), d).1;
    var r := ResultOf(c.id, d, answered);
    assert [c][..0] == [] && [d][..0] == [];
    assert ServeAll(sv, session, [c], [d]).1 == [] + [answered] == [answered];
    assert Results([c], [d], [answered]) == [r];
    hide Results, Decode, ServeAll, NamedAccepted, NamedRejected, AcceptedForReview, WorthRetrying, Says;
    OneResult(c, r);
  }

  lemma OneResult(c: Command, r: CommandResult)
    requires r.id == c.id
    ensures var push := Decode([r]);
      && push.Batch? && (NamedAccepted(c, push) <==> Accepting(r.status))
      && (NamedRejected(c, push) <==> !Accepting(r.status))
      && (AcceptedForReview(c, push) <==> r.status == StAcceptedWithReview)
      && (WorthRetrying(c, push) <==> r.status == StRejectedRetryable)
      && (forall q: CommandResult :: Says(push.accepted + push.rejected, q) <==> q == r)
  {
    OneEntry(r);
    hide Side, Mentions, Says;
  }

  lemma OneEntry(r: CommandResult)
    ensures var yes, no := Side([r], true), Side([r], false);
      && yes == (if Accepting(r.status) then [r] else []) && no == (if Accepting(r.status) then [] else [r])
      && yes + no == [r]
    ensures Mentions([r], r.id) && !Mentions([], r.id)
    ensures forall q: CommandResult :: Says([r], q) <==> q == r
    ensures forall q: CommandResult :: !Says([], q)
  {
    assert [r][..0] == [];
    assert [r][0] == r;
  }

  /** From the server's push loop to the outbox: whatever calls failed, were lost or were served, and
      whatever else the server did in between, a push run leaves every ACCEPTED row with a COMPLETED
      record of its own command. */
  lemma PushRunServed(worlds: nat -> System, session: Session, rows: seq<Row>, owner: nat, cs: seq<Command>,
                      me: Context, gateway: nat -> Push, rival: nat -> Option<ClaimInput>,
                      retryAt: nat -> Time, n: nat)
    requires n <= |cs| && SystemInv(worlds(0).(rows := rows))
    requires forall k :: 0 <= k < |cs| ==> exists i :: 0 <= i < |rows| && rows[i].command == cs[k]
    requires forall k: nat :: k < n ==>
      && cs[k].business == session.business && Delivered(worlds(k), session, cs[k], gateway(k))
      && MovesOn(worlds(k), worlds(k + 1))
    requires Settlements(rows, owner, cs, me, gateway, rival, retryAt, n).Ok?
    ensures var after := Settlements(rows, owner, cs, me, gateway, rival, retryAt, n).value;
      forall i :: 0 <= i < |after| && after[i].status == Accepted ==> RecordedFor(worlds(n).server, after[i].command)
  {
    hide Settlements, Honest, Delivered, MovesOn, SystemInv;
    forall k: nat | k < n ensures Honest(worlds(k), cs[k], gateway(k)) {
      DeliveredIsHonest(worlds(k), session, cs[k], gateway(k));
    }
    PushRunStaysBacked(worlds, rows, owner, cs, me, gateway, rival, retryAt, n);
    InvBacked(worlds(n).(rows := Settlements(rows, owner, cs, me, gateway, rival, retryAt, n).value));
  }

  lemma InvBacked(s: System)
    requires SystemInv(s)
    ensures RowsBacked(s)
  {
  }
}
