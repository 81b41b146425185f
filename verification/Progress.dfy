/** That commands get through: every row which is not settled for good can reach ACCEPTED, and a review
    that may not be retried never changes again. */
module Progress {
  import opened Canonical
  import opened Outbox
  import opened Wrappers
  import opened Idempotency
  import opened Delivery
  import opened PushBridge

  // ------------------------------------------------------------------ one claim

  lemma {:induction false} FewIndices(ks: seq<nat>, n: nat)
    requires NoRepeats(ks) && forall a :: 0 <= a < |ks| ==> ks[a] < n
    ensures |ks| <= n
    decreases n
  {
    if n > 0 {
      if n - 1 in ks {
        var p :| 0 <= p < |ks| && ks[p] == n - 1;
        FewIndices(ks[..p] + ks[p + 1..], n - 1);
      } else {
        forall a | 0 <= a < |ks| ensures ks[a] < n - 1 { assert ks[a] in ks; }
        FewIndices(ks, n - 1);
      }
    }
  }

  /** A claim with room for the whole table takes every claimable row. */
  lemma ClaimTakesAll(rows: seq<Row>, input: ClaimInput, i: nat)
    requires i < |rows| < input.limit && Claimable(rows[i], input.business, input.now)
    ensures i in Claimed(rows, input)
  {
    ClaimTakesOldest(rows, input);
    hide Claimed, Claimable;
    FewIndices(Claimed(rows, input), |rows|);
  }

  /** A time at which a waiting row may be claimed. */
  function DueAt(r: Row): Time {
    if r.status == FailedRetryable && r.nextAttempt.Some? then r.nextAttempt.value
    else if r.status == Sending && r.leaseExpires.Some? then r.leaseExpires.value
    else 0
  }

  predicate Waiting(r: Row) {
    r.status == Pending || r.status == FailedRetryable || (r.status == Sending && r.leaseExpires.Some?)
  }

  function ClaimOf(rows: seq<Row>, i: nat, owner: nat): ClaimInput
    requires i < |rows|
  {
    ClaimInput(rows[i].command.business, owner, DueAt(rows[i]), DueAt(rows[i]) + 1, |rows| + 1)
  }

  lemma ClaimStep(s: System, i: nat, owner: nat)
    requires i < |s.rows| && Waiting(s.rows[i])
    ensures var step := Step.Claim(ClaimOf(s.rows, i, owner));
      && Enabled(s, step) && Apply(s, step) == s.(rows := AfterClaim(s.rows, step.input))
      && var r := Apply(s, step).rows[i];
         r.command == s.rows[i].command && r.status == Sending && r.leaseOwner == Some(owner)
  {
    var input := ClaimOf(s.rows, i, owner);
    ClaimTakesAll(s.rows, input, i);
    hide Claimed;
  }

  // ------------------------------------------------------------- one settlement

  lemma SettleAccepts(s: System, i: nat, owner: nat, session: Session)
    requires UniqueIds(s.rows) && i < |s.rows|
    requires s.rows[i].status == Sending && s.rows[i].leaseOwner == Some(owner)
    requires session.business == s.rows[i].command.business
    requires Reply(Call(session, s.rows[i].command), true) in s.replies
    ensures var c := s.rows[i].command;
      var step := Settle(owner, [Settlement(c.id, DAccepted, None, None)]);
      && Enabled(s, step) && var after := Apply(s, step);
         && after == s.(rows := after.rows) && |after.rows| == |s.rows|
         && after.rows[i].command == c && after.rows[i].status == Accepted
  {
    var c := s.rows[i].command;
    var st := Settlement(c.id, DAccepted, None, None);
    UniqueIndex(s.rows, i);
    assert Reply(Call(session, c), true).call.command == c;
    assert Told(s, st);
    assert Holds(s.rows, owner, st.id);
    SettleCommitsIffHeld(s.rows, owner, [st]);
    SettledAsTold(s.rows, owner, [st], i);
    assert [st][0] == st;
    hide SettleAll, Holds, IndexOf, Told;
  }

  // --------------------------------------------------------------- the delivery

  ghost predicate CanReach(a: System, b: System) { exists steps :: Path(a, steps, b) }

  lemma ReachStep(a: System, step: Step)
    requires Enabled(a, step)
    ensures CanReach(a, Apply(a, step))
  {
    hide Enabled, Apply, Path;
    SingleStep(a, step);
  }

  lemma ReachThrough(a: System, b: System, c: System)
    requires CanReach(a, b) && CanReach(b, c)
    ensures CanReach(a, c)
  {
    hide Path;
    var s :| Path(a, s, b);
    var t :| Path(b, t, c);
    PathConcat(a, s, b, t, c);
  }

  /** The command of row i was executed once, and its row says so. */
  ghost predicate Delivered(a: System, b: System, i: nat, session: Session, result: Json) {
    && |b.rows| == |a.rows| && i < |a.rows|
    && b.rows[i].command == a.rows[i].command && b.rows[i].status == Accepted
    && b.server.effects == a.server.effects + [Effect(KeyOf(session, a.rows[i].command), result)]
  }

  lemma ServedFresh(sv: Server, call: Call, result: Json)
    requires KeyOf(call.session, call.command) !in sv.table
    ensures var d := Dispatch.Run(Some(result), false, "", false);
      Served(sv, call, d) == (Execute(sv, call.session, call.command, Some(result)).0, true)
    ensures Execute(sv, call.session, call.command, Some(result)).0.effects
            == sv.effects + [Effect(KeyOf(call.session, call.command), result)]
  {
    hide HashOf, KeyOf;
  }

  /** From a claimed row: send it, run its transaction, settle it. */
  lemma DeliverClaimed(s: System, i: nat, owner: nat, session: Session, t: nat, result: Json)
    requires UniqueIds(s.rows) && i < |s.rows| && session.business == s.rows[i].command.business
    requires s.rows[i].status == Sending && s.rows[i].leaseOwner == Some(owner)
    requires var call := Call(session, s.rows[i].command);
      Free(s.server, t, call) && KeyOf(session, call.command) !in s.server.table
    ensures exists b :: CanReach(s, b) && Delivered(s, b, i, session, result)
  {
    var call, send := Call(session, s.rows[i].command), Send(i, session);
    var sent := s.(calls := s.calls + {call});
    assert Enabled(s, send) && Apply(s, send) == sent;
    ReachStep(s, send);
    var d := Dispatch.Run(Some(result), false, "", false);
    ServedFresh(s.server, call, result);
    var after := Served(s.server, call, d).0;
    var served := sent.(server := after, replies := s.replies + {Reply(call, true)});
    hide Enabled, Apply, Path, Free, Served, UniqueIds;
    ServeIsPath(sent, t, call, d);
    assert CanReach(sent, served);
    ReachThrough(s, sent, served);
    SettleAccepts(served, i, owner, session);
    var settle := Settle(owner, [Settlement(call.command.id, DAccepted, None, None)]);
    ReachStep(served, settle);
    ReachThrough(s, served, Apply(served, settle));
    assert Delivered(s, Apply(served, settle), i, session, result);
  }

  lemma DeliverWaiting(s: System, i: nat, session: Session, t: nat, result: Json)
    requires UniqueIds(s.rows) && i < |s.rows| && session.business == s.rows[i].command.business
    requires Waiting(s.rows[i])
    requires var call := Call(session, s.rows[i].command);
      Free(s.server, t, call) && KeyOf(session, call.command) !in s.server.table
    ensures exists b :: CanReach(s, b) && Delivered(s, b, i, session, result)
  {
    var claim := Step.Claim(ClaimOf(s.rows, i, 0));
    ClaimStep(s, i, 0);
    ClaimKeepsIds(s.rows, claim.input);
    ReachStep(s, claim);
    var claimed := Apply(s, claim);
    hide Enabled, Apply, Free, AfterClaim, CanReach, UniqueIds;
    DeliverClaimed(claimed, i, 0, session, t, result);
    var b :| CanReach(claimed, b) && Delivered(claimed, b, i, session, result);
    ReachThrough(s, claimed, b);
    assert Delivered(s, b, i, session, result);
  }

  /** Every row that waits, or is under a review that may be retried, can still be delivered: there are
      steps that execute its command once and leave it ACCEPTED, whatever state the rest is in. */
  lemma CanBeDelivered(s: System, i: nat, session: Session, t: nat, result: Json)
    requires UniqueIds(s.rows) && i < |s.rows| && session.business == s.rows[i].command.business
    requires Waiting(s.rows[i]) || MayRetry(s.rows[i], session.business)
    requires var call := Call(session, s.rows[i].command);
      Free(s.server, t, call) && KeyOf(session, call.command) !in s.server.table
    ensures exists b :: CanReach(s, b) && Delivered(s, b, i, session, result)
  {
    if Waiting(s.rows[i]) {
      DeliverWaiting(s, i, session, t, result);
    } else {
      var step := Recover(session.business);
      RecoveryReopens(s.rows, session.business, i);
      RecoveryKeepsIds(s.rows, session.business);
      ReachStep(s, step);
      var open := Apply(s, step);
      assert open == s.(rows := AfterRecovery(s.rows, session.business));
      hide Enabled, Apply, Free, AfterRecovery, CanReach, UniqueIds, MayRetry;
      DeliverWaiting(open, i, session, t, result);
      var b :| CanReach(open, b) && Delivered(open, b, i, session, result);
      ReachThrough(s, open, b);
      assert Delivered(s, b, i, session, result);
    }
  }

  /** So does every new command the POS records, from recording it on. */
  lemma NewCommandCanBeDelivered(s: System, row: Row, session: Session, t: nat, result: Json)
    requires UniqueIds(s.rows) && row.status == Pending && row.leaseOwner == None
    requires forall i :: 0 <= i < |s.rows| ==> s.rows[i].command.id != row.command.id
    requires session.business == row.command.business
    requires Free(s.server, t, Call(session, row.command)) && KeyOf(session, row.command) !in s.server.table
    ensures exists b :: CanReach(s, b) && Delivered(s.(rows := s.rows + [row]), b, |s.rows|, session, result)
  {
    var step, i := Enqueue(row), |s.rows|;
    var grown := s.(rows := s.rows + [row]);
    assert Enabled(s, step) && Apply(s, step) == grown;
    ReachStep(s, step);
    assert grown.rows[i] == row && UniqueIds(grown.rows);
    hide Enabled, Apply, Free, CanReach, UniqueIds;
    DeliverWaiting(grown, i, session, t, result);
    var b :| CanReach(grown, b) && Delivered(grown, b, i, session, result);
    ReachThrough(s, grown, b);
  }

  lemma RecoveryKeepsIds(rows: seq<Row>, business: nat)
    requires UniqueIds(rows)
    ensures UniqueIds(AfterRecovery(rows, business)) && |AfterRecovery(rows, business)| == |rows|
  {
    var after := AfterRecovery(rows, business);
    assert forall i :: 0 <= i < |rows| ==> after[i].command == rows[i].command;
  }

  // ------------------------------------------------------------------- stuck rows

  /** Under review, and not one that any recovery reopens. */
  predicate Stuck(r: Row) { r.status == RequiresReview && !MayRetry(r, r.command.business) }

  lemma StepKeepsStuck(s: System, step: Step, i: nat)
    requires Enabled(s, step) && i < |s.rows| && Stuck(s.rows[i])
    ensures i < |Apply(s, step).rows| && Apply(s, step).rows[i] == s.rows[i]
  {
    match step
    case Claim(input) =>
      ClaimInFields(s.rows, input, i);
      hide Claimed;
    case Settle(owner, batch) =>
      if SettleAll(s.rows, owner, batch).Ok? { SettleFrame(s.rows, owner, batch); }
      hide SettleAll;
    case Recover(business) => RecoveryReopens(s.rows, business, i);
    case _ =>
  }

  /** A command under such a review is never delivered: over every run its row stays as it is. */
  lemma {:induction false} StuckForever(run: seq<System>, m: nat, n: nat, i: nat)
    requires IsRun(run) && m <= n < |run| && i < |run[m].rows| && Stuck(run[m].rows[i])
    ensures i < |run[n].rows| && run[n].rows[i] == run[m].rows[i]
    decreases n
  {
    hide Enabled, Apply, Stuck, Initial;
    if m < n {
      StuckForever(run, m, n - 1, i);
      assert Next(run[n - 1], run[n]);
      var step :| Enabled(run[n - 1], step) && Apply(run[n - 1], step) == run[n];
      StepKeepsStuck(run[n - 1], step, i);
    }
  }
}
