/** The orchestrator's push loop and the recovery drain built on it. */
module PushRun {
  import opened Outbox
  import opened Wrappers
  import opened Delivery

  /** Per-command status in a push response; the other four rejections are treated alike. */
  datatype ResultStatus = StAccepted | StAcceptedWithReview | StRejectedRetryable | StRejectedOther

  datatype CommandResult = CommandResult(id: nat, status: ResultStatus, code: string)

  /** What one gateway call did: threw a classified error, or returned a batch result. */
  datatype Push =
    | Threw(retryable: bool, code: string)
    | Batch(accepted: seq<CommandResult>, rejected: seq<CommandResult>)

  /** The business and the device the orchestrator runs for. */
  datatype Context = Context(business: nat, device: nat)

  datatype Found = FoundAccepted(result: CommandResult) | FoundRejected(result: CommandResult) | ProtocolError

  function First(rs: seq<CommandResult>, id: nat): Option<CommandResult> {
    if rs == [] then None else if rs[0].id == id then Some(rs[0]) else First(rs[1..], id)
  }

  function FindCommandResult(accepted: seq<CommandResult>, rejected: seq<CommandResult>, id: nat): Found {
    var a, r := First(accepted, id), First(rejected, id);
    if a.None? == r.None? then ProtocolError
    else if a.Some? then FoundAccepted(a.value) else FoundRejected(r.value)
  }

  predicate Mentions(rs: seq<CommandResult>, id: nat) { exists i :: 0 <= i < |rs| && rs[i].id == id }

  lemma {:induction false} FirstFinds(rs: seq<CommandResult>, id: nat)
    ensures First(rs, id).Some? <==> Mentions(rs, id)
    ensures First(rs, id).Some? ==> First(rs, id).value in rs && First(rs, id).value.id == id
  {
    if rs != [] {
      FirstFinds(rs[1..], id);
      assert rs == [rs[0]] + rs[1..];
      if Mentions(rs[1..], id) {
        var i :| 0 <= i < |rs[1..]| && rs[1..][i].id == id;
        assert rs[i + 1].id == id;
      }
      if Mentions(rs, id) && rs[0].id != id {
        var i :| 0 <= i < |rs| && rs[i].id == id;
        assert rs[1..][i - 1].id == id;
      }
    }
  }

  /** A response settles a command only if exactly one side of it mentions the command. */
  lemma OneSideOrProtocolError(accepted: seq<CommandResult>, rejected: seq<CommandResult>, id: nat)
    ensures var f := FindCommandResult(accepted, rejected, id);
      && (f.ProtocolError? <==> (Mentions(accepted, id) <==> Mentions(rejected, id)))
      && (f.FoundAccepted? ==> f.result in accepted && f.result.id == id && !Mentions(rejected, id))
      && (f.FoundRejected? ==> f.result in rejected && f.result.id == id && !Mentions(accepted, id))
  {
    FirstFinds(accepted, id); FirstFinds(rejected, id);
  }

  function Failure(retryable: bool): Disposition { if retryable then DFailedRetryable else DRequiresReview }

  /** The disposition pushPending stores for one command. */
  function Resolve(c: Command, me: Context, push: Push): Disposition {
    if c.business != me.business || c.device != me.device then DRequiresReview
    else match push
      case Threw(retryable, _) => Failure(retryable)
      case Batch(accepted, rejected) =>
        match FindCommandResult(accepted, rejected, c.id)
        case ProtocolError => Failure(false)
        case FoundAccepted(r) => if r.status == StAcceptedWithReview then DAcceptedWithReview else DAccepted
        case FoundRejected(r) => Failure(r.status == StRejectedRetryable)
  }

  /** A command is settled as accepted only when the accepted side, and only it, names it. */
  lemma AcceptedOnlyWhenNamed(c: Command, me: Context, push: Push)
    ensures Accepts(Resolve(c, me, push)) <==>
            && c.business == me.business && c.device == me.device
            && push.Batch? && Mentions(push.accepted, c.id) && !Mentions(push.rejected, c.id)
  {
    if push.Batch? { OneSideOrProtocolError(push.accepted, push.rejected, c.id); }
  }

  /** The first entry a side has for a command. */
  ghost predicate Says(rs: seq<CommandResult>, r: CommandResult) {
    exists i :: 0 <= i < |rs| && rs[i] == r && forall j :: 0 <= j < i ==> rs[j].id != r.id
  }

  lemma {:induction false} FirstSays(rs: seq<CommandResult>, id: nat, r: CommandResult)
    ensures First(rs, id) == Some(r) <==> r.id == id && Says(rs, r)
  {
    if rs != [] {
      FirstSays(rs[1..], id, r);
      var rest := rs[1..];
      if rs[0].id == id {
        if Says(rs, r) && r.id == id {
          var i :| 0 <= i < |rs| && rs[i] == r && forall j :: 0 <= j < i ==> rs[j].id != r.id;
          assert i == 0;
        }
        assert Says(rs, rs[0]);
      } else if r.id == id {
        if Says(rest, r) {
          var i :| 0 <= i < |rest| && rest[i] == r && forall j :: 0 <= j < i ==> rest[j].id != r.id;
          assert forall j :: 0 <= j < i + 1 ==> rs[j].id != r.id by {
            assert forall j :: 0 < j < i + 1 ==> rs[j] == rest[j - 1];
          }
          assert rs[i + 1] == r && Says(rs, r);
        }
        if Says(rs, r) {
          var i :| 0 <= i < |rs| && rs[i] == r && forall j :: 0 <= j < i ==> rs[j].id != r.id;
          assert rest[i - 1] == r && forall j :: 0 <= j < i - 1 ==> rest[j] == rs[j + 1];
        }
      }
    }
  }

  // ------------------------------------------------------------------ counts

  datatype Counts = Counts(claimed: nat, accepted: nat, withReview: nat, failed: nat, review: nat)

  function Bump(n: Counts, d: Disposition): Counts {
    match d
    case DAccepted => n.(accepted := n.accepted + 1)
    case DAcceptedWithReview => n.(withReview := n.withReview + 1)
    case DFailedRetryable => n.(failed := n.failed + 1)
    case DRequiresReview => n.(review := n.review + 1)
  }

  function Outcomes(n: Counts): nat { n.accepted + n.withReview + n.failed + n.review }

  function Add(a: Counts, b: Counts): Counts {
    Counts(a.claimed + b.claimed, a.accepted + b.accepted, a.withReview + b.withReview,
           a.failed + b.failed, a.review + b.review)
  }

  /** How many of the first n commands were resolved with disposition d. */
  function Tally(cs: seq<Command>, me: Context, gateway: nat -> Push, n: nat, d: Disposition): nat
    requires n <= |cs|
  {
    if n == 0 then 0
    else Tally(cs, me, gateway, n - 1, d) + (if Resolve(cs[n - 1], me, gateway(n - 1)) == d then 1 else 0)
  }

  predicate Tallied(r: Counts, cs: seq<Command>, me: Context, gateway: nat -> Push, n: nat)
    requires n <= |cs|
  {
    && r.accepted == Tally(cs, me, gateway, n, DAccepted)
    && r.withReview == Tally(cs, me, gateway, n, DAcceptedWithReview)
    && r.failed == Tally(cs, me, gateway, n, DFailedRetryable)
    && r.review == Tally(cs, me, gateway, n, DRequiresReview)
  }

  /** What is stored as last_error; a review's warnings travel in the result's code. */
  function ErrorOf(c: Command, me: Context, push: Push): Option<string> {
    if c.business != me.business || c.device != me.device then Some("OUTBOX_CONTEXT_MISMATCH")
    else match push
      case Threw(_, code) => Some(code)
      case Batch(accepted, rejected) =>
        match FindCommandResult(accepted, rejected, c.id)
        case ProtocolError => Some("SYNC_PROTOCOL_ERROR")
        case FoundAccepted(r) => if r.status == StAcceptedWithReview then Some(r.code) else None
        case FoundRejected(r) => Some(r.code)
  }

  /** Backoff is a parameter: the time a retryable failure may be claimed again. */
  function SettlementFor(c: Command, me: Context, push: Push, retryAt: Time): Settlement {
    var d := Resolve(c, me, push);
    Settlement(c.id, d, ErrorOf(c, me, push), if d == DFailedRetryable then Some(retryAt) else None)
  }

  // -------------------------------------------------------- how commands end

  predicate Ours(c: Command, me: Context) { c.business == me.business && c.device == me.device }

  /** The accepted side alone names the command. */
  predicate NamedAccepted(c: Command, push: Push) {
    push.Batch? && Mentions(push.accepted, c.id) && !Mentions(push.rejected, c.id)
  }

  predicate NamedRejected(c: Command, push: Push) {
    push.Batch? && Mentions(push.rejected, c.id) && !Mentions(push.accepted, c.id)
  }

  /** A retryable failure of the call, or the rejected side alone with a retryable rejection first. */
  ghost predicate WorthRetrying(c: Command, push: Push) {
    || (push.Threw? && push.retryable)
    || (NamedRejected(c, push)
        && exists r: CommandResult :: r.id == c.id && r.status == StRejectedRetryable && Says(push.rejected, r))
  }

  /** Accepted, and the entry asks for a review. */
  ghost predicate AcceptedForReview(c: Command, push: Push) {
    && NamedAccepted(c, push)
    && exists r: CommandResult :: r.id == c.id && r.status == StAcceptedWithReview && Says(push.accepted, r)
  }

  /** The disposition in the words of the call's outcome. */
  lemma ResolveIff(c: Command, me: Context, push: Push)
    ensures var d := Resolve(c, me, push);
      && (d == DAcceptedWithReview <==> Ours(c, me) && AcceptedForReview(c, push))
      && (d == DAccepted <==> Ours(c, me) && NamedAccepted(c, push) && !AcceptedForReview(c, push))
      && (d == DFailedRetryable <==> Ours(c, me) && WorthRetrying(c, push))
  {
    if Ours(c, me) && push.Batch? {
      FirstFinds(push.accepted, c.id); FirstFinds(push.rejected, c.id);
      hide First, Says, Mentions;
      forall r: CommandResult
        ensures First(push.accepted, c.id) == Some(r) <==> r.id == c.id && Says(push.accepted, r)
        ensures First(push.rejected, c.id) == Some(r) <==> r.id == c.id && Says(push.rejected, r)
      {
        FirstSays(push.accepted, c.id, r); FirstSays(push.rejected, c.id, r);
      }
    }
  }

  /** What last_error tells of a command that was not accepted. */
  lemma ErrorIff(c: Command, me: Context, push: Push, r: CommandResult)
    ensures var e := ErrorOf(c, me, push);
      && (!Ours(c, me) ==> e == Some("OUTBOX_CONTEXT_MISMATCH"))
      && (Ours(c, me) && push.Threw? ==> e == Some(push.code))
      && (Ours(c, me) && push.Batch? && !NamedAccepted(c, push) && !NamedRejected(c, push) ==>
            e == Some("SYNC_PROTOCOL_ERROR"))
      && (Ours(c, me) && NamedRejected(c, push) && r.id == c.id && Says(push.rejected, r) ==> e == Some(r.code))
      && (Ours(c, me) && NamedAccepted(c, push) && !AcceptedForReview(c, push) ==> e == None)
      && (Ours(c, me) && AcceptedForReview(c, push) && r.id == c.id && Says(push.accepted, r) ==> e == Some(r.code))
  {
    if Ours(c, me) && push.Batch? {
      FirstFinds(push.accepted, c.id); FirstFinds(push.rejected, c.id);
      hide First, Says, Mentions;
      forall r: CommandResult
        ensures First(push.accepted, c.id) == Some(r) <==> r.id == c.id && Says(push.accepted, r)
        ensures First(push.rejected, c.id) == Some(r) <==> r.id == c.id && Says(push.rejected, r)
      {
        FirstSays(push.accepted, c.id, r); FirstSays(push.rejected, c.id, r);
      }
    }
  }

  /** The row of a command whose call ended with push. */
  ghost predicate Ends(row: Row, c: Command, me: Context, push: Push, retryAt: Time) {
    && (row.status == Accepted <==> Ours(c, me) && NamedAccepted(c, push))
    && (row.status == FailedRetryable <==> Ours(c, me) && WorthRetrying(c, push))
    && (row.status == Accepted || row.status == FailedRetryable || row.status == RequiresReview)
    && row.nextAttempt == (if row.status == FailedRetryable then Some(retryAt) else None)
    && row.leaseOwner == None && row.leaseExpires == None && row.lastError == ErrorOf(c, me, push)
  }

  lemma SettlementEnds(rows: seq<Row>, owner: nat, c: Command, me: Context, push: Push, retryAt: Time, i: nat)
    requires UniqueIds(rows) && i < |rows| && SettleAll(rows, owner, [SettlementFor(c, me, push, retryAt)]).Ok?
    ensures var after := SettleAll(rows, owner, [SettlementFor(c, me, push, retryAt)]).value;
      && (rows[i].command.id == c.id ==> Ends(after[i], c, me, push, retryAt))
      && (rows[i].command.id != c.id ==> after[i] == rows[i])
      && after[i].command == rows[i].command
  {
    var s := SettlementFor(c, me, push, retryAt);
    ResolveIff(c, me, push);
    SettledAsTold(rows, owner, [s], i);
    SettleFrame(rows, owner, [s]);
    assert [s][0] == s;
    hide Resolve, ErrorOf, SettleAll, NamedAccepted, WorthRetrying, AcceptedForReview;
  }

  lemma SettleSingle(rows: seq<Row>, owner: nat, s: Settlement)
    ensures SettleAll(rows, owner, [s]) == SettleOne(rows, owner, s)
  {
    hide Holds, Settled;
    assert [s][1..] == [];
  }

  ghost predicate DistinctIds(cs: seq<Command>) { forall a, b :: 0 <= a < b < |cs| ==> cs[a].id != cs[b].id }

  /** The first n commands' rows have ended, the caller still holds the others. */
  ghost predicate EndedUpTo(rows: seq<Row>, owner: nat, cs: seq<Command>, me: Context, gateway: nat -> Push,
                            retryAt: nat -> Time, n: nat)
    requires n <= |cs|
  {
    && UniqueIds(rows)
    && (forall k :: n <= k < |cs| ==> Holds(rows, owner, cs[k].id))
    && (forall i, k: nat :: 0 <= i < |rows| && k < n && rows[i].command.id == cs[k].id ==>
          Ends(rows[i], cs[k], me, gateway(k), retryAt(k)))
  }

  lemma EndsOne(rows: seq<Row>, owner: nat, cs: seq<Command>, me: Context, gateway: nat -> Push,
                retryAt: nat -> Time, n: nat)
    requires n < |cs| && DistinctIds(cs) && EndedUpTo(rows, owner, cs, me, gateway, retryAt, n)
    ensures var r := SettleAll(rows, owner, [SettlementFor(cs[n], me, gateway(n), retryAt(n))]);
      r.Ok? && EndedUpTo(r.value, owner, cs, me, gateway, retryAt, n + 1)
  {
    var s := SettlementFor(cs[n], me, gateway(n), retryAt(n));
    hide Ends, Resolve, ErrorOf, Holds;
    assert s.id == cs[n].id && Holds(rows, owner, s.id);
    SettleSingle(rows, owner, s);
    var after := SettleAll(rows, owner, [s]).value;
    forall i: nat | i < |rows|
      ensures after[i].command == rows[i].command
      ensures rows[i].command.id == cs[n].id ==> Ends(after[i], cs[n], me, gateway(n), retryAt(n))
      ensures rows[i].command.id != cs[n].id ==> after[i] == rows[i]
    {
      SettlementEnds(rows, owner, cs[n], me, gateway(n), retryAt(n), i);
    }
    forall k | n < k < |cs| ensures Holds(after, owner, cs[k].id) {
      SettleOneFrame(rows, owner, s, cs[k].id);
    }
  }

  /** Without rivals every claimed command is settled, and as its own call ended. */
  lemma {:induction false} SettlementsEnd(rows: seq<Row>, owner: nat, cs: seq<Command>, me: Context,
      gateway: nat -> Push, rival: nat -> Option<ClaimInput>, retryAt: nat -> Time, n: nat)
    requires n <= |cs| && DistinctIds(cs) && EndedUpTo(rows, owner, cs, me, gateway, retryAt, 0)
    requires forall k: nat :: rival(k).None?
    ensures var r := Settlements(rows, owner, cs, me, gateway, rival, retryAt, n);
      r.Ok? && EndedUpTo(r.value, owner, cs, me, gateway, retryAt, n)
  {
    hide *;
    if n == 0 {
      NoSettlements(rows, owner, cs, me, gateway, rival, retryAt);
    } else {
      SettlementsEnd(rows, owner, cs, me, gateway, rival, retryAt, n - 1);
      var before := Settlements(rows, owner, cs, me, gateway, rival, retryAt, n - 1).value;
      assert rival(n - 1).None?;
      NoRival(before, rival(n - 1));
      SettlementsStep(rows, owner, cs, me, gateway, rival, retryAt, n - 1, before);
      EndsOne(before, owner, cs, me, gateway, retryAt, n - 1);
    }
  }

  lemma NoRival(rows: seq<Row>, rival: Option<ClaimInput>)
    requires rival.None?
    ensures AfterRival(rows, rival) == rows
  {
  }

  /** Another holder's claim, if one comes in between. */
  function AfterRival(rows: seq<Row>, rival: Option<ClaimInput>): (after: seq<Row>)
    ensures |after| == |rows|
  {
    if rival.None? || rival.value.limit == 0 || rival.value.expires <= rival.value.now then rows
    else AfterClaim(rows, rival.value)
  }

  /** The rows after the first n settlements of a run, each preceded by its rival's claim. */
  function Settlements(rows: seq<Row>, owner: nat, cs: seq<Command>, me: Context, gateway: nat -> Push,
                       rival: nat -> Option<ClaimInput>, retryAt: nat -> Time, n: nat): Outcome<seq<Row>>
    requires n <= |cs|
  {
    if n == 0 then Ok(rows)
    else
      var before := Settlements(rows, owner, cs, me, gateway, rival, retryAt, n - 1);
      if !before.Ok? then before
      else SettleAll(AfterRival(before.value, rival(n - 1)), owner,
        [SettlementFor(cs[n - 1], me, gateway(n - 1), retryAt(n - 1))])
  }

  ghost predicate SameCommands(a: seq<Row>, b: seq<Row>) {
    |a| == |b| && forall i :: 0 <= i < |a| ==> b[i].command == a[i].command
  }

  lemma {:induction false} SettlementsKeepCommands(rows: seq<Row>, owner: nat, cs: seq<Command>, me: Context,
      gateway: nat -> Push, rival: nat -> Option<ClaimInput>, retryAt: nat -> Time, n: nat)
    requires n <= |cs| && Settlements(rows, owner, cs, me, gateway, rival, retryAt, n).Ok?
    ensures SameCommands(rows, Settlements(rows, owner, cs, me, gateway, rival, retryAt, n).value)
  {
    hide SettlementFor, SettleAll, AfterRival;
    if n > 0 {
      SettlementsKeepCommands(rows, owner, cs, me, gateway, rival, retryAt, n - 1);
      var before := Settlements(rows, owner, cs, me, gateway, rival, retryAt, n - 1).value;
      RivalKeepsCommands(before, rival(n - 1));
      SettleFrame(AfterRival(before, rival(n - 1)), owner,
        [SettlementFor(cs[n - 1], me, gateway(n - 1), retryAt(n - 1))]);
    }
  }

  lemma RivalKeepsCommands(rows: seq<Row>, rival: Option<ClaimInput>)
    ensures SameCommands(rows, AfterRival(rows, rival))
  {
  }

  /** resolveCommandAtomically, with another holder possibly claiming just before it. */
  method ResolveCommand(store: PosSyncStore, owner: nat, rival: Option<ClaimInput>, s: Settlement)
    returns (r: Outcome<()>)
    requires store.Valid()
    modifies store
    ensures store.Valid() && AcceptedStays(old(store.rows), store.rows)
    ensures r.Ok? ==> SettleAll(AfterRival(old(store.rows), rival), owner, [s]) == Ok(store.rows)
    ensures !r.Ok? ==> store.rows == AfterRival(old(store.rows), rival)
    ensures (s.disposition == DFailedRetryable ==> s.nextAttempt.Some?) ==>
      (r.Ok? <==> SettleAll(AfterRival(old(store.rows), rival), owner, [s]).Ok?)
  {
    if rival.Some? {
      ClaimKeepsAccepted(store.rows, rival.value);
      var _ := store.ClaimOutboxBatch(rival.value);
    }
    var held := store.rows;
    assert AcceptedStays(old(store.rows), held);
    hide AfterClaim;
    SettleSingle(held, owner, s);
    r := store.SettleOutboxBatch(owner, [s]);
    if r.Ok? { SettleFrame(held, owner, [s]); }
    AcceptedStaysTransitive(old(store.rows), held, store.rows);
  }

  /** Claiming leaves every command handed out distinct and held by its claimer. */
  lemma ClaimedAreHeld(rows: seq<Row>, input: ClaimInput, me: Context, gateway: nat -> Push, retryAt: nat -> Time)
    requires UniqueIds(rows)
    ensures var cs := CommandsAt(rows, Claimed(rows, input));
      DistinctIds(cs) && EndedUpTo(AfterClaim(rows, input), input.owner, cs, me, gateway, retryAt, 0)
  {
    hide Ends;
    var ks, after := Claimed(rows, input), AfterClaim(rows, input);
    ClaimTakesOldest(rows, input);
    ClaimKeepsIds(rows, input);
    hide Claimed, Claimable;
    forall k | 0 <= k < |ks| ensures Holds(after, input.owner, rows[ks[k]].command.id) {
      UniqueIndex(after, ks[k]);
    }
  }

  ghost predicate NoRivals(rival: nat -> Option<ClaimInput>) { forall k: nat :: rival(k).None? }

  /** Every claimed row ends as its own call ended. */
  ghost predicate AllEnd(rows: seq<Row>, after: seq<Row>, ks: seq<nat>, me: Context, gateway: nat -> Push,
                         retryAt: nat -> Time)
    requires Indices(rows, ks) && |after| == |rows|
  {
    forall k: nat :: k < |ks| ==> Ends(after[ks[k]], rows[ks[k]].command, me, gateway(k), retryAt(k))
  }

  /** Every claimed row whose call named it on the accepted side alone is ACCEPTED. */
  ghost predicate AcceptedEnd(rows: seq<Row>, after: seq<Row>, ks: seq<nat>, me: Context, gateway: nat -> Push)
    requires Indices(rows, ks) && |after| == |rows|
  {
    forall k: nat :: k < |ks| && Ours(rows[ks[k]].command, me) && NamedAccepted(rows[ks[k]].command, gateway(k)) ==>
      after[ks[k]].status == Accepted
  }

  lemma RunEnds(rows: seq<Row>, input: ClaimInput, me: Context, gateway: nat -> Push,
                rival: nat -> Option<ClaimInput>, retryAt: nat -> Time, n: nat)
    requires UniqueIds(rows) && NoRivals(rival) && n <= |Claimed(rows, input)|
    ensures var ks := Claimed(rows, input);
      var r := Settlements(AfterClaim(rows, input), input.owner, CommandsAt(rows, ks), me, gateway, rival, retryAt, n);
      r.Ok? && (n == |ks| && SameCommands(rows, r.value) ==> AllEnd(rows, r.value, ks, me, gateway, retryAt))
  {
    hide Ends, Settlements, Claimed, AfterClaim, Holds;
    ClaimedAreHeld(rows, input, me, gateway, retryAt);
    var ks := Claimed(rows, input);
    SettlementsEnd(AfterClaim(rows, input), input.owner, CommandsAt(rows, ks), me, gateway, rival, retryAt, n);
  }

  predicate Acknowledged(c: Command, me: Context, push: Push) { Ours(c, me) && NamedAccepted(c, push) }

  ghost predicate AcceptedUpTo(rows: seq<Row>, cs: seq<Command>, me: Context, gateway: nat -> Push, n: nat)
    requires n <= |cs|
  {
    forall i, k: nat ::
      (0 <= i < |rows| && k < n && rows[i].command.id == cs[k].id && Acknowledged(cs[k], me, gateway(k)))
      ==> rows[i].status == Accepted
  }

  lemma AcceptedOne(before: seq<Row>, held: seq<Row>, owner: nat, cs: seq<Command>, me: Context,
                    gateway: nat -> Push, retryAt: Time, n: nat)
    requires n < |cs| && AcceptedUpTo(before, cs, me, gateway, n) && UniqueIds(held)
    requires |held| == |before| && AcceptedStays(before, held)
    requires SettleAll(held, owner, [SettlementFor(cs[n], me, gateway(n), retryAt)]).Ok?
    ensures AcceptedUpTo(SettleAll(held, owner, [SettlementFor(cs[n], me, gateway(n), retryAt)]).value, cs, me, gateway,
                         n + 1)
  {
    var s := SettlementFor(cs[n], me, gateway(n), retryAt);
    var after := SettleAll(held, owner, [s]).value;
    SettleFrame(held, owner, [s]);
    hide SettlementFor, NamedAccepted, Ours, WorthRetrying, SettleAll;
    forall i: nat | i < |held|
      ensures held[i].command.id == cs[n].id ==> Ends(after[i], cs[n], me, gateway(n), retryAt)
    {
      SettlementEnds(held, owner, cs[n], me, gateway(n), retryAt, i);
    }
  }

  /** Whatever other holders claim in between: a run that completes leaves every command that the
      accepted side alone named ACCEPTED. */
  lemma {:induction false} AcceptedDespiteRivals(rows: seq<Row>, owner: nat, cs: seq<Command>, me: Context,
      gateway: nat -> Push, rival: nat -> Option<ClaimInput>, retryAt: nat -> Time, n: nat)
    requires UniqueIds(rows) && n <= |cs| && Settlements(rows, owner, cs, me, gateway, rival, retryAt, n).Ok?
    ensures AcceptedUpTo(Settlements(rows, owner, cs, me, gateway, rival, retryAt, n).value, cs, me, gateway, n)
  {
    hide SettleAll, SettlementFor, AfterRival, AcceptedStays, NamedAccepted, Ours;
    if n > 0 {
      var before := Settlements(rows, owner, cs, me, gateway, rival, retryAt, n - 1).value;
      AcceptedDespiteRivals(rows, owner, cs, me, gateway, rival, retryAt, n - 1);
      SettlementsKeepCommands(rows, owner, cs, me, gateway, rival, retryAt, n - 1);
      SettlementsStep(rows, owner, cs, me, gateway, rival, retryAt, n - 1, before);
      hide Settlements, AcceptedUpTo;
      var held := AfterRival(before, rival(n - 1));
      RivalKeepsCommands(before, rival(n - 1));
      RivalKeepsAccepted(before, rival(n - 1));
      AcceptedOne(before, held, owner, cs, me, gateway, retryAt(n - 1), n - 1);
    }
  }

  lemma RivalKeepsAccepted(rows: seq<Row>, rival: Option<ClaimInput>)
    ensures AcceptedStays(rows, AfterRival(rows, rival))
  {
    if rival.Some? { ClaimKeepsAccepted(rows, rival.value); }
    hide AfterClaim;
  }

  /** What a completed run did to the rows it claimed. */
  lemma RunAccepts(rows: seq<Row>, input: ClaimInput, me: Context, gateway: nat -> Push,
                   rival: nat -> Option<ClaimInput>, retryAt: nat -> Time)
    requires UniqueIds(rows)
    ensures var ks := Claimed(rows, input);
      var cs := CommandsAt(rows, ks);
      var r := Settlements(AfterClaim(rows, input), input.owner, cs, me, gateway, rival, retryAt, |ks|);
      r.Ok? ==> SameCommands(rows, r.value) && AcceptedEnd(rows, r.value, ks, me, gateway)
  {
    hide Ends, Settlements, Claimed, NamedAccepted, Ours;
    var ks, claimed := Claimed(rows, input), AfterClaim(rows, input);
    var cs := CommandsAt(rows, ks);
    ClaimKeepsIds(rows, input);
    assert SameCommands(rows, claimed);
    if Settlements(claimed, input.owner, cs, me, gateway, rival, retryAt, |ks|).Ok? {
      SettlementsKeepCommands(claimed, input.owner, cs, me, gateway, rival, retryAt, |ks|);
      AcceptedDespiteRivals(claimed, input.owner, cs, me, gateway, rival, retryAt, |ks|);
    }
  }

  lemma TallyStep(n: Counts, cs: seq<Command>, me: Context, gateway: nat -> Push, k: nat)
    requires k < |cs| && Tallied(n, cs, me, gateway, k)
    ensures Tallied(Bump(n, Resolve(cs[k], me, gateway(k))), cs, me, gateway, k + 1)
    ensures Outcomes(Bump(n, Resolve(cs[k], me, gateway(k)))) == Outcomes(n) + 1
    ensures Bump(n, Resolve(cs[k], me, gateway(k))).claimed == n.claimed
  {
    hide Resolve;
  }

  lemma NoSettlements(rows: seq<Row>, owner: nat, cs: seq<Command>, me: Context, gateway: nat -> Push,
                      rival: nat -> Option<ClaimInput>, retryAt: nat -> Time)
    ensures Settlements(rows, owner, cs, me, gateway, rival, retryAt, 0) == Ok(rows)
    ensures Outcomes(Counts(|cs|, 0, 0, 0, 0)) == 0
  {
  }

  lemma SettlementsStep(rows: seq<Row>, owner: nat, cs: seq<Command>, me: Context, gateway: nat -> Push,
                        rival: nat -> Option<ClaimInput>, retryAt: nat -> Time, k: nat, before: seq<Row>)
    requires k < |cs| && Settlements(rows, owner, cs, me, gateway, rival, retryAt, k) == Ok(before)
    ensures Settlements(rows, owner, cs, me, gateway, rival, retryAt, k + 1)
            == SettleAll(AfterRival(before, rival(k)), owner, [SettlementFor(cs[k], me, gateway(k), retryAt(k))])
  {
    hide SettleAll, AfterRival, SettlementFor;
  }

  /** pushPending: gateway(k) is the outcome of the k-th call, and before the k-th settlement
      another holder may claim. A lost lease aborts the run. */
  method PushPending(store: PosSyncStore, input: ClaimInput, me: Context, gateway: nat -> Push,
                     rival: nat -> Option<ClaimInput>, retryAt: nat -> Time)
    returns (r: Outcome<Counts>)
    requires store.Valid()
    modifies store
    ensures store.Valid() && AcceptedStays(old(store.rows), store.rows)
    ensures r.Ok? ==> r.value.claimed == |Claimed(old(store.rows), input)| && Outcomes(r.value) == r.value.claimed
    ensures r.Ok? ==>
      Tallied(r.value, CommandsAt(old(store.rows), Claimed(old(store.rows), input)), me, gateway, r.value.claimed)
    ensures r.Ok? ==>
      Settlements(AfterClaim(old(store.rows), input), input.owner,
        CommandsAt(old(store.rows), Claimed(old(store.rows), input)),
        me, gateway, rival, retryAt, r.value.claimed)
      == Ok(store.rows)
    ensures r.Ok? ==> RunEnded(old(store.rows), store.rows, input, me, gateway, rival, retryAt)
    ensures NoRivals(rival) ==> (r.Ok? <==> input.limit > 0 && input.now < input.expires)
  {
    hide *;
    StoredIdsAreUnique(store);
    ClaimKeepsAccepted(store.rows, input);
    AcceptedStaysReflexive(store.rows);
    var claim := store.ClaimOutboxBatch(input);
    if !claim.Ok? { return InvalidInput; }
    var cs := claim.value;
    var counts := Counts(|cs|, 0, 0, 0, 0);
    TallyNone(cs, me, gateway);
    ghost var claimed := store.rows;
    NoSettlements(claimed, input.owner, cs, me, gateway, rival, retryAt);
    var k := 0;
    while k < |cs|
      invariant 0 <= k <= |cs| && counts.claimed == |cs| && Outcomes(counts) == k
      invariant Settlements(claimed, input.owner, cs, me, gateway, rival, retryAt, k) == Ok(store.rows)
      invariant store.Valid() && AcceptedStays(old(store.rows), store.rows)
      invariant Tallied(counts, cs, me, gateway, k)
    {
      var before := store.rows;
      var d := Resolve(cs[k], me, gateway(k));
      var s := ResolveCommand(store, input.owner, rival(k), SettlementFor(cs[k], me, gateway(k), retryAt(k)));
      SettlementsStep(claimed, input.owner, cs, me, gateway, rival, retryAt, k, before);
      AcceptedStaysTransitive(old(store.rows), before, store.rows);
      if !s.Ok? {
        Timed(cs[k], me, gateway(k), retryAt(k));
        NeverStuck(old(store.rows), claimed, cs, input, me, gateway, rival, retryAt, k + 1);
        return LeaseMismatch;
      }
      TallyStep(counts, cs, me, gateway, k);
      counts := Bump(counts, d);
      k := k + 1;
    }
    RunHasEnded(old(store.rows), claimed, store.rows, cs, input, me, gateway, rival, retryAt);
    r := Ok(counts);
  }

  lemma StoredIdsAreUnique(store: PosSyncStore)
    requires store.Valid()
    ensures UniqueIds(store.rows)
  {
  }

  lemma Timed(c: Command, me: Context, push: Push, retryAt: Time)
    ensures var s := SettlementFor(c, me, push, retryAt); s.disposition == DFailedRetryable ==> s.nextAttempt.Some?
  {
  }

  /** How a completed run leaves the rows it claimed: accepted ones in any case, and all of them
      as their calls ended when nobody else claimed. */
  ghost predicate RunEnded(before: seq<Row>, after: seq<Row>, input: ClaimInput, me: Context, gateway: nat -> Push,
                           rival: nat -> Option<ClaimInput>, retryAt: nat -> Time)
  {
    && |after| == |before| && AcceptedEnd(before, after, Claimed(before, input), me, gateway)
    && (NoRivals(rival) ==> AllEnd(before, after, Claimed(before, input), me, gateway, retryAt))
  }

  lemma NeverStuck(before: seq<Row>, claimed: seq<Row>, cs: seq<Command>, input: ClaimInput, me: Context,
      gateway: nat -> Push, rival: nat -> Option<ClaimInput>, retryAt: nat -> Time, n: nat)
    requires UniqueIds(before) && claimed == AfterClaim(before, input)
    requires cs == CommandsAt(before, Claimed(before, input)) && n <= |cs|
    ensures NoRivals(rival) ==> Settlements(claimed, input.owner, cs, me, gateway, rival, retryAt, n).Ok?
  {
    if NoRivals(rival) { RunEnds(before, input, me, gateway, rival, retryAt, n); }
  }

  lemma RunHasEnded(before: seq<Row>, claimed: seq<Row>, after: seq<Row>, cs: seq<Command>, input: ClaimInput,
      me: Context, gateway: nat -> Push, rival: nat -> Option<ClaimInput>, retryAt: nat -> Time)
    requires UniqueIds(before) && claimed == AfterClaim(before, input)
    requires cs == CommandsAt(before, Claimed(before, input))
    requires Settlements(claimed, input.owner, cs, me, gateway, rival, retryAt, |cs|) == Ok(after)
    ensures RunEnded(before, after, input, me, gateway, rival, retryAt)
  {
    RunAccepts(before, input, me, gateway, rival, retryAt);
    hide AcceptedEnd, AllEnd, Settlements, Claimed;
    if NoRivals(rival) { RunEnds(before, input, me, gateway, rival, retryAt, |cs|); }
  }

  lemma TallyNone(cs: seq<Command>, me: Context, gateway: nat -> Push)
    ensures Tallied(Counts(|cs|, 0, 0, 0, 0), cs, me, gateway, 0)
  {
  }

  lemma AcceptedStaysReflexive(rows: seq<Row>)
    ensures AcceptedStays(rows, rows)
  {
  }

  // ------------------------------------------------------------ recovery drain

  /** A page after which the drain makes no further one. */
  predicate Stops(page: Counts) { page.claimed == 0 || page.failed > 0 || page.review > 0 }

  /** One push run of the drain took the rows from before to after and reported page. */
  ghost predicate IsPage(before: seq<Row>, after: seq<Row>, page: Counts, input: ClaimInput, me: Context,
                         gateway: nat -> Push, rival: nat -> Option<ClaimInput>, retryAt: nat -> Time)
  {
    && page.claimed == |Claimed(before, input)| && Outcomes(page) == page.claimed
    && Tallied(page, CommandsAt(before, Claimed(before, input)), me, gateway, page.claimed)
    && RunEnded(before, after, input, me, gateway, rival, retryAt)
  }

  function AddAll(pages: seq<Counts>): Counts {
    if pages == [] then Counts(0, 0, 0, 0, 0) else Add(AddAll(pages[..|pages| - 1]), pages[|pages| - 1])
  }

  /** The pages of a drain: each starts with something unresolved and none but the last stops it. */
  ghost predicate IsDrain(states: seq<seq<Row>>, pages: seq<Counts>, inputs: nat -> ClaimInput, business: nat,
                          me: Context, gateway: nat -> nat -> Push, rival: nat -> nat -> Option<ClaimInput>,
                          retryAt: nat -> Time)
  {
    && |states| == |pages| + 1
    && (forall b: nat :: b < |pages| ==>
          IsPage(states[b], states[b + 1], pages[b], inputs(b), me, gateway(b), rival(b), retryAt))
    && (forall b: nat :: b < |pages| ==> !AllAccepted(states[b], business))
    && (forall b: nat :: b + 1 < |pages| ==> !Stops(pages[b]))
  }

  lemma DrainStarts(rows: seq<Row>, inputs: nat -> ClaimInput, business: nat, me: Context,
                    gateway: nat -> nat -> Push, rival: nat -> nat -> Option<ClaimInput>, retryAt: nat -> Time)
    ensures IsDrain([rows], [], inputs, business, me, gateway, rival, retryAt)
    ensures AddAll([]) == Counts(0, 0, 0, 0, 0)
  {
  }

  lemma DrainStep(states: seq<seq<Row>>, pages: seq<Counts>, after: seq<Row>, page: Counts, inputs: nat -> ClaimInput,
                  business: nat, me: Context, gateway: nat -> nat -> Push, rival: nat -> nat -> Option<ClaimInput>,
                  retryAt: nat -> Time)
    requires IsDrain(states, pages, inputs, business, me, gateway, rival, retryAt)
    requires pages != [] ==> !Stops(pages[|pages| - 1])
    requires var b := |pages|;
      && !AllAccepted(states[b], business)
      && IsPage(states[b], after, page, inputs(b), me, gateway(b), rival(b), retryAt)
    ensures IsDrain(states + [after], pages + [page], inputs, business, me, gateway, rival, retryAt)
    ensures AddAll(pages + [page]) == Add(AddAll(pages), page)
  {
    hide IsPage, Stops, AllAccepted;
    assert (pages + [page])[..|pages|] == pages;
    var all := pages + [page];
    forall b: nat | b + 1 < |all| ensures !Stops(all[b]) {
      if b + 1 < |pages| { assert all[b] == pages[b]; } else { assert all[b] == pages[|pages| - 1]; }
    }
  }

  /** drainRecoveryOutbox: batch b makes the calls gateway(b, _). It ends when maxBatches pages were
      made, when nothing is unresolved, or after a page that stops it, and for no other reason. */
  method DrainRecoveryOutbox(store: PosSyncStore, inputs: nat -> ClaimInput, business: nat, me: Context,
                             gateway: nat -> nat -> Push, rival: nat -> nat -> Option<ClaimInput>,
                             retryAt: nat -> Time, maxBatches: nat)
    returns (r: Outcome<(Counts, Summary)>, ghost states: seq<seq<Row>>, ghost pages: seq<Counts>)
    requires store.Valid()
    modifies store
    ensures store.Valid() && AcceptedStays(old(store.rows), store.rows)
    ensures IsDrain(states, pages, inputs, business, me, gateway, rival, retryAt)
    ensures |pages| <= maxBatches && states[0] == old(store.rows)
    ensures r.Ok? ==> states[|pages|] == store.rows && r.value.0 == AddAll(pages)
    ensures r.Ok? ==>
      |pages| == maxBatches || AllAccepted(store.rows, business) || (pages != [] && Stops(pages[|pages| - 1]))
    ensures r.Ok? ==> Outcomes(r.value.0) == r.value.0.claimed
    ensures r.Ok? ==> r.value.1 == SummaryOf(store.rows, business)
    ensures r.Ok? ==> (CanDiscardCredential(r.value.1) <==> AllAccepted(store.rows, business))
  {
    hide AcceptedStays, SummaryOf, Tallied, Settlements, Claimed, AfterClaim, IsDrain, AddAll, AllAccepted, RunEnded;
    AcceptedStaysReflexive(store.rows);
    DrainStarts(store.rows, inputs, business, me, gateway, rival, retryAt);
    states, pages := [store.rows], [];
    var total := Counts(0, 0, 0, 0, 0);
    var summary := store.GetOutboxSummary(business);
    var b := 0;
    while b < maxBatches && summary.unresolved > 0
      invariant store.Valid() && AcceptedStays(old(store.rows), store.rows)
      invariant Outcomes(total) == total.claimed && summary == SummaryOf(store.rows, business)
      invariant b == |pages| <= maxBatches && |states| == b + 1 && states[0] == old(store.rows)
      invariant states[b] == store.rows && total == AddAll(pages) && (pages != [] ==> !Stops(pages[b - 1]))
      invariant IsDrain(states, pages, inputs, business, me, gateway, rival, retryAt)
    {
      var before := store.rows;
      DiscardIffAllAccepted(before, business);
      var page := PushPending(store, inputs(b), me, gateway(b), rival(b), retryAt);
      AcceptedStaysTransitive(old(store.rows), before, store.rows);
      if !page.Ok? {
        r := if page.InvalidInput? then InvalidInput else LeaseMismatch;
        return;
      }
      total := Add(total, page.value);
      summary := store.GetOutboxSummary(business);
      DrainStep(states, pages, store.rows, page.value, inputs, business, me, gateway, rival, retryAt);
      states, pages := states + [store.rows], pages + [page.value];
      if page.value.claimed == 0 || page.value.failed > 0 || page.value.review > 0 { break; }
      b := b + 1;
    }
    DiscardIffAllAccepted(store.rows, business);
    r := Ok((total, summary));
  }
}
