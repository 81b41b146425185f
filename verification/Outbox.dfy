/** The POS outbox: claim, lease, settle, recovery retry and summary. */
module Outbox {
  import opened Canonical
  import opened Wrappers

  type Time = int

  /** The immutable part of an outbox row: what goes on the wire. */
  datatype Command = Command(id: nat, kind: string, business: nat, device: nat, payload: Json)

  datatype Status = Pending | Sending | Accepted | FailedRetryable | RequiresReview

  datatype Row = Row(
    command: Command,
    createdAt: Time,
    hasGrant: bool,
    attempts: nat,
    lastAttempt: Option<Time>,
    status: Status,
    lastError: Option<string>,
    leaseOwner: Option<nat>,
    leaseExpires: Option<Time>,
    nextAttempt: Option<Time>)

  /** The unique index on command_id. */
  predicate UniqueIds(rows: seq<Row>) {
    forall i, j :: 0 <= i < j < |rows| ==> rows[i].command.id != rows[j].command.id
  }

  // ------------------------------------------------------------------- claim

  datatype ClaimInput = ClaimInput(business: nat, owner: nat, now: Time, expires: Time, limit: nat)

  /** The filter of claimOutboxBatch. */
  predicate Claimable(r: Row, business: nat, now: Time) {
    r.command.business == business
    && match r.status
       case Pending => true
       case FailedRetryable => r.nextAttempt.None? || r.nextAttempt.value <= now
       case Sending => r.leaseExpires.Some? && r.leaseExpires.value <= now
       case _ => false
  }

  function Candidates(rows: seq<Row>, business: nat, now: Time, n: nat): (r: seq<nat>)
    requires n <= |rows|
    ensures forall k: nat :: k in r <==> k < n && Claimable(rows[k], business, now)
    ensures NoRepeats(r)
  {
    if n == 0 then []
    else
      var rest := Candidates(rows, business, now, n - 1);
      if Claimable(rows[n - 1], business, now) then rest + [n - 1] else rest
  }

  predicate NoRepeats(ks: seq<nat>) { forall a, b :: 0 <= a < b < |ks| ==> ks[a] != ks[b] }

  predicate Indices(rows: seq<Row>, ks: seq<nat>) { forall a :: 0 <= a < |ks| ==> ks[a] < |rows| }

  predicate ByAge(rows: seq<Row>, ks: seq<nat>)
    requires Indices(rows, ks)
  {
    forall a, b :: 0 <= a < b < |ks| ==> rows[ks[a]].createdAt <= rows[ks[b]].createdAt
  }

  /** A stable insertion from the right: past every strictly younger row. */
  function InsertByAge(rows: seq<Row>, k: nat, ks: seq<nat>): (r: seq<nat>)
    requires k < |rows| && Indices(rows, ks)
    ensures Indices(rows, r) && |r| == |ks| + 1
  {
    if ks == [] || rows[ks[|ks| - 1]].createdAt <= rows[k].createdAt then ks + [k]
    else InsertByAge(rows, k, ks[..|ks| - 1]) + [ks[|ks| - 1]]
  }

  function SortByAge(rows: seq<Row>, ks: seq<nat>): (r: seq<nat>)
    requires Indices(rows, ks)
    ensures Indices(rows, r)
  {
    if ks == [] then [] else InsertByAge(rows, ks[|ks| - 1], SortByAge(rows, ks[..|ks| - 1]))
  }

  lemma {:induction false} InsertByAgeMembers(rows: seq<Row>, k: nat, ks: seq<nat>)
    requires k < |rows| && Indices(rows, ks)
    ensures forall j: nat :: j in InsertByAge(rows, k, ks) <==> j == k || j in ks
  {
    if ks != [] {
      var front, last := ks[..|ks| - 1], ks[|ks| - 1];
      assert ks == front + [last];
      InsertByAgeMembers(rows, k, front);
    }
  }

  lemma AppendNoRepeats(ks: seq<nat>, k: nat)
    requires NoRepeats(ks) && k !in ks
    ensures NoRepeats(ks + [k])
  {
  }

  lemma {:induction false} InsertByAgeNoRepeats(rows: seq<Row>, k: nat, ks: seq<nat>)
    requires k < |rows| && Indices(rows, ks) && NoRepeats(ks) && k !in ks
    ensures NoRepeats(InsertByAge(rows, k, ks))
  {
    if ks == [] || rows[ks[|ks| - 1]].createdAt <= rows[k].createdAt {
      AppendNoRepeats(ks, k);
    } else {
      var front, last := ks[..|ks| - 1], ks[|ks| - 1];
      InsertByAgeNoRepeats(rows, k, front);
      InsertByAgeMembers(rows, k, front);
      assert last !in front;
      AppendNoRepeats(InsertByAge(rows, k, front), last);
    }
  }

  lemma {:induction false} InsertByAgeSorts(rows: seq<Row>, k: nat, ks: seq<nat>)
    requires k < |rows| && Indices(rows, ks) && ByAge(rows, ks)
    ensures ByAge(rows, InsertByAge(rows, k, ks))
  {
    if ks != [] && rows[ks[|ks| - 1]].createdAt > rows[k].createdAt {
      var front, last := ks[..|ks| - 1], ks[|ks| - 1];
      InsertByAgeSorts(rows, k, front);
      InsertByAgeMembers(rows, k, front);
      var r := InsertByAge(rows, k, front);
      forall a | 0 <= a < |r| ensures rows[r[a]].createdAt <= rows[last].createdAt {
        assert r[a] in r;
      }
    }
  }

  lemma {:induction false} SortByAgeSorts(rows: seq<Row>, ks: seq<nat>)
    requires Indices(rows, ks) && NoRepeats(ks)
    ensures var r := SortByAge(rows, ks);
      ByAge(rows, r) && NoRepeats(r) && forall j: nat :: j in r <==> j in ks
  {
    if ks != [] {
      var front, last := ks[..|ks| - 1], ks[|ks| - 1];
      assert ks == front + [last];
      SortByAgeSorts(rows, front);
      InsertByAgeMembers(rows, last, SortByAge(rows, front));
      InsertByAgeNoRepeats(rows, last, SortByAge(rows, front));
      InsertByAgeSorts(rows, last, SortByAge(rows, front));
    }
  }

  /** The sort is stable: rows of the same age keep their order in the table. */
  predicate TableOrder(rows: seq<Row>, ks: seq<nat>)
    requires Indices(rows, ks)
  {
    forall a, b :: 0 <= a < b < |ks| && rows[ks[a]].createdAt == rows[ks[b]].createdAt ==> ks[a] < ks[b]
  }

  predicate Rising(ks: seq<nat>) { forall a, b :: 0 <= a < b < |ks| ==> ks[a] < ks[b] }

  lemma {:induction false} InsertByAgeStable(rows: seq<Row>, k: nat, ks: seq<nat>)
    requires k < |rows| && Indices(rows, ks) && ByAge(rows, ks) && TableOrder(rows, ks)
    requires forall a :: 0 <= a < |ks| ==> ks[a] < k
    ensures TableOrder(rows, InsertByAge(rows, k, ks))
  {
    if ks != [] && rows[ks[|ks| - 1]].createdAt > rows[k].createdAt {
      var front, last := ks[..|ks| - 1], ks[|ks| - 1];
      InsertByAgeStable(rows, k, front);
      InsertByAgeMembers(rows, k, front);
      var r := InsertByAge(rows, k, front);
      forall a | 0 <= a < |r| && rows[r[a]].createdAt == rows[last].createdAt ensures r[a] < last {
        assert r[a] in r && r[a] in front;
        var b :| 0 <= b < |front| && front[b] == r[a];
        assert ks[b] == r[a];
      }
      assert InsertByAge(rows, k, ks) == r + [last];
      hide InsertByAge;
      AppendInOrder(rows, r, last);
    }
  }

  lemma AppendInOrder(rows: seq<Row>, ks: seq<nat>, k: nat)
    requires Indices(rows, ks) && k < |rows| && TableOrder(rows, ks)
    requires forall a :: 0 <= a < |ks| && rows[ks[a]].createdAt == rows[k].createdAt ==> ks[a] < k
    ensures Indices(rows, ks + [k]) && TableOrder(rows, ks + [k])
  {
  }

  lemma {:induction false} SortByAgeStable(rows: seq<Row>, ks: seq<nat>)
    requires Indices(rows, ks) && Rising(ks)
    ensures TableOrder(rows, SortByAge(rows, ks))
  {
    if ks != [] {
      var front, last := ks[..|ks| - 1], ks[|ks| - 1];
      SortByAgeStable(rows, front);
      SortByAgeSorts(rows, front);
      var q := SortByAge(rows, front);
      forall a | 0 <= a < |q| ensures q[a] < last {
        assert q[a] in q && q[a] in front;
        var b :| 0 <= b < |front| && front[b] == q[a];
        assert ks[b] == q[a];
      }
      InsertByAgeStable(rows, last, q);
    }
  }

  function Take<T>(s: seq<T>, n: nat): seq<T> { if n < |s| then s[..n] else s }

  /** filter, then sort by created_at. */
  function Queue(rows: seq<Row>, input: ClaimInput): (r: seq<nat>)
    ensures Indices(rows, r)
  {
    var all := Candidates(rows, input.business, input.now, |rows|);
    assert forall a :: 0 <= a < |all| ==> all[a] in all;
    SortByAge(rows, all)
  }

  /** ... then slice(0, limit). */
  function Claimed(rows: seq<Row>, input: ClaimInput): (r: seq<nat>)
    ensures Indices(rows, r)
  {
    Take(Queue(rows, input), input.limit)
  }

  lemma QueueIsSorted(rows: seq<Row>, input: ClaimInput)
    ensures var q := Queue(rows, input);
      ByAge(rows, q) && NoRepeats(q)
      && forall k: nat :: k in q <==> k < |rows| && Claimable(rows[k], input.business, input.now)
  {
    var all := Candidates(rows, input.business, input.now, |rows|);
    assert forall a :: 0 <= a < |all| ==> all[a] in all;
    SortByAgeSorts(rows, all);
  }

  function Leased(r: Row, input: ClaimInput): Row {
    r.(attempts := r.attempts + 1, lastAttempt := Some(input.now), status := Sending,
       leaseOwner := Some(input.owner), leaseExpires := Some(input.expires))
  }

  function AfterClaim(rows: seq<Row>, input: ClaimInput): (after: seq<Row>)
    ensures |after| == |rows|
    ensures forall i :: 0 <= i < |rows| ==>
      after[i] == if i in Claimed(rows, input) then Leased(rows[i], input) else rows[i]
  {
    var ks := Claimed(rows, input);
    seq(|rows|, i requires 0 <= i < |rows| => if i in ks then Leased(rows[i], input) else rows[i])
  }

  function CommandsAt(rows: seq<Row>, ks: seq<nat>): (r: seq<Command>)
    requires Indices(rows, ks)
    ensures |r| == |ks| && forall i :: 0 <= i < |ks| ==> r[i] == rows[ks[i]].command
  {
    seq(|ks|, i requires 0 <= i < |ks| => rows[ks[i]].command)
  }

  /** Exactly the claimable rows are considered; a claim takes at most limit distinct ones,
      oldest first, and leaves one behind only when the limit is used up by older rows. */
  lemma ClaimTakesOldest(rows: seq<Row>, input: ClaimInput)
    ensures var ks := Claimed(rows, input);
      && NoRepeats(ks) && |ks| <= input.limit && ByAge(rows, ks)
      && (forall a :: 0 <= a < |ks| ==> Claimable(rows[ks[a]], input.business, input.now))
      && (forall i: nat, a ::
            i < |rows| && Claimable(rows[i], input.business, input.now) && i !in ks && 0 <= a < |ks| ==>
              rows[ks[a]].createdAt <= rows[i].createdAt)
      && (forall i: nat :: i < |rows| && Claimable(rows[i], input.business, input.now) && i !in ks ==>
                           |ks| == input.limit)
  {
    hide Queue, Claimable;
    QueueIsSorted(rows, input);
    var q, ks := Queue(rows, input), Claimed(rows, input);
    assert forall a :: 0 <= a < |ks| ==> ks[a] == q[a] && q[a] in q;
    forall i: nat | i < |rows| && Claimable(rows[i], input.business, input.now) && i !in ks
      ensures |ks| == input.limit
      ensures forall a :: 0 <= a < |ks| ==> rows[ks[a]].createdAt <= rows[i].createdAt
    {
      assert i in q;
      var p :| 0 <= p < |q| && q[p] == i;
      assert forall a :: 0 <= a < |ks| ==> ks[a] in ks;
      assert p >= |ks|;
    }
  }

  lemma {:induction false} CandidatesRise(rows: seq<Row>, business: nat, now: Time, n: nat)
    requires n <= |rows|
    ensures Rising(Candidates(rows, business, now, n))
  {
    if n > 0 {
      CandidatesRise(rows, business, now, n - 1);
      var rest := Candidates(rows, business, now, n - 1);
      hide Candidates, Claimable;
      forall a | 0 <= a < |rest| ensures rest[a] < n - 1 { assert rest[a] in rest; }
      assert Rising(rest + [n - 1]);
    }
  }

  /** Claimed rows of the same age are handed out in table order. */
  lemma ClaimIsStable(rows: seq<Row>, input: ClaimInput)
    ensures TableOrder(rows, Claimed(rows, input))
  {
    var all := Candidates(rows, input.business, input.now, |rows|);
    assert forall a :: 0 <= a < |all| ==> all[a] in all;
    CandidatesRise(rows, input.business, input.now, |rows|);
    SortByAgeStable(rows, all);
    hide SortByAge, Candidates;
  }

  /** Which rows those are, in their own fields: never one under an unexpired lease, in backoff,
      settled or of another business; always a PENDING, due or expired one unless older ones used up
      the limit. A claimed row is SENDING under the caller's lease with one more attempt. */
  lemma ClaimInFields(rows: seq<Row>, input: ClaimInput, i: nat)
    requires i < |rows|
    ensures var r, now, after := rows[i], input.now, AfterClaim(rows, input)[i];
      var due :=
        || r.status == Pending
        || (r.status == FailedRetryable && (r.nextAttempt == None || r.nextAttempt.value <= now))
        || (r.status == Sending && r.leaseExpires != None && r.leaseExpires.value <= now);
      var taken := due && r.command.business == input.business;
      && (i in Claimed(rows, input) ==> taken)
      && (taken && i !in Claimed(rows, input) ==>
            |Claimed(rows, input)| == input.limit
            && forall a :: 0 <= a < |Claimed(rows, input)| ==> rows[Claimed(rows, input)[a]].createdAt <= r.createdAt)
      && (i in Claimed(rows, input) ==>
            && after.status == Sending && after.leaseOwner == Some(input.owner) && after.lastAttempt == Some(now)
            && after.leaseExpires == Some(input.expires) && after.attempts == r.attempts + 1
            && after.command == r.command && after.createdAt == r.createdAt)
      && (i !in Claimed(rows, input) ==> after == r)
  {
    ClaimTakesOldest(rows, input);
    hide Claimed;
  }

  lemma ClaimKeepsIds(rows: seq<Row>, input: ClaimInput)
    requires UniqueIds(rows)
    ensures UniqueIds(AfterClaim(rows, input))
  {
    var after := AfterClaim(rows, input);
    assert forall i :: 0 <= i < |rows| ==> after[i].command == rows[i].command;
  }

  lemma ClaimedAreClaimable(rows: seq<Row>, input: ClaimInput, i: nat)
    requires i < |rows| && i in Claimed(rows, input)
    ensures Claimable(rows[i], input.business, input.now)
  {
    ClaimTakesOldest(rows, input);
  }

  // ------------------------------------------------------------------ settle

  datatype Disposition = DAccepted | DAcceptedWithReview | DFailedRetryable | DRequiresReview

  datatype Settlement = Settlement(
    id: nat, disposition: Disposition, error: Option<string>, nextAttempt: Option<Time>)

  datatype Outcome<T> = Ok(value: T) | InvalidInput | LeaseMismatch

  function IndexOf(rows: seq<Row>, id: nat): (r: Option<nat>)
    ensures r.Some? ==> r.value < |rows| && rows[r.value].command.id == id
    ensures r.None? ==> forall i :: 0 <= i < |rows| ==> rows[i].command.id != id
  {
    if rows == [] then None
    else if rows[|rows| - 1].command.id == id then Some(|rows| - 1)
    else IndexOf(rows[..|rows| - 1], id)
  }

  /** The caller still owns the row it wants to settle. */
  predicate Holds(rows: seq<Row>, owner: nat, id: nat) {
    var i := IndexOf(rows, id);
    i.Some? && rows[i.value].status == Sending && rows[i.value].leaseOwner == Some(owner)
  }

  function SettledStatus(d: Disposition): Status {
    match d
    case DAccepted => Accepted
    case DAcceptedWithReview => Accepted
    case DFailedRetryable => FailedRetryable
    case DRequiresReview => RequiresReview
  }

  function Settled(r: Row, s: Settlement): Row {
    r.(lastError := s.error, leaseExpires := None, leaseOwner := None,
       nextAttempt := if s.disposition == DFailedRetryable then s.nextAttempt else None,
       status := SettledStatus(s.disposition))
  }

  function SettleOne(rows: seq<Row>, owner: nat, s: Settlement): (r: Outcome<seq<Row>>)
    ensures r.Ok? ==> |r.value| == |rows|
  {
    if Holds(rows, owner, s.id) then
      var i := IndexOf(rows, s.id).value;
      Ok(rows[i := Settled(rows[i], s)])
    else
      LeaseMismatch
  }

  /** The transaction of settleOutboxBatch: the first mismatch aborts the whole batch. */
  function SettleAll(rows: seq<Row>, owner: nat, ss: seq<Settlement>): (r: Outcome<seq<Row>>)
    ensures r.Ok? ==> |r.value| == |rows|
    decreases |ss|
  {
    if ss == [] then Ok(rows)
    else
      var first := SettleOne(rows, owner, ss[0]);
      if first.Ok? then SettleAll(first.value, owner, ss[1..]) else first
  }

  predicate WellFormedBatch(ss: seq<Settlement>) {
    (forall i, j :: 0 <= i < j < |ss| ==> ss[i].id != ss[j].id)
    && forall i :: 0 <= i < |ss| && ss[i].disposition == DFailedRetryable ==> ss[i].nextAttempt.Some?
  }

  lemma UniqueIndex(rows: seq<Row>, i: nat)
    requires UniqueIds(rows) && i < |rows|
    ensures IndexOf(rows, rows[i].command.id) == Some(i)
  {
  }

  lemma SettleOneFrame(rows: seq<Row>, owner: nat, s: Settlement, id: nat)
    requires UniqueIds(rows) && id != s.id && SettleOne(rows, owner, s).Ok?
    ensures var after := SettleOne(rows, owner, s).value;
      UniqueIds(after) && IndexOf(after, id) == IndexOf(rows, id)
      && (Holds(after, owner, id) <==> Holds(rows, owner, id))
  {
    var after := SettleOne(rows, owner, s).value;
    assert forall i :: 0 <= i < |rows| ==> after[i].command == rows[i].command;
    var i := IndexOf(rows, id);
    if i.Some? { UniqueIndex(after, i.value); }
  }

  /** A batch commits exactly when its caller still holds every row it settles. */
  lemma {:induction false} SettleCommitsIffHeld(rows: seq<Row>, owner: nat, ss: seq<Settlement>)
    requires UniqueIds(rows) && WellFormedBatch(ss)
    ensures SettleAll(rows, owner, ss).Ok? <==> forall i :: 0 <= i < |ss| ==> Holds(rows, owner, ss[i].id)
    decreases |ss|
  {
    if ss != [] {
      var first := SettleOne(rows, owner, ss[0]);
      if first.Ok? {
        forall i | 0 < i < |ss|
          ensures UniqueIds(first.value)
               && (Holds(first.value, owner, ss[i].id) <==> Holds(rows, owner, ss[i].id))
        {
          SettleOneFrame(rows, owner, ss[0], ss[i].id);
        }
        assert UniqueIds(first.value);
        SettleCommitsIffHeld(first.value, owner, ss[1..]);
        assert forall i :: 0 < i < |ss| ==> ss[i] == ss[1..][i - 1];
      }
    }
  }

  /** Settling touches only the caller's own SENDING rows, and keeps every row's command. */
  lemma {:induction false} SettleFrame(rows: seq<Row>, owner: nat, ss: seq<Settlement>)
    requires SettleAll(rows, owner, ss).Ok?
    ensures var after := SettleAll(rows, owner, ss).value;
      forall i :: 0 <= i < |rows| ==>
        && after[i].command == rows[i].command
        && (after[i] == rows[i] || (rows[i].status == Sending && rows[i].leaseOwner == Some(owner)))
    decreases |ss|
  {
    if ss != [] {
      var mid := SettleOne(rows, owner, ss[0]).value;
      SettleFrame(mid, owner, ss[1..]);
    }
  }

  /** A batch leaves every row it does not name as it was. */
  lemma {:induction false} UnnamedStays(rows: seq<Row>, owner: nat, ss: seq<Settlement>, i: nat)
    requires SettleAll(rows, owner, ss).Ok? && i < |rows|
    requires forall k :: 0 <= k < |ss| ==> ss[k].id != rows[i].command.id
    ensures SettleAll(rows, owner, ss).value[i] == rows[i]
    decreases |ss|
  {
    if ss != [] {
      var mid := SettleOne(rows, owner, ss[0]).value;
      assert mid[i] == rows[i];
      UnnamedStays(mid, owner, ss[1..], i);
    }
  }

  /** A row after its settlement, in the words of the settlement: which status each disposition
      leads to, the next attempt only of a retryable failure, no lease, and nothing else touched. */
  ghost predicate EndsAs(before: Row, after: Row, s: Settlement) {
    && (after.status == Accepted <==> s.disposition == DAccepted || s.disposition == DAcceptedWithReview)
    && (after.status == RequiresReview <==> s.disposition == DRequiresReview)
    && (after.status == FailedRetryable <==> s.disposition == DFailedRetryable)
    && (s.disposition == DFailedRetryable ==> after.nextAttempt == s.nextAttempt)
    && (s.disposition != DFailedRetryable ==> after.nextAttempt == None)
    && after.lastError == s.error && after.leaseOwner == None && after.leaseExpires == None
    && after.command == before.command && after.createdAt == before.createdAt && after.hasGrant == before.hasGrant
    && after.attempts == before.attempts && after.lastAttempt == before.lastAttempt
  }

  /** After a committed batch every named row is as its settlement told, all others are as before. */
  lemma {:induction false} SettledAsTold(rows: seq<Row>, owner: nat, ss: seq<Settlement>, i: nat)
    requires UniqueIds(rows) && WellFormedBatch(ss) && SettleAll(rows, owner, ss).Ok? && i < |rows|
    ensures var after := SettleAll(rows, owner, ss).value;
      && (forall k :: 0 <= k < |ss| && ss[k].id == rows[i].command.id ==> EndsAs(rows[i], after[i], ss[k]))
      && ((forall k :: 0 <= k < |ss| ==> ss[k].id != rows[i].command.id) ==> after[i] == rows[i])
    decreases |ss|
  {
    if ss != [] {
      var mid := SettleOne(rows, owner, ss[0]).value;
      assert forall j :: 0 <= j < |rows| ==> mid[j].command == rows[j].command;
      assert forall k :: 0 < k < |ss| ==> ss[1..][k - 1] == ss[k];
      if ss[0].id == rows[i].command.id {
        UniqueIndex(rows, i);
        UnnamedStays(mid, owner, ss[1..], i);
      } else {
        assert mid[i] == rows[i];
        SettledAsTold(mid, owner, ss[1..], i);
      }
    }
  }

  // ---------------------------------------------------------------- recovery

  const RECOVERABLE: set<string> :=
    {"SESSION_INVALID", "DEVICE_REVOKED", "MEMBERSHIP_INACTIVE", "PERMISSION_DENIED"}

  predicate Recoverable(r: Row, business: nat) {
    r.command.business == business && r.status == RequiresReview && r.hasGrant
    && r.lastError.Some? && r.lastError.value in RECOVERABLE
  }

  function RecoverableCount(rows: seq<Row>, business: nat): nat {
    if rows == [] then 0
    else RecoverableCount(rows[..|rows| - 1], business) + (if Recoverable(rows[|rows| - 1], business) then 1 else 0)
  }

  function Reopened(r: Row): Row {
    r.(lastError := None, leaseExpires := None, leaseOwner := None, nextAttempt := None, status := Pending)
  }

  function AfterRecovery(rows: seq<Row>, business: nat): (after: seq<Row>)
    ensures |after| == |rows|
    ensures forall i :: 0 <= i < |rows| ==>
      after[i] == if Recoverable(rows[i], business) then Reopened(rows[i]) else rows[i]
  {
    seq(|rows|, i requires 0 <= i < |rows| => if Recoverable(rows[i], business) then Reopened(rows[i]) else rows[i])
  }

  // ----------------------------------------------------------------- summary

  datatype Summary = Summary(pending: nat, sending: nat, failed: nat, review: nat, unresolved: nat)

  function Count(rows: seq<Row>, business: nat, s: Status): nat {
    if rows == [] then 0
    else
      var last := rows[|rows| - 1];
      Count(rows[..|rows| - 1], business, s) + (if last.command.business == business && last.status == s then 1 else 0)
  }

  function SummaryOf(rows: seq<Row>, business: nat): Summary {
    var p, s := Count(rows, business, Pending), Count(rows, business, Sending);
    var f, r := Count(rows, business, FailedRetryable), Count(rows, business, RequiresReview);
    Summary(p, s, f, r, p + s + f + r)
  }

  /** canDiscardHistoricalCredential. */
  predicate CanDiscardCredential(s: Summary) { s.unresolved == 0 }

  predicate AllAccepted(rows: seq<Row>, business: nat) {
    forall i :: 0 <= i < |rows| && rows[i].command.business == business ==> rows[i].status == Accepted
  }

  /** The credential may go exactly when every row of the business is ACCEPTED. */
  lemma {:induction false} DiscardIffAllAccepted(rows: seq<Row>, business: nat)
    ensures CanDiscardCredential(SummaryOf(rows, business)) <==> AllAccepted(rows, business)
  {
    if rows != [] {
      var front := rows[..|rows| - 1];
      DiscardIffAllAccepted(front, business);
      assert rows == front + [rows[|rows| - 1]];
      if AllAccepted(front, business) && rows[|rows| - 1].command.business == business
         && rows[|rows| - 1].status == Accepted {
        assert AllAccepted(rows, business);
      }
    }
  }

  // ------------------------------------------------------- counts, row by row

  predicate InStatus(r: Row, business: nat, s: Status) { r.command.business == business && r.status == s }

  /** Each count of the summary is the number of rows of the business in that status. */
  lemma {:induction false} CountIsNumber(rows: seq<Row>, business: nat, s: Status)
    ensures Count(rows, business, s) == |set i | 0 <= i < |rows| && InStatus(rows[i], business, s)|
  {
    if rows != [] {
      var n := |rows| - 1;
      CountIsNumber(rows[..n], business, s);
      assert Count(rows, business, s) == Count(rows[..n], business, s)
        + if InStatus(rows[n], business, s) then 1 else 0;
      hide Count, InStatus;
      var all := set i | 0 <= i < |rows| && InStatus(rows[i], business, s);
      var front := set i | 0 <= i < n && InStatus(rows[..n][i], business, s);
      OneMore(all, front, n, InStatus(rows[n], business, s));
    }
  }

  lemma OneMore(all: set<int>, front: set<int>, n: int, added: bool)
    requires n !in front && front <= all <= front + {n} && (n in all <==> added)
    ensures |all| == |front| + if added then 1 else 0
  {
    if added { assert all == front + {n}; } else { assert all == front; }
  }

  lemma SummaryInFields(rows: seq<Row>, business: nat)
    ensures var s := SummaryOf(rows, business);
      && s.pending == |set i | 0 <= i < |rows| && InStatus(rows[i], business, Pending)|
      && s.sending == |set i | 0 <= i < |rows| && InStatus(rows[i], business, Sending)|
      && s.failed == |set i | 0 <= i < |rows| && InStatus(rows[i], business, FailedRetryable)|
      && s.review == |set i | 0 <= i < |rows| && InStatus(rows[i], business, RequiresReview)|
      && s.unresolved == s.pending + s.sending + s.failed + s.review
  {
    hide Count, InStatus;
    CountIsNumber(rows, business, Pending); CountIsNumber(rows, business, Sending);
    CountIsNumber(rows, business, FailedRetryable); CountIsNumber(rows, business, RequiresReview);
  }

  /** A review that only failed for want of authorization, under a grant, may be tried again. */
  predicate MayRetry(r: Row, business: nat) {
    && r.command.business == business && r.status == RequiresReview && r.hasGrant
    && r.lastError in {Some("SESSION_INVALID"), Some("DEVICE_REVOKED"), Some("MEMBERSHIP_INACTIVE"),
                       Some("PERMISSION_DENIED")}
  }

  /** Authorizing a recovery puts exactly those rows back to PENDING, without error, lease or backoff. */
  lemma RecoveryReopens(rows: seq<Row>, business: nat, i: nat)
    requires i < |rows|
    ensures var before, after := rows[i], AfterRecovery(rows, business)[i];
      if MayRetry(before, business) then
        && after.status == Pending && after.lastError == None && after.nextAttempt == None
        && after.leaseOwner == None && after.leaseExpires == None
        && after.command == before.command && after.createdAt == before.createdAt && after.hasGrant
        && after.attempts == before.attempts && after.lastAttempt == before.lastAttempt
      else after == before
  {
    RecoverableIsMayRetry(rows[i], business);
    hide Recoverable, MayRetry;
  }

  lemma RecoverableIsMayRetry(r: Row, business: nat)
    ensures Recoverable(r, business) <==> MayRetry(r, business)
  {
  }

  lemma {:induction false} RecoveryCount(rows: seq<Row>, business: nat)
    ensures RecoverableCount(rows, business) == |set i | 0 <= i < |rows| && MayRetry(rows[i], business)|
  {
    hide Recoverable, MayRetry;
    if rows != [] {
      var n := |rows| - 1;
      RecoveryCount(rows[..n], business);
      RecoverableIsMayRetry(rows[n], business);
      var all := set i | 0 <= i < |rows| && MayRetry(rows[i], business);
      var front := set i | 0 <= i < n && MayRetry(rows[..n][i], business);
      OneMore(all, front, n, MayRetry(rows[n], business));
    }
  }

  // ----------------------------------------------------------------- the store

  /** The filter of claimOutboxBatch, over the whole table. */
  method FilterClaimable(rows: seq<Row>, input: ClaimInput) returns (ks: seq<nat>)
    ensures ks == Candidates(rows, input.business, input.now, |rows|) && Indices(rows, ks)
  {
    ks := [];
    for i := 0 to |rows|
      invariant ks == Candidates(rows, input.business, input.now, i)
    {
      if Claimable(rows[i], input.business, input.now) { ks := ks + [i]; }
    }
    assert forall a :: 0 <= a < |ks| ==> ks[a] in ks;
  }

  /** One insertion of the sort, from the right. */
  method InsertOldestFirst(rows: seq<Row>, k: nat, ks: seq<nat>) returns (q: seq<nat>)
    requires k < |rows| && Indices(rows, ks)
    ensures q == InsertByAge(rows, k, ks)
  {
    var p := |ks|;
    assert ks[..p] == ks && ks[p..] == [];
    assert InsertByAge(rows, k, ks) + [] == InsertByAge(rows, k, ks);
    while p > 0 && rows[ks[p - 1]].createdAt > rows[k].createdAt
      invariant 0 <= p <= |ks|
      invariant InsertByAge(rows, k, ks[..p]) + ks[p..] == InsertByAge(rows, k, ks)
    {
      InsertPast(rows, k, ks, p);
      p := p - 1;
    }
    InsertHere(rows, k, ks, p);
    q := ks[..p] + [k] + ks[p..];
  }

  lemma InsertHere(rows: seq<Row>, k: nat, ks: seq<nat>, p: nat)
    requires k < |rows| && Indices(rows, ks) && p <= |ks| && (p == 0 || rows[ks[p - 1]].createdAt <= rows[k].createdAt)
    ensures InsertByAge(rows, k, ks[..p]) == ks[..p] + [k]
  {
  }

  /** The sort of claimOutboxBatch: stable, by created_at. */
  method OldestFirst(rows: seq<Row>, ks: seq<nat>) returns (q: seq<nat>)
    requires Indices(rows, ks)
    ensures q == SortByAge(rows, ks)
  {
    q := [];
    for a := 0 to |ks|
      invariant q == SortByAge(rows, ks[..a])
    {
      assert ks[..a + 1][..a] == ks[..a];
      q := InsertOldestFirst(rows, ks[a], q);
    }
    assert ks[..|ks|] == ks;
  }

  /** The leases put over the claimed rows, and the commands handed out. */
  method PutLeases(rows: seq<Row>, ks: seq<nat>, input: ClaimInput) returns (after: seq<Row>, commands: seq<Command>)
    requires Indices(rows, ks) && NoRepeats(ks)
    ensures |after| == |rows| && commands == CommandsAt(rows, ks)
    ensures forall i: nat :: i < |rows| ==> after[i] == if i in ks then Leased(rows[i], input) else rows[i]
  {
    after, commands := rows, [];
    for a := 0 to |ks|
      invariant |after| == |rows| && commands == CommandsAt(rows, ks)[..a]
      invariant forall i: nat :: i < |rows| ==> after[i] == if i in ks[..a] then Leased(rows[i], input) else rows[i]
    {
      var k := ks[a];
      var row := after[k];
      assert k !in ks[..a] && row == rows[k];
      assert ks[..a + 1] == ks[..a] + [k];
      commands := commands + [row.command];
      after := after[k := row.(attempts := row.attempts + 1, lastAttempt := Some(input.now), status := Sending,
                               leaseOwner := Some(input.owner), leaseExpires := Some(input.expires))];
    }
    assert ks[..|ks|] == ks;
  }

  /** Walking past a younger row leaves what remains to be inserted. */
  lemma InsertPast(rows: seq<Row>, k: nat, q: seq<nat>, p: nat)
    requires k < |rows| && Indices(rows, q) && 0 < p <= |q| && rows[q[p - 1]].createdAt > rows[k].createdAt
    ensures InsertByAge(rows, k, q[..p]) + q[p..] == InsertByAge(rows, k, q[..p - 1]) + q[p - 1..]
  {
    assert q[..p][..p - 1] == q[..p - 1];
    assert q[p - 1..] == [q[p - 1]] + q[p..];
  }

  class PosSyncStore {
    var rows: seq<Row>

    ghost predicate Valid()
      reads this
    {
      UniqueIds(rows)
    }

    constructor ()
      ensures Valid() && rows == []
    {
      rows := [];
    }

    method ClaimOutboxBatch(input: ClaimInput) returns (r: Outcome<seq<Command>>)
      requires Valid()
      modifies this
      ensures Valid()
      ensures r.InvalidInput? <==> input.limit == 0 || input.expires <= input.now
      ensures r.Ok? || r.InvalidInput?
      ensures r.InvalidInput? ==> rows == old(rows)
      ensures r.Ok? ==> rows == AfterClaim(old(rows), input)
      ensures r.Ok? ==> r.value == CommandsAt(old(rows), Claimed(old(rows), input))
    {
      if input.limit == 0 || input.expires <= input.now { return InvalidInput; }
      ClaimKeepsIds(rows, input);
      ClaimTakesOldest(rows, input);
      var candidates := FilterClaimable(rows, input);
      var queue := OldestFirst(rows, candidates);
      var ks := if input.limit < |queue| then queue[..input.limit] else queue;
      assert ks == Claimed(rows, input);
      hide Claimed;
      var after, commands := PutLeases(rows, ks, input);
      assert after == AfterClaim(rows, input);
      rows := after;
      r := Ok(commands);
    }

    method SettleOutboxBatch(owner: nat, ss: seq<Settlement>) returns (r: Outcome<()>)
      requires Valid()
      modifies this
      ensures Valid()
      ensures r.InvalidInput? <==> !WellFormedBatch(ss)
      ensures r.Ok? <==> WellFormedBatch(ss) && forall i :: 0 <= i < |ss| ==> old(Holds(rows, owner, ss[i].id))
      ensures r.Ok? ==> SettleAll(old(rows), owner, ss) == Ok(rows)
      ensures !r.Ok? ==> rows == old(rows)
    {
      var seen: set<nat> := {};
      for i := 0 to |ss|
        invariant seen == set k | 0 <= k < i :: ss[k].id
        invariant WellFormedBatch(ss[..i])
      {
        if ss[i].id in seen || (ss[i].disposition == DFailedRetryable && ss[i].nextAttempt.None?) {
          return InvalidInput;
        }
        seen := seen + {ss[i].id};
      }
      assert ss[..|ss|] == ss;
      SettleCommitsIffHeld(rows, owner, ss);
      var working := rows;
      var k := 0;
      while k < |ss|
        invariant 0 <= k <= |ss| && |working| == |rows| && rows == old(rows)
        invariant forall i :: 0 <= i < |rows| ==> working[i].command == rows[i].command
        invariant SettleAll(rows, owner, ss) == SettleAll(working, owner, ss[k..])
      {
        var step := SettleOne(working, owner, ss[k]);
        assert ss[k..][0] == ss[k] && ss[k..][1..] == ss[k + 1..];
        if !step.Ok? { return LeaseMismatch; }
        working := step.value;
        k := k + 1;
      }
      rows := working;
      r := Ok(());
    }

    method AuthorizeRecoveryRetry(business: nat) returns (n: nat)
      requires Valid()
      modifies this
      ensures Valid()
      ensures rows == AfterRecovery(old(rows), business)
      ensures n == RecoverableCount(old(rows), business)
    {
      n := 0;
      var i := 0;
      while i < |rows|
        invariant 0 <= i <= |rows| == |old(rows)|
        invariant forall k :: 0 <= k < i ==>
          rows[k] == if Recoverable(old(rows)[k], business) then Reopened(old(rows)[k]) else old(rows)[k]
        invariant forall k :: i <= k < |rows| ==> rows[k] == old(rows)[k]
        invariant n == RecoverableCount(old(rows)[..i], business)
      {
        assert old(rows)[..i + 1][..i] == old(rows)[..i];
        if Recoverable(rows[i], business) {
          rows := rows[i := Reopened(rows[i])];
          n := n + 1;
        }
        i := i + 1;
      }
      assert old(rows)[..|rows|] == old(rows);
    }

    method GetOutboxSummary(business: nat) returns (s: Summary)
      ensures s == SummaryOf(rows, business)
    {
      var p, g, f, v := 0, 0, 0, 0;
      for i := 0 to |rows|
        invariant p == Count(rows[..i], business, Pending)
        invariant g == Count(rows[..i], business, Sending)
        invariant f == Count(rows[..i], business, FailedRetryable)
        invariant v == Count(rows[..i], business, RequiresReview)
      {
        assert rows[..i + 1][..i] == rows[..i];
        if rows[i].command.business == business {
          match rows[i].status
          case Pending => p := p + 1;
          case Sending => g := g + 1;
          case FailedRetryable => f := f + 1;
          case RequiresReview => v := v + 1;
          case Accepted =>
        }
      }
      assert rows[..|rows|] == rows;
      s := Summary(p, g, f, v, p + g + f + v);
    }
  }
}
