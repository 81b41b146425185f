/** One cash shift: its movements, the immutable closing snapshot and late reconciliations. */
module CashShift {
  import opened Decimals
  import opened Wrappers

  type Time = int

  datatype Kind = OpeningBalance | CashSale | CashIn | CashOut | SafeDrop | CashRefund | CashReversal

  datatype Direction = In | Out

  datatype Movement = Movement(kind: Kind, direction: Direction, amount: real)

  datatype VarianceType = Matched | Over | Short

  datatype Snapshot = Snapshot(
    cashSales: real, cashIn: real, cashOut: real, cashRefunds: real, expected: real, variance: real,
    varianceType: VarianceType)

  datatype Shift = Shift(
    openedAt: Time, opening: real, movements: seq<Movement>, closedAt: Option<Time>, snapshot: Option<Snapshot>,
    late: seq<real>)

  datatype Command =
    | RecordMovement(kind: Kind, amount: real, occurredAt: Time)
    | CompleteSale(totalPaid: real, occurredAt: Time)
    | RefundCash(amount: real)
    | ReverseRefund(amount: real)
    | CloseShift(actual: real, at: Time)

  datatype Outcome = Done | Rejected(code: Code)

  datatype Code =
    | ShiftNotOpen
    | SaleOutsideShiftWindow
    | ReturnShiftContextInvalid
    | RefundCashShiftContextInvalid
    | InvalidShiftState

  // -------------------------------------------------------------------- sums

  function Signed(m: Movement): real { if m.direction == In then m.amount else -m.amount }

  /** The signed sum of movements: what the drawer holds. */
  function SignedSum(ms: seq<Movement>): real {
    if ms == [] then 0.0 else SignedSum(ms[..|ms| - 1]) + Signed(ms[|ms| - 1])
  }

  /** sum(amount) FILTER (WHERE movement_type IN kinds). */
  function Bucket(ms: seq<Movement>, kinds: set<Kind>): real {
    if ms == [] then 0.0
    else Bucket(ms[..|ms| - 1], kinds) + (if ms[|ms| - 1].kind in kinds then ms[|ms| - 1].amount else 0.0)
  }

  /** What reversals of refunds brought back. */
  function Reversed(ms: seq<Movement>): real { Bucket(ms, {CashReversal}) }

  /** The direction every writer records with its kind. */
  function DirectionOf(k: Kind): Direction {
    match k
    case OpeningBalance => In
    case CashSale => In
    case CashIn => In
    case CashReversal => In
    case CashOut => Out
    case SafeDrop => Out
    case CashRefund => Out
  }

  // ------------------------------------------------------------------ server

  /** The expected_cash of closeShiftCommand: opening plus sales and cash in, less cash out and
      refunds, with reversals in the refund bucket. */
  function ExpectedCash(opening: real, ms: seq<Movement>): real {
    opening + Bucket(ms, {CashSale}) + Bucket(ms, {CashIn}) - Bucket(ms, {CashOut, SafeDrop})
    - Bucket(ms, {CashRefund, CashReversal})
  }

  function OpenShift(opening: real, at: Time): Shift {
    Shift(at, opening, [Movement(OpeningBalance, In, opening)], None, None, [])
  }

  function Check(s: Shift, c: Command): Outcome {
    match c
    case RecordMovement(_, _, at) =>
      if s.closedAt.Some? && at > s.closedAt.value then Rejected(ShiftNotOpen) else Done
    case CompleteSale(_, at) =>
      if at < s.openedAt || (s.closedAt.Some? && at > s.closedAt.value) then Rejected(SaleOutsideShiftWindow) else Done
    case RefundCash(_) => if s.closedAt.Some? then Rejected(ReturnShiftContextInvalid) else Done
    case ReverseRefund(_) => if s.closedAt.Some? then Rejected(RefundCashShiftContextInvalid) else Done
    case CloseShift(_, _) => if s.closedAt.Some? then Rejected(InvalidShiftState) else Done
  }

  function NewMovement(c: Command): Movement
    requires !c.CloseShift?
  {
    match c
    case RecordMovement(k, a, _) => Movement(k, if k == CashIn then In else Out, a)
    case CompleteSale(a, _) => Movement(CashSale, In, a)
    case RefundCash(a) => Movement(CashRefund, Out, a)
    case ReverseRefund(a) => Movement(CashReversal, In, a)
  }

  /** A late sale reconciles what was paid, a late manual movement its signed amount. */
  function LateDelta(c: Command): real
    requires !c.CloseShift?
  {
    if c.CompleteSale? then c.totalPaid else Signed(NewMovement(c))
  }

  function TakeSnapshot(s: Shift, actual: real): Snapshot {
    var expected := ExpectedCash(s.opening, s.movements);
    Snapshot(Bucket(s.movements, {CashSale}), Bucket(s.movements, {CashIn}), Bucket(s.movements, {CashOut, SafeDrop}),
             Bucket(s.movements, {CashRefund, CashReversal}), expected, actual - expected,
             if actual == expected then Matched else if actual > expected then Over else Short)
  }

  function Next(s: Shift, c: Command): Shift {
    if Check(s, c).Rejected? then s
    else if c.CloseShift? then s.(closedAt := Some(c.at), snapshot := Some(TakeSnapshot(s, c.actual)))
    else
      s.(movements := s.movements + [NewMovement(c)],
         late := s.late + if s.closedAt.Some? then [LateDelta(c)] else [])
  }

  function Run(s: Shift, cs: seq<Command>): Shift {
    if cs == [] then s else Next(Run(s, cs[..|cs| - 1]), cs[|cs| - 1])
  }

  /** What the readers guarantee. */
  predicate Readable(c: Command) {
    match c
    case RecordMovement(k, a, _) => (k == CashIn || k == CashOut || k == SafeDrop) && a > 0.0
    case CompleteSale(a, _) => a >= 0.0
    case RefundCash(a) => a >= 0.0
    case ReverseRefund(a) => a >= 0.0
    case CloseShift(_, _) => true
  }

  // --------------------------------------------------------------- invariants

  ghost predicate WellRecorded(ms: seq<Movement>) {
    forall i :: 0 <= i < |ms| ==> ms[i].direction == DirectionOf(ms[i].kind) && ms[i].amount >= 0.0
  }

  ghost predicate OpenedOnce(opening: real, ms: seq<Movement>) { Bucket(ms, {OpeningBalance}) == opening }

  /** What the server believes the drawer holds: the snapshot and every late delta. */
  function Believed(s: Shift): real
    requires s.snapshot.Some?
  {
    s.snapshot.value.expected + Sum(s.late)
  }

  ghost predicate Inv(s: Shift) {
    && WellRecorded(s.movements) && OpenedOnce(s.opening, s.movements)
    && (s.closedAt.Some? <==> s.snapshot.Some?)
    && (s.closedAt.None? ==> s.late == [])
    && (s.snapshot.Some? ==> Believed(s) == SignedSum(s.movements) - 2.0 * Reversed(s.movements))
  }

  // -------------------------------------------------------------------- steps

  lemma SignedAppend(ms: seq<Movement>, m: Movement)
    ensures SignedSum(ms + [m]) == SignedSum(ms) + Signed(m)
  {
    assert (ms + [m])[..|ms|] == ms;
  }

  lemma BucketAppend(ms: seq<Movement>, m: Movement, kinds: set<Kind>)
    ensures Bucket(ms + [m], kinds) == Bucket(ms, kinds) + (if m.kind in kinds then m.amount else 0.0)
  {
    assert (ms + [m])[..|ms|] == ms;
  }

  lemma SumAppend(xs: seq<real>, x: real)
    ensures Sum(xs + [x]) == Sum(xs) + x
  {
    assert (xs + [x])[..|xs|] == xs;
  }

  /** The bucketed sum misses the signed one by exactly twice the reversed amount. */
  lemma {:induction false} BucketsAreSigned(ms: seq<Movement>)
    requires WellRecorded(ms)
    ensures ExpectedCash(Bucket(ms, {OpeningBalance}), ms) == SignedSum(ms) - 2.0 * Reversed(ms)
  {
    if ms != [] { BucketsAreSigned(ms[..|ms| - 1]); }
  }

  lemma NewMovementFits(c: Command)
    requires !c.CloseShift? && Readable(c)
    ensures var m := NewMovement(c);
      && m.direction == DirectionOf(m.kind) && m.amount >= 0.0 && m.kind != OpeningBalance
      && (m.kind == CashReversal <==> c.ReverseRefund?) && LateDelta(c) == Signed(m)
  {
  }

  lemma NextKeeps(s: Shift, c: Command)
    requires Inv(s) && Readable(c)
    ensures Inv(Next(s, c))
    ensures s.snapshot.Some? ==> Next(s, c).snapshot == s.snapshot
  {
    hide SignedSum, Bucket, Sum;
    if Check(s, c).Done? {
      if c.CloseShift? {
        BucketsAreSigned(s.movements);
        EmptySum();
      } else {
        var m := NewMovement(c);
        NewMovementFits(c);
        SignedAppend(s.movements, m);
        BucketAppend(s.movements, m, {OpeningBalance}); BucketAppend(s.movements, m, {CashReversal});
        SumAppend(s.late, LateDelta(c));
        hide NewMovement, LateDelta, Signed;
      }
    }
  }

  lemma EmptySum()
    ensures Sum([]) == 0.0
  {
  }

  lemma OpenedInv(opening: real, at: Time)
    requires opening >= 0.0
    ensures Inv(OpenShift(opening, at))
  {
    hide SignedSum, Sum;
    var m := Movement(OpeningBalance, In, opening);
    assert OpenShift(opening, at).movements == [] + [m];
    BucketAppend([], m, {OpeningBalance});
  }

  /** Over every run of an opened shift: once closed, the snapshot never changes, and with the late
      deltas it differs from the drawer by exactly twice the reversed refunds. */
  lemma {:induction false} ShiftRuns(opening: real, at: Time, cs: seq<Command>)
    requires opening >= 0.0 && forall i :: 0 <= i < |cs| ==> Readable(cs[i])
    ensures Inv(Run(OpenShift(opening, at), cs))
  {
    hide Inv, Next, OpenShift, Readable;
    if cs == [] {
      OpenedInv(opening, at);
    } else {
      ShiftRuns(opening, at, cs[..|cs| - 1]);
      NextKeeps(Run(OpenShift(opening, at), cs[..|cs| - 1]), cs[|cs| - 1]);
    }
  }

  /** The amounts of the movements of one kind. */
  function OfKind(ms: seq<Movement>, k: Kind): real {
    if ms == [] then 0.0 else OfKind(ms[..|ms| - 1], k) + (if ms[|ms| - 1].kind == k then ms[|ms| - 1].amount else 0.0)
  }

  lemma {:induction false} BucketsByKind(ms: seq<Movement>)
    ensures Bucket(ms, {CashSale}) == OfKind(ms, CashSale) && Bucket(ms, {CashIn}) == OfKind(ms, CashIn)
    ensures Bucket(ms, {CashReversal}) == OfKind(ms, CashReversal)
    ensures Bucket(ms, {CashOut, SafeDrop}) == OfKind(ms, CashOut) + OfKind(ms, SafeDrop)
    ensures Bucket(ms, {CashRefund, CashReversal}) == OfKind(ms, CashRefund) + OfKind(ms, CashReversal)
  {
    if ms != [] { BucketsByKind(ms[..|ms| - 1]); }
  }

  /** A closing in the words of the movements: an open shift is closed once, with the sums of its
      movements by kind, the expected cash they give, and the variance of the counted cash against it. */
  lemma ClosingStores(s: Shift, actual: real, at: Time)
    requires Inv(s)
    ensures var after := Next(s, CloseShift(actual, at));
      && (s.closedAt.Some? ==> after == s)
      && (s.closedAt.None? ==>
            && after.snapshot.Some? && after == s.(closedAt := Some(at), snapshot := after.snapshot)
            && var n, ms := after.snapshot.value, s.movements;
               && n.cashSales == OfKind(ms, CashSale) && n.cashIn == OfKind(ms, CashIn)
               && n.cashOut == OfKind(ms, CashOut) + OfKind(ms, SafeDrop)
               && n.cashRefunds == OfKind(ms, CashRefund) + OfKind(ms, CashReversal)
               && n.expected == SignedSum(ms) - 2.0 * OfKind(ms, CashReversal)
               && n.variance == actual - n.expected
               && (n.varianceType == Over <==> actual > n.expected)
               && (n.varianceType == Short <==> actual < n.expected)
               && (n.varianceType == Matched <==> actual == n.expected))
  {
    BucketsByKind(s.movements);
    BucketsAreSigned(s.movements);
    hide Bucket, OfKind, SignedSum, Sum, WellRecorded;
  }

  /** Which movement each other command writes and when: sales from the opening on, manual entries and
      sales up to the closing, refunds and reversals only into an open shift. What comes after the
      closing is also written down as a late amount. */
  lemma CommandStores(s: Shift, c: Command)
    requires !c.CloseShift?
    ensures
      var open := s.closedAt.None?;
      var (admitted, row) := match c
        case RecordMovement(kind, amount, at) =>
          (open || at <= s.closedAt.value, Movement(kind, if kind == CashIn then In else Out, amount))
        case CompleteSale(paid, at) =>
          (s.openedAt <= at && (open || at <= s.closedAt.value), Movement(CashSale, In, paid))
        case RefundCash(amount) => (open, Movement(CashRefund, Out, amount))
        case ReverseRefund(amount) => (open, Movement(CashReversal, In, amount));
      Next(s, c) ==
        if admitted then
          s.(movements := s.movements + [row],
             late := if open then s.late else s.late + [if row.direction == In then row.amount else -row.amount])
        else s
  {
    assert s.late + [] == s.late;
  }

  /** The server's belief is the drawer's content if and only if nothing was reversed. */
  lemma BelievedIffNoReversal(opening: real, at: Time, cs: seq<Command>)
    requires opening >= 0.0 && forall i :: 0 <= i < |cs| ==> Readable(cs[i])
    requires Run(OpenShift(opening, at), cs).snapshot.Some?
    ensures var s := Run(OpenShift(opening, at), cs);
      Believed(s) == SignedSum(s.movements) <==>
      forall i :: 0 <= i < |s.movements| ==> s.movements[i].kind == CashReversal ==> s.movements[i].amount == 0.0
  {
    ShiftRuns(opening, at, cs);
    ReversedZeroIff(Run(OpenShift(opening, at), cs).movements);
  }

  lemma RunOne(s: Shift, cs: seq<Command>, c: Command, all: seq<Command>)
    requires all == cs + [c]
    ensures Run(s, all) == Next(Run(s, cs), c)
  {
    assert all[..|cs|] == cs;
  }

  /** A refund of any amount, its reversal and the close: the server believes the drawer short by
      twice that amount. */
  lemma ReversalMisleads(s: Shift, cs: seq<Command>, amount: real, actual: real, at: Time)
    requires amount > 0.0 && s == OpenShift(0.0, at)
    requires cs == [RefundCash(amount), ReverseRefund(amount), CloseShift(actual, at)]
    ensures var end := Run(s, cs);
      && end.snapshot.Some? && SignedSum(end.movements) == 0.0
      && Believed(end) == -2.0 * amount != SignedSum(end.movements)
  {
    hide SignedSum, Bucket, Run, TakeSnapshot;
    var a, b, c := cs[0], cs[1], cs[2];
    RunOne(s, [], a, [a]); RunOne(s, [a], b, [a, b]); RunOne(s, [a, b], c, cs);
    NothingRun(s);
    ShiftRuns(0.0, at, cs);
    var m1, m2 := Movement(CashRefund, Out, amount), Movement(CashReversal, In, amount);
    assert Run(s, cs).movements == s.movements + [m1] + [m2];
    RefundedAndBack(s.movements, m1, m2);
  }

  lemma NothingRun(s: Shift)
    ensures Run(s, []) == s
  {
  }

  lemma RefundedAndBack(ms: seq<Movement>, m1: Movement, m2: Movement)
    requires ms == [Movement(OpeningBalance, In, 0.0)] && m1.amount == m2.amount
    requires m1.kind == CashRefund && m1.direction == Out && m2.kind == CashReversal && m2.direction == In
    ensures SignedSum(ms + [m1] + [m2]) == 0.0 && Reversed(ms + [m1] + [m2]) == m2.amount
  {
    hide SignedSum, Bucket;
    SignedAppend(ms, m1); SignedAppend(ms + [m1], m2);
    BucketAppend(ms, m1, {CashReversal}); BucketAppend(ms + [m1], m2, {CashReversal});
    OnlyOpening(ms);
  }

  lemma OnlyOpening(ms: seq<Movement>)
    requires ms == [Movement(OpeningBalance, In, 0.0)]
    ensures SignedSum(ms) == 0.0 && Bucket(ms, {CashReversal}) == 0.0
  {
    assert ms[..0] == [];
  }

  lemma {:induction false} ReversedZeroIff(ms: seq<Movement>)
    requires WellRecorded(ms)
    ensures Reversed(ms) >= 0.0
    ensures Reversed(ms) == 0.0 <==> forall i :: 0 <= i < |ms| ==> ms[i].kind == CashReversal ==> ms[i].amount == 0.0
  {
    if ms != [] {
      ReversedZeroIff(ms[..|ms| - 1]);
      assert ms == ms[..|ms| - 1] + [ms[|ms| - 1]];
    }
  }

  // ---------------------------------------------------------------------- POS

  datatype Preview = Preview(expected: real, variance: real, varianceType: VarianceType)

  /** An OPENING_BALANCE movement already carries the opening cash. */
  function StartingCash(ms: seq<Movement>, opening: real): real {
    if exists i :: 0 <= i < |ms| && ms[i].kind == OpeningBalance then 0.0 else opening
  }

  /** calculateClosingPreview: the direction fold over the local movements. */
  method CalculateClosingPreview(movements: seq<Movement>, opening: real, actual: real) returns (p: Preview)
    ensures p.expected == StartingCash(movements, opening) + SignedSum(movements)
    ensures p.variance == actual - p.expected
    ensures p.varianceType == (if actual == p.expected then Matched else if actual > p.expected then Over else Short)
  {
    var expected := StartingCash(movements, opening);
    ghost var start := expected;
    for i := 0 to |movements|
      invariant expected == start + SignedSum(movements[..i])
    {
      assert movements[..i + 1][..i] == movements[..i];
      expected :=
        if movements[i].direction == In then expected + movements[i].amount else expected - movements[i].amount;
    }
    assert movements[..|movements|] == movements;
    var variance := actual - expected;
    p := Preview(expected, variance, if variance == 0.0 then Matched else if variance > 0.0 then Over else Short);
  }

  /** The signed sum does not depend on the order of the movements. */
  lemma {:induction false} SignedPermutation(a: seq<Movement>, b: seq<Movement>)
    requires multiset(a) == multiset(b)
    ensures SignedSum(a) == SignedSum(b)
  {
    if a == [] {
      assert |multiset(b)| == 0;
    } else {
      var m := a[|a| - 1];
      assert a == a[..|a| - 1] + [m];
      assert m in multiset(b);
      var i :| 0 <= i < |b| && b[i] == m;
      var rest := b[..i] + b[i + 1..];
      assert b == b[..i] + [m] + b[i + 1..];
      SignedRemove(b, i);
      assert multiset(a[..|a| - 1]) == multiset(rest) by { RemoveOne(a[..|a| - 1], m, b[..i], b[i + 1..]); }
      SignedPermutation(a[..|a| - 1], rest);
    }
  }

  lemma RemoveOne(front: seq<Movement>, m: Movement, left: seq<Movement>, right: seq<Movement>)
    requires multiset(front + [m]) == multiset(left + [m] + right)
    ensures multiset(front) == multiset(left + right)
  {
    assert multiset(front) == multiset(front + [m]) - multiset{m};
    assert multiset(left + right) == multiset(left + [m] + right) - multiset{m};
  }

  lemma {:induction false} SignedRemove(b: seq<Movement>, i: nat)
    requires i < |b|
    ensures SignedSum(b) == SignedSum(b[..i] + b[i + 1..]) + Signed(b[i])
  {
    if i == |b| - 1 {
      assert b[..i] + b[i + 1..] == b[..|b| - 1];
    } else {
      var front := b[..|b| - 1];
      SignedRemove(front, i);
      assert b[..i] + b[i + 1..] == (front[..i] + front[i + 1..]) + [b[|b| - 1]];
      SignedAppend(front[..i] + front[i + 1..], b[|b| - 1]);
    }
  }

  /** With every local movement delivered before the close and no reversal among them, the
      preview's direction fold is the server's bucketed sum, in whatever order either holds them. */
  lemma PreviewMatchesServer(local: seq<Movement>, server: seq<Movement>, opening: real)
    requires multiset(local) == multiset(server) && WellRecorded(server) && OpenedOnce(opening, server)
    requires forall i :: 0 <= i < |server| ==> server[i].kind != CashReversal
    ensures StartingCash(local, opening) + SignedSum(local) == ExpectedCash(opening, server)
  {
    SignedPermutation(local, server);
    BucketsAreSigned(server);
    ReversedZeroIff(server);
    if StartingCash(local, opening) != 0.0 {
      forall i | 0 <= i < |server| ensures server[i].kind != OpeningBalance {
        assert server[i] in multiset(local);
      }
      NoOpening(server);
    }
  }

  lemma {:induction false} NoOpening(ms: seq<Movement>)
    requires forall i :: 0 <= i < |ms| ==> ms[i].kind != OpeningBalance
    ensures Bucket(ms, {OpeningBalance}) == 0.0
  {
    if ms != [] { NoOpening(ms[..|ms| - 1]); }
  }

  /** The rows a command other than the close writes, by cases. */
  lemma Recorded(s: Shift, c: Command)
    requires !c.CloseShift?
    ensures Check(s, c).Rejected? ==> Next(s, c) == s
    ensures Check(s, c).Done? ==>
      Next(s, c) == s.(movements := s.movements + [NewMovement(c)],
                       late := if s.closedAt.Some? then s.late + [LateDelta(c)] else s.late)
    ensures match c
      case RecordMovement(k, a, _) =>
        NewMovement(c) == Movement(k, if k == CashIn then In else Out, a) && LateDelta(c) == Signed(NewMovement(c))
      case CompleteSale(a, _) => NewMovement(c) == Movement(CashSale, In, a) && LateDelta(c) == a
      case RefundCash(a) => NewMovement(c) == Movement(CashRefund, Out, a) && LateDelta(c) == -a
      case ReverseRefund(a) => NewMovement(c) == Movement(CashReversal, In, a) && LateDelta(c) == a
  {
    assert s.late + [] == s.late;
  }

  // --------------------------------------------------------------- the tables

  /** The rows of one shift in cash.shifts, cash_movements, shift_closing_snapshots and
      shift_reconciliations. */
  class ShiftTables {
    var openedAt: Time
    var opening: real
    var movements: seq<Movement>
    var closedAt: Option<Time>
    var snapshot: Option<Snapshot>
    var late: seq<real>

    function Contents(): Shift
      reads this
    {
      Shift(openedAt, opening, movements, closedAt, snapshot, late)
    }

    /** openShiftCommand. */
    constructor (cash: real, at: Time)
      requires cash >= 0.0
      ensures Contents() == OpenShift(cash, at) && Inv(Contents())
    {
      openedAt, opening, closedAt, snapshot, late := at, cash, None, None, [];
      movements := [Movement(OpeningBalance, In, cash)];
      new;
      ShiftRuns(cash, at, []);
    }

    /** Whether the shift's window admits the command. */
    method CheckWindow(c: Command) returns (r: Outcome)
      requires !c.CloseShift?
      ensures r == Check(Contents(), c)
    {
      match c {
        case RecordMovement(_, _, at) =>
          var isLate := closedAt.Some? && at <= closedAt.value;
          if closedAt.Some? && !isLate { return Rejected(ShiftNotOpen); }
        case CompleteSale(_, at) =>
          if at < openedAt || (closedAt.Some? && at > closedAt.value) { return Rejected(SaleOutsideShiftWindow); }
        case RefundCash(_) =>
          if closedAt.Some? { return Rejected(ReturnShiftContextInvalid); }
        case ReverseRefund(_) =>
          if closedAt.Some? { return Rejected(RefundCashShiftContextInvalid); }
      }
      return Done;
    }

    /** The movement a sale, a manual entry, a refund or a reversal inserts, and its reconciliation
        when the shift is already closed. */
    method Record(c: Command) returns (r: Outcome)
      requires !c.CloseShift? && Readable(c) && Inv(Contents())
      modifies `movements, `late
      ensures r == Check(old(Contents()), c) && Contents() == Next(old(Contents()), c) && Inv(Contents())
    {
      hide Inv, Next, Readable, NewMovement, LateDelta, Check;
      NextKeeps(Contents(), c);
      Recorded(Contents(), c);
      r := CheckWindow(c);
      if r.Rejected? { return; }
      var m := match c
        case RecordMovement(k, a, _) => Movement(k, if k == CashIn then In else Out, a)
        case CompleteSale(a, _) => Movement(CashSale, In, a)
        case RefundCash(a) => Movement(CashRefund, Out, a)
        case ReverseRefund(a) => Movement(CashReversal, In, a);
      movements := movements + [m];
      if closedAt.Some? {
        late := late + [if c.CompleteSale? then c.totalPaid else if m.direction == In then m.amount else -m.amount];
      }
    }

    /** closeShiftCommand. */
    method Close(actual: real, at: Time) returns (r: Outcome)
      requires Inv(Contents())
      modifies `closedAt, `snapshot
      ensures r == Check(old(Contents()), CloseShift(actual, at))
      ensures Contents() == Next(old(Contents()), CloseShift(actual, at)) && Inv(Contents())
    {
      NextKeeps(Contents(), CloseShift(actual, at));
      if closedAt.Some? { return Rejected(InvalidShiftState); }
      var sales, cashIn := Bucket(movements, {CashSale}), Bucket(movements, {CashIn});
      var out, refunds := Bucket(movements, {CashOut, SafeDrop}), Bucket(movements, {CashRefund, CashReversal});
      var expected := opening + sales + cashIn - out - refunds;
      snapshot := Some(Snapshot(sales, cashIn, out, refunds, expected, actual - expected,
                                if actual == expected then Matched else if actual > expected then Over else Short));
      closedAt := Some(at);
      return Done;
    }
  }
}
