/** Customer refunds: capacity of payments and returns, the lifecycle and its cash effects. */
module Refunds {
  import opened Wrappers

  type Id = string

  datatype Status = Pending | Completed | Failed | RequiresAction | Reversed

  datatype Payment = Payment(amount: real, methodId: Id, completed: bool)

  datatype Refund = Refund(
    id: Id, returnId: Id, paymentId: Id, methodId: Id, amount: real, status: Status, version: nat)

  datatype Event = Event(refundId: Id, prior: Status, next: Status)

  /** CASH_REFUND names its refund; CASH_REVERSAL names the lifecycle event that wrote it. */
  datatype Source = CustomerRefund(refundId: Id) | RefundReversal(event: Event)

  datatype Cash = Cash(source: Source, amount: real)

  datatype Method = Method(cash: bool, active: bool)

  datatype Books = Books(
    payments: map<Id, Payment>, methods: map<Id, Method>,
    returnTotals: map<Id, real>, refunds: seq<Refund>, events: seq<Event>, cash: seq<Cash>)

  datatype ShiftContext = NoShift | OpenShift | UnusableShift

  datatype Command =
    | CompleteReturn(returnId: Id, total: real, refund: Id, payment: Id, methodId: Id, amount: real,
                     overrideAmount: bool, overrideMethod: bool)
    | Retry(refund: Id, expected: nat)
    | Resolve(refund: Id, expected: nat, resolution: Status, shift: ShiftContext)
    | Reverse(refund: Id, expected: nat, shift: ShiftContext)

  /** The error codes, in the source's words. */
  datatype Code =
    | RefundOriginalPaymentInvalid
    | RefundPaymentLimitExceeded
    | RefundReturnLimitExceeded
    | RefundAmountMismatch
    | RefundExceedsReturnValue
    | RefundMethodMismatch
    | RefundMethodNotFound
    | DuplicateKey
    | RefundVersionConflict
    | RefundStateInvalid
    | RefundCashShiftRequired
    | RefundCashShiftContextInvalid
    | RefundCashEffectConflict
    | RefundCashContextNotApplicable
    | RefundCashEffectMissing
    | RefundNotFound

  datatype Outcome = Done | Rejected(code: Code)

  // ----------------------------------------------------------------- queries

  predicate Active(s: Status) { s == Status.Pending || s == Completed || s == RequiresAction }

  datatype Scope = ByPayment(paymentId: Id) | ByReturn(returnId: Id)

  predicate InScope(r: Refund, s: Scope) {
    match s
    case ByPayment(p) => r.paymentId == p
    case ByReturn(c) => r.returnId == c
  }

  function Weight(r: Refund, s: Scope): real { if Active(r.status) && InScope(r, s) then r.amount else 0.0 }

  /** Sum of the active refunds in scope, leaving out one id. */
  function Total(rs: seq<Refund>, s: Scope, except: Option<Id>): real {
    if rs == [] then 0.0
    else
      var r := rs[|rs| - 1];
      Total(rs[..|rs| - 1], s, except) + (if except == Some(r.id) then 0.0 else Weight(r, s))
  }

  predicate Holds(rs: seq<Refund>, id: Id) { exists i :: 0 <= i < |rs| && rs[i].id == id }

  function Find(rs: seq<Refund>, id: Id): (i: nat)
    requires Holds(rs, id)
    ensures i < |rs| && rs[i].id == id
  {
    if rs[|rs| - 1].id == id then |rs| - 1 else Find(rs[..|rs| - 1], id)
  }

  predicate Paid(cash: seq<Cash>, id: Id) {
    exists k :: 0 <= k < |cash| && cash[k].source == CustomerRefund(id)
  }

  /** Cash that left the drawer for a refund. */
  function Out(cash: seq<Cash>, id: Id): real {
    if cash == [] then 0.0
    else
      var c := cash[|cash| - 1];
      Out(cash[..|cash| - 1], id) + (if c.source == CustomerRefund(id) then c.amount else 0.0)
  }

  /** Cash that came back through reversals of a refund. */
  function Back(cash: seq<Cash>, id: Id): real {
    if cash == [] then 0.0
    else
      var c := cash[|cash| - 1];
      Back(cash[..|cash| - 1], id)
      + (if c.source.RefundReversal? && c.source.event.refundId == id then c.amount else 0.0)
  }

  function EventCount(es: seq<Event>, id: Id): nat {
    if es == [] then 0 else EventCount(es[..|es| - 1], id) + (if es[|es| - 1].refundId == id then 1 else 0)
  }

  predicate IsCash(b: Books, r: Refund) { r.methodId in b.methods && b.methods[r.methodId].cash }

  // ---------------------------------------------------------------- commands

  /** assertRefundCapacity. */
  function Capacity(b: Books, r: Refund): Outcome
    requires r.returnId in b.returnTotals
  {
    if r.paymentId !in b.payments || !b.payments[r.paymentId].completed then Rejected(RefundOriginalPaymentInvalid)
    else if Total(b.refunds, ByPayment(r.paymentId), Some(r.id)) + r.amount > b.payments[r.paymentId].amount then
      Rejected(RefundPaymentLimitExceeded)
    else if Total(b.refunds, ByReturn(r.returnId), Some(r.id)) + r.amount > b.returnTotals[r.returnId] then
      Rejected(RefundReturnLimitExceeded)
    else Done
  }

  /** The checks of completeReturnCommand that concern the refund, in order. */
  function CheckComplete(b: Books, c: Command): Outcome
    requires c.CompleteReturn?
  {
    if !c.overrideAmount && c.amount != c.total then Rejected(RefundAmountMismatch)
    else if c.overrideAmount && c.amount > c.total then Rejected(RefundExceedsReturnValue)
    else if c.payment !in b.payments || !b.payments[c.payment].completed then Rejected(RefundOriginalPaymentInvalid)
    else if !c.overrideMethod && b.payments[c.payment].methodId != c.methodId then Rejected(RefundMethodMismatch)
    else if Total(b.refunds, ByPayment(c.payment), None) + c.amount > b.payments[c.payment].amount then
      Rejected(RefundPaymentLimitExceeded)
    else if c.methodId !in b.methods || !b.methods[c.methodId].active then Rejected(RefundMethodNotFound)
    else if c.returnId in b.returnTotals || Holds(b.refunds, c.refund) then Rejected(DuplicateKey)
    else Done
  }

  /** The checks of retry, resolve and reverse, in order; r is the locked row. */
  function CheckLifecycle(b: Books, c: Command, r: Refund): Outcome
    requires !c.CompleteReturn? && r.returnId in b.returnTotals
  {
    if r.version != c.expected then Rejected(RefundVersionConflict)
    else
      match c
      case Retry(_, _) =>
        if r.status != Failed && r.status != RequiresAction then Rejected(RefundStateInvalid) else Capacity(b, r)
      case Resolve(_, _, next, shift) =>
        if r.status == Completed || r.status == Reversed || r.status == next then Rejected(RefundStateInvalid)
        else if Active(next) && Capacity(b, r).Rejected? then Capacity(b, r)
        else if IsCash(b, r) && next == Completed then
          if shift == NoShift then Rejected(RefundCashShiftRequired)
          else if shift == UnusableShift then Rejected(RefundCashShiftContextInvalid)
          else if Paid(b.cash, r.id) then Rejected(RefundCashEffectConflict)
          else Done
        else if shift != NoShift then Rejected(RefundCashContextNotApplicable)
        else Done
      case Reverse(_, _, shift) =>
        if r.status != Completed then Rejected(RefundStateInvalid)
        else if IsCash(b, r) then
          if shift == NoShift then Rejected(RefundCashShiftRequired)
          else if shift == UnusableShift then Rejected(RefundCashShiftContextInvalid)
          else if !Paid(b.cash, r.id) then Rejected(RefundCashEffectMissing)
          else Done
        else if shift != NoShift then Rejected(RefundCashContextNotApplicable)
        else Done
  }

  function Check(b: Books, c: Command): Outcome {
    if c.CompleteReturn? then CheckComplete(b, c)
    else if !Holds(b.refunds, c.refund) then Rejected(RefundNotFound)
    else
      var r := b.refunds[Find(b.refunds, c.refund)];
      if r.returnId !in b.returnTotals || r.methodId !in b.methods then Rejected(RefundNotFound)
      else CheckLifecycle(b, c, r)
  }

  function NextStatus(c: Command): Status
    requires !c.CompleteReturn?
  {
    if c.Retry? then Status.Pending else if c.Reverse? then Reversed else c.resolution
  }

  function NewRefund(b: Books, c: Command): Refund
    requires c.CompleteReturn? && c.methodId in b.methods
  {
    Refund(c.refund, c.returnId, c.payment, c.methodId, c.amount,
      if b.methods[c.methodId].cash then Completed else Status.Pending, 1)
  }

  /** The cash row a lifecycle command writes, if any. */
  function LifecycleCash(b: Books, c: Command, r: Refund): seq<Cash>
    requires !c.CompleteReturn?
  {
    if !IsCash(b, r) then []
    else if c.Reverse? then [Cash(RefundReversal(Event(r.id, r.status, Reversed)), r.amount)]
    else if NextStatus(c) == Completed then [Cash(CustomerRefund(r.id), r.amount)]
    else []
  }

  /** The whole effect of a command; a rejected one rolls back. */
  function Next(b: Books, c: Command): Books {
    if Check(b, c).Rejected? then b
    else if c.CompleteReturn? then
      b.(returnTotals := b.returnTotals[c.returnId := c.total],
         refunds := b.refunds + [NewRefund(b, c)],
         cash := b.cash + if b.methods[c.methodId].cash then [Cash(CustomerRefund(c.refund), c.amount)] else [])
    else
      var i := Find(b.refunds, c.refund);
      var r := b.refunds[i];
      b.(refunds := b.refunds[i := r.(status := NextStatus(c), version := r.version + 1)],
         events := b.events + [Event(r.id, r.status, NextStatus(c))],
         cash := b.cash + LifecycleCash(b, c, r))
  }

  function Run(b: Books, cs: seq<Command>): Books {
    if cs == [] then b else Next(Run(b, cs[..|cs| - 1]), cs[|cs| - 1])
  }

  /** What the payload readers guarantee. */
  predicate Readable(c: Command) {
    match c
    case CompleteReturn(_, total, _, _, _, amount, _, _) => amount >= 0.0 && total >= 0.0
    case Retry(_, _) => true
    case Resolve(_, _, next, _) => next == Completed || next == Failed || next == RequiresAction
    case Reverse(_, _, _) => true
  }

  // -------------------------------------------------------------- invariants

  ghost predicate UniqueRefunds(rs: seq<Refund>) {
    forall i, j :: 0 <= i < j < |rs| ==> rs[i].id != rs[j].id
  }

  ghost predicate RowInv(b: Books, r: Refund) {
    r.amount >= 0.0 && r.methodId in b.methods && r.returnId in b.returnTotals && r.paymentId in b.payments
    && r.version == 1 + EventCount(b.events, r.id)
  }

  /** The cash recorded for a refund, by method and status. */
  ghost predicate CashInv(cash: seq<Cash>, r: Refund, isCash: bool) {
    if isCash && r.status == Completed then Paid(cash, r.id) && Out(cash, r.id) == r.amount && Back(cash, r.id) == 0.0
    else if isCash && r.status == Reversed then
      Paid(cash, r.id) && Out(cash, r.id) == r.amount && Back(cash, r.id) == r.amount
    else !Paid(cash, r.id) && Out(cash, r.id) == 0.0 && Back(cash, r.id) == 0.0
  }

  predicate Known(b: Books, s: Scope) {
    match s
    case ByPayment(p) => p in b.payments
    case ByReturn(c) => c in b.returnTotals
  }

  /** The payment's amount, or the return's total. */
  function Limit(b: Books, s: Scope): real
    requires Known(b, s)
  {
    match s
    case ByPayment(p) => b.payments[p].amount
    case ByReturn(c) => b.returnTotals[c]
  }

  ghost predicate WithinCapacity(b: Books) {
    forall s :: Known(b, s) ==> Total(b.refunds, s, None) <= Limit(b, s)
  }

  function Owner(c: Cash): Id { if c.source.CustomerRefund? then c.source.refundId else c.source.event.refundId }

  ghost predicate Referenced(b: Books) {
    && (forall k :: 0 <= k < |b.events| ==> Holds(b.refunds, b.events[k].refundId))
    && (forall k :: 0 <= k < |b.cash| ==> Holds(b.refunds, Owner(b.cash[k])))
  }

  ghost predicate Inv(b: Books) {
    && UniqueRefunds(b.refunds) && Referenced(b) && WithinCapacity(b)
    && (forall i :: 0 <= i < |b.refunds| ==> RowInv(b, b.refunds[i]))
    && (forall i :: 0 <= i < |b.refunds| ==> CashInv(b.cash, b.refunds[i], IsCash(b, b.refunds[i])))
  }

  // ------------------------------------------------------------------ totals

  lemma {:induction false} TotalWithout(rs: seq<Refund>, s: Scope, id: Id)
    requires !Holds(rs, id)
    ensures Total(rs, s, Some(id)) == Total(rs, s, None)
  {
    if rs != [] {
      assert rs[|rs| - 1].id != id;
      assert !Holds(rs[..|rs| - 1], id) by {
        assert forall i :: 0 <= i < |rs| - 1 ==> rs[..|rs| - 1][i] == rs[i];
      }
      TotalWithout(rs[..|rs| - 1], s, id);
    }
  }

  /** Replacing one row changes a total by that row's weight alone. */
  lemma {:induction false} TotalUpdate(rs: seq<Refund>, i: nat, r: Refund, s: Scope)
    requires UniqueRefunds(rs) && i < |rs| && r.id == rs[i].id
    ensures Total(rs[i := r], s, None) == Total(rs, s, Some(r.id)) + Weight(r, s)
  {
    var front := rs[..|rs| - 1];
    if i == |rs| - 1 {
      assert rs[i := r][..|rs| - 1] == front;
      TotalWithout(front, s, r.id);
    } else {
      assert rs[i := r][..|rs| - 1] == front[i := r];
      assert UniqueRefunds(front) && front[i] == rs[i];
      TotalUpdate(front, i, r, s);
      assert rs[|rs| - 1].id != r.id;
    }
  }

  lemma TotalAppend(rs: seq<Refund>, r: Refund, s: Scope)
    ensures Total(rs + [r], s, None) == Total(rs, s, None) + Weight(r, s)
  {
    assert (rs + [r])[..|rs|] == rs;
  }

  lemma {:induction false} NoRefundOfReturn(rs: seq<Refund>, c: Id)
    requires forall i :: 0 <= i < |rs| ==> rs[i].returnId != c
    ensures Total(rs, ByReturn(c), None) == 0.0
  {
    if rs != [] { NoRefundOfReturn(rs[..|rs| - 1], c); }
  }

  lemma FindUnique(rs: seq<Refund>, i: nat)
    requires UniqueRefunds(rs) && i < |rs|
    ensures Holds(rs, rs[i].id) && Find(rs, rs[i].id) == i
  {
  }

  lemma HoldsAfter(rs: seq<Refund>, i: nat, r: Refund, id: Id)
    requires i < |rs| && r.id == rs[i].id
    ensures Holds(rs[i := r], id) <==> Holds(rs, id)
    ensures Holds(rs + [r], id) <==> Holds(rs, id) || r.id == id
  {
    var t := rs[i := r];
    if Holds(rs, id) { var k :| 0 <= k < |rs| && rs[k].id == id; assert t[k].id == id; }
    if Holds(t, id) { var k :| 0 <= k < |t| && t[k].id == id; assert rs[k].id == id; }
    HoldsAppend(rs, r, id);
  }

  lemma HoldsAppend(rs: seq<Refund>, r: Refund, id: Id)
    ensures Holds(rs + [r], id) <==> Holds(rs, id) || r.id == id
  {
    var t := rs + [r];
    if Holds(rs, id) { var k :| 0 <= k < |rs| && rs[k].id == id; assert t[k].id == id; }
    assert t[|rs|] == r;
    if Holds(t, id) && r.id != id { var k :| 0 <= k < |t| && t[k].id == id; assert rs[k].id == id; }
  }

  // -------------------------------------------------------------------- cash

  lemma CashAppend(cash: seq<Cash>, c: Cash, id: Id)
    ensures Out(cash + [c], id) == Out(cash, id) + (if c.source == CustomerRefund(id) then c.amount else 0.0)
    ensures Back(cash + [c], id) == Back(cash, id)
              + (if c.source.RefundReversal? && c.source.event.refundId == id then c.amount else 0.0)
    ensures Paid(cash + [c], id) <==> Paid(cash, id) || c.source == CustomerRefund(id)
  {
    var t := cash + [c];
    assert t[..|cash|] == cash && t[|cash|] == c;
    if Paid(cash, id) {
      var k :| 0 <= k < |cash| && cash[k].source == CustomerRefund(id);
      assert t[k].source == CustomerRefund(id);
    }
  }

  lemma {:induction false} NoCash(cash: seq<Cash>, id: Id)
    requires forall k :: 0 <= k < |cash| ==> Owner(cash[k]) != id
    ensures Out(cash, id) == 0.0 && Back(cash, id) == 0.0 && !Paid(cash, id)
  {
    if cash != [] { NoCash(cash[..|cash| - 1], id); }
    assert forall k :: 0 <= k < |cash| ==> Owner(cash[k]) != id ==> cash[k].source != CustomerRefund(id);
  }

  lemma {:induction false} NoEvents(es: seq<Event>, id: Id)
    requires forall k :: 0 <= k < |es| ==> es[k].refundId != id
    ensures EventCount(es, id) == 0
  {
    if es != [] { NoEvents(es[..|es| - 1], id); }
  }

  lemma EventAppend(es: seq<Event>, e: Event, id: Id)
    ensures EventCount(es + [e], id) == EventCount(es, id) + (if e.refundId == id then 1 else 0)
  {
    assert (es + [e])[..|es|] == es;
  }

  // ------------------------------------------------------------------- steps

  function Moved(r: Refund, next: Status): Refund { r.(status := next, version := r.version + 1) }

  /** What an accepted lifecycle command does, and what its checks established. */
  lemma Accepted(b: Books, c: Command)
    requires !c.CompleteReturn? && Check(b, c).Done?
    ensures Holds(b.refunds, c.refund)
    ensures var i := Find(b.refunds, c.refund); var r := b.refunds[i]; var next := NextStatus(c);
      && Next(b, c) == b.(refunds := b.refunds[i := Moved(r, next)],
                          events := b.events + [Event(r.id, r.status, next)],
                          cash := b.cash + LifecycleCash(b, c, r))
      && r.returnId in b.returnTotals && r.methodId in b.methods
      && (Active(next) ==> Capacity(b, r).Done?)
      && (c.Reverse? ==> r.status == Completed && (IsCash(b, r) ==> Paid(b.cash, r.id)))
      && (!c.Reverse? ==> r.status != Completed && r.status != Reversed)
      && (!c.Reverse? && next == Completed && IsCash(b, r) ==> !Paid(b.cash, r.id))
  {
    hide Capacity, Total, Paid, Holds;
  }

  lemma LifecycleRows(b: Books, i: nat, next: Status, cash: seq<Cash>)
    requires Inv(b) && i < |b.refunds|
    requires forall k :: 0 <= k < |cash| ==> Owner(cash[k]) == b.refunds[i].id
    ensures var r := b.refunds[i];
      var n := b.(refunds := b.refunds[i := Moved(r, next)], events := b.events + [Event(r.id, r.status, next)],
                  cash := b.cash + cash);
      UniqueRefunds(n.refunds) && Referenced(n) && forall k :: 0 <= k < |n.refunds| ==> RowInv(n, n.refunds[k])
  {
    var r := b.refunds[i];
    var r', e := Moved(r, next), Event(r.id, r.status, next);
    var n := b.(refunds := b.refunds[i := r'], events := b.events + [e], cash := b.cash + cash);
    hide Holds, EventCount, CashInv, WithinCapacity;
    assert Holds(b.refunds, r.id) by { FindUnique(b.refunds, i); }
    forall id ensures Holds(n.refunds, id) <==> Holds(b.refunds, id) { HoldsAfter(b.refunds, i, r', id); }
    forall k | 0 <= k < |n.refunds| ensures RowInv(n, n.refunds[k]) {
      assert RowInv(b, b.refunds[k]);
      EventAppend(b.events, e, b.refunds[k].id);
    }
  }

  lemma CompletingCash(cash: seq<Cash>, r: Refund, next: Status, isCash: bool, q: Refund, qCash: bool)
    requires CashInv(cash, r, isCash) && CashInv(cash, q, qCash) && q.id != r.id
    requires r.status != Completed && r.status != Reversed && next != Reversed
    ensures var t := cash + if isCash && next == Completed then [Cash(CustomerRefund(r.id), r.amount)] else [];
      CashInv(t, Moved(r, next), isCash) && CashInv(t, q, qCash)
  {
    var x := Cash(CustomerRefund(r.id), r.amount);
    CashAppend(cash, x, r.id); CashAppend(cash, x, q.id);
    hide Out, Back, Paid;
    assert cash + [] == cash;
  }

  lemma ReversingCash(cash: seq<Cash>, r: Refund, isCash: bool, q: Refund, qCash: bool)
    requires CashInv(cash, r, isCash) && CashInv(cash, q, qCash) && q.id != r.id && r.status == Completed
    ensures var t := cash + if isCash then [Cash(RefundReversal(Event(r.id, r.status, Reversed)), r.amount)] else [];
      CashInv(t, Moved(r, Reversed), isCash) && CashInv(t, q, qCash)
  {
    var x := Cash(RefundReversal(Event(r.id, r.status, Reversed)), r.amount);
    CashAppend(cash, x, r.id); CashAppend(cash, x, q.id);
    hide Out, Back, Paid;
    assert cash + [] == cash;
  }

  /** CashInv of the moved row i and of any other row q. */
  lemma LifecycleCashInv(b: Books, c: Command, r: Refund, q: Refund)
    requires !c.CompleteReturn? && Readable(c) && q.id != r.id
    requires CashInv(b.cash, r, IsCash(b, r)) && CashInv(b.cash, q, IsCash(b, q))
    requires if c.Reverse? then r.status == Completed else r.status != Completed && r.status != Reversed
    ensures var t := b.cash + LifecycleCash(b, c, r);
      CashInv(t, Moved(r, NextStatus(c)), IsCash(b, r)) && CashInv(t, q, IsCash(b, q))
  {
    hide CashInv, IsCash;
    if c.Reverse? {
      ReversingCash(b.cash, r, IsCash(b, r), q, IsCash(b, q));
    } else {
      CompletingCash(b.cash, r, NextStatus(c), IsCash(b, r), q, IsCash(b, q));
    }
  }

  lemma MovedTotal(b: Books, i: nat, next: Status, s: Scope)
    requires UniqueRefunds(b.refunds) && i < |b.refunds| && b.refunds[i].amount >= 0.0
    requires b.refunds[i].returnId in b.returnTotals
    requires Active(next) ==> Capacity(b, b.refunds[i]).Done?
    requires Known(b, s) && Total(b.refunds, s, None) <= Limit(b, s)
    ensures Total(b.refunds[i := Moved(b.refunds[i], next)], s, None) <= Limit(b, s)
  {
    var r := b.refunds[i];
    TotalUpdate(b.refunds, i, Moved(r, next), s);
    TotalUpdate(b.refunds, i, r, s);
    hide Total, UniqueRefunds;
    assert b.refunds[i := r] == b.refunds;
  }

  /** A row that is not the moved one; there need not be any. */
  lemma LifecycleKeepsCash(b: Books, c: Command, k: nat)
    requires Inv(b) && Readable(c) && !c.CompleteReturn? && Check(b, c).Done? && k < |b.refunds|
    ensures var n := Next(b, c); CashInv(n.cash, n.refunds[k], IsCash(n, n.refunds[k]))
  {
    Accepted(b, c);
    var i := Find(b.refunds, c.refund);
    var r := b.refunds[i];
    var n := Next(b, c);
    assert CashInv(b.cash, r, IsCash(b, r)) && CashInv(b.cash, b.refunds[k], IsCash(b, b.refunds[k]));
    hide Check, Next, CashInv, Capacity, WithinCapacity, Referenced, RowInv, Holds, LifecycleCash;
    if k == i {
      LifecycleCashSelf(b, c, r);
    } else {
      LifecycleCashInv(b, c, r, b.refunds[k]);
    }
  }

  lemma LifecycleCashSelf(b: Books, c: Command, r: Refund)
    requires !c.CompleteReturn? && Readable(c) && CashInv(b.cash, r, IsCash(b, r))
    requires if c.Reverse? then r.status == Completed else r.status != Completed && r.status != Reversed
    ensures CashInv(b.cash + LifecycleCash(b, c, r), Moved(r, NextStatus(c)), IsCash(b, r))
  {
    hide Out, Back, Paid, IsCash;
    var x := LifecycleCash(b, c, r);
    if x == [] {
      assert b.cash + x == b.cash;
    } else {
      CashAppend(b.cash, x[0], r.id);
      assert x == [x[0]];
    }
  }

  lemma LifecycleKeeps(b: Books, c: Command)
    requires Inv(b) && Readable(c) && !c.CompleteReturn? && Check(b, c).Done?
    ensures Inv(Next(b, c))
  {
    Accepted(b, c);
    var i, next := Find(b.refunds, c.refund), NextStatus(c);
    var r, n := b.refunds[i], Next(b, c);
    hide Check, Next, CashInv, Capacity, Holds, Total;
    assert RowInv(b, r);
    LifecycleRows(b, i, next, LifecycleCash(b, c, r));
    forall k | 0 <= k < |n.refunds| ensures CashInv(n.cash, n.refunds[k], IsCash(n, n.refunds[k])) {
      LifecycleKeepsCash(b, c, k);
    }
    forall s | Known(n, s) ensures Total(n.refunds, s, None) <= Limit(n, s) {
      MovedTotal(b, i, next, s);
    }
  }

  lemma CompleteKeepsRows(b: Books, c: Command)
    requires Inv(b) && Readable(c) && c.CompleteReturn? && Check(b, c).Done?
    ensures var n := Next(b, c);
      UniqueRefunds(n.refunds) && Referenced(n) && forall k :: 0 <= k < |n.refunds| ==> RowInv(n, n.refunds[k])
  {
    hide CashInv, WithinCapacity, Total, EventCount;
    var n, r := Next(b, c), NewRefund(b, c);
    forall id ensures Holds(n.refunds, id) <==> Holds(b.refunds, id) || id == r.id { HoldsAppend(b.refunds, r, id); }
    assert forall k :: 0 <= k < |b.refunds| ==> b.refunds[k].id != r.id;
    NoEvents(b.events, r.id);
    hide Holds;
    forall k | 0 <= k < |n.refunds| ensures RowInv(n, n.refunds[k]) {
      if k < |b.refunds| { assert RowInv(b, b.refunds[k]); }
    }
  }

  lemma CompleteKeepsCash(b: Books, c: Command, k: nat)
    requires Inv(b) && Readable(c) && c.CompleteReturn? && Check(b, c).Done? && k <= |b.refunds|
    ensures var n := Next(b, c); CashInv(n.cash, n.refunds[k], IsCash(n, n.refunds[k]))
  {
    hide WithinCapacity, Total, RowInv;
    var n, r := Next(b, c), NewRefund(b, c);
    var id := n.refunds[k].id;
    assert Holds(b.refunds, id) ==> id != r.id;
    if k == |b.refunds| {
      NoCash(b.cash, id);
    } else {
      assert b.refunds[k].id == id && CashInv(b.cash, b.refunds[k], IsCash(b, b.refunds[k]));
    }
    var x := Cash(CustomerRefund(c.refund), c.amount);
    CashAppend(b.cash, x, id);
    hide Out, Back, Paid;
    assert n.cash == if b.methods[c.methodId].cash then b.cash + [x] else b.cash;
  }

  lemma CompleteTotal(b: Books, c: Command, s: Scope)
    requires Inv(b) && Readable(c) && c.CompleteReturn? && Check(b, c).Done?
    requires Known(Next(b, c), s)
    ensures Total(Next(b, c).refunds, s, None) <= Limit(Next(b, c), s)
  {
    hide CashInv, UniqueRefunds, Referenced, Holds;
    TotalAppend(b.refunds, NewRefund(b, c), s);
    if s == ByReturn(c.returnId) {
      assert forall i :: 0 <= i < |b.refunds| ==> RowInv(b, b.refunds[i]) && b.refunds[i].returnId != c.returnId;
      NoRefundOfReturn(b.refunds, c.returnId);
    } else {
      assert Known(b, s);
    }
    hide Total;
  }

  lemma CompleteKeeps(b: Books, c: Command)
    requires Inv(b) && Readable(c) && c.CompleteReturn? && Check(b, c).Done?
    ensures Inv(Next(b, c))
  {
    hide Next, Check, CashInv, Total;
    var n := Next(b, c);
    CompleteKeepsRows(b, c);
    assert |n.refunds| == |b.refunds| + 1 by { CompleteAppends(b, c); }
    forall k | 0 <= k < |n.refunds| ensures CashInv(n.cash, n.refunds[k], IsCash(n, n.refunds[k])) {
      CompleteKeepsCash(b, c, k);
    }
    forall s | Known(n, s) ensures Total(n.refunds, s, None) <= Limit(n, s) {
      CompleteTotal(b, c, s);
    }
  }

  lemma CompleteAppends(b: Books, c: Command)
    requires c.CompleteReturn? && Check(b, c).Done?
    ensures |Next(b, c).refunds| == |b.refunds| + 1
  {
    hide Total, Holds;
  }

  lemma NextKeeps(b: Books, c: Command)
    requires Inv(b) && Readable(c)
    ensures Inv(Next(b, c))
  {
    if Check(b, c).Done? {
      if c.CompleteReturn? { CompleteKeeps(b, c); } else { LifecycleKeeps(b, c); }
    }
  }

  /** Over every interleaving: active refunds stay within their payment and their return, versions
      count the lifecycle events, and the recorded cash follows the status. */
  lemma {:induction false} RunKeeps(b: Books, cs: seq<Command>)
    requires Inv(b) && forall i :: 0 <= i < |cs| ==> Readable(cs[i])
    ensures Inv(Run(b, cs))
  {
    if cs != [] {
      RunKeeps(b, cs[..|cs| - 1]);
      NextKeeps(Run(b, cs[..|cs| - 1]), cs[|cs| - 1]);
    }
  }

  /** Net recorded cash of a refund. */
  function NetCash(b: Books, id: Id): real { Out(b.cash, id) - Back(b.cash, id) }

  /** What the invariant says of one cash refund in any reachable state. */
  lemma NetCashFollowsStatus(b: Books, cs: seq<Command>, i: nat)
    requires Inv(b) && forall k :: 0 <= k < |cs| ==> Readable(cs[k])
    requires i < |Run(b, cs).refunds|
    ensures var n := Run(b, cs); var r := n.refunds[i];
      && NetCash(n, r.id) == (if IsCash(n, r) && r.status == Completed then r.amount else 0.0)
      && r.version == 1 + EventCount(n.events, r.id)
  {
    RunKeeps(b, cs);
    assert RowInv(Run(b, cs), Run(b, cs).refunds[i]);
  }

  /** A command of the lifecycle leaves every other refund alone and raises its own version by one. */
  lemma RowAfter(b: Books, c: Command, i: nat)
    requires UniqueRefunds(b.refunds) && i < |b.refunds|
    ensures var n := Next(b, c);
      && i < |n.refunds|
      && (n.refunds[i] == b.refunds[i]
          || (b.refunds[i].status != Reversed && n.refunds[i].version == b.refunds[i].version + 1))
  {
    hide Capacity, Total, Paid;
  }

  /** REVERSED is terminal: a reversed refund is never touched again. */
  lemma {:induction false} ReversedIsTerminal(b: Books, cs: seq<Command>, i: nat)
    requires Inv(b) && forall k :: 0 <= k < |cs| ==> Readable(cs[k])
    requires i < |b.refunds| && b.refunds[i].status == Reversed
    ensures i < |Run(b, cs).refunds| && Run(b, cs).refunds[i] == b.refunds[i]
  {
    if cs != [] {
      ReversedIsTerminal(b, cs[..|cs| - 1], i);
      RunKeeps(b, cs[..|cs| - 1]);
      RowAfter(Run(b, cs[..|cs| - 1]), cs[|cs| - 1], i);
    }
  }

  /** In a reachable state the two cash-effect conflicts cannot be answered. */
  lemma CashConflictsUnreachable(b: Books, c: Command)
    requires Inv(b)
    ensures Check(b, c) != Rejected(RefundCashEffectConflict)
    ensures Check(b, c) != Rejected(RefundCashEffectMissing)
  {
    if !c.CompleteReturn? && Holds(b.refunds, c.refund) {
      var r := b.refunds[Find(b.refunds, c.refund)];
      assert CashInv(b.cash, r, IsCash(b, r));
      hide Inv, Total, Out, Back, Paid;
    }
  }

  // -------------------------------------------------------------- the tables

  /** The tables the four commands lock, read and write; each command is one transaction. */
  class RefundTables {
    var payments: map<Id, Payment>
    var methods: map<Id, Method>
    var returnTotals: map<Id, real>
    var refunds: seq<Refund>
    var events: seq<Event>
    var cash: seq<Cash>

    function Contents(): Books
      reads this
    {
      Books(payments, methods, returnTotals, refunds, events, cash)
    }

    constructor (ps: map<Id, Payment>, ms: map<Id, Method>)
      requires forall p :: p in ps ==> ps[p].amount >= 0.0
      ensures Contents() == Books(ps, ms, map[], [], [], []) && Inv(Contents())
    {
      payments, methods, returnTotals, refunds, events, cash := ps, ms, map[], [], [], [];
    }

    method CompleteReturn(c: Command) returns (r: Outcome)
      requires c.CompleteReturn? && Readable(c) && Inv(Contents())
      modifies this
      ensures r == old(Check(Contents(), c)) && Contents() == old(Next(Contents(), c)) && Inv(Contents())
    {
      ghost var b := Contents();
      NextKeeps(b, c);
      if !c.overrideAmount && c.amount != c.total { return Rejected(RefundAmountMismatch); }
      if c.overrideAmount && c.amount > c.total { return Rejected(RefundExceedsReturnValue); }
      if c.payment !in payments || !payments[c.payment].completed { return Rejected(RefundOriginalPaymentInvalid); }
      if !c.overrideMethod && payments[c.payment].methodId != c.methodId { return Rejected(RefundMethodMismatch); }
      if Total(refunds, ByPayment(c.payment), None) + c.amount > payments[c.payment].amount {
        return Rejected(RefundPaymentLimitExceeded);
      }
      if c.methodId !in methods || !methods[c.methodId].active { return Rejected(RefundMethodNotFound); }
      if c.returnId in returnTotals || Holds(refunds, c.refund) { return Rejected(DuplicateKey); }
      r := Done;
      var refund := NewRefund(Contents(), c);
      if methods[c.methodId].cash {
        cash := cash + [Cash(CustomerRefund(c.refund), c.amount)];
      }
      returnTotals := returnTotals[c.returnId := c.total];
      refunds := refunds + [refund];
      assert cash == b.cash + if b.methods[c.methodId].cash then [Cash(CustomerRefund(c.refund), c.amount)] else [];
    }

    /** lockRefund: the row together with its return and its method. */
    method LockRefund(id: Id) returns (row: Option<nat>)
      ensures row.Some? ==> row.value < |refunds| && Holds(refunds, id) && row.value == Find(refunds, id)
      ensures row.Some? <==> Holds(refunds, id) && refunds[Find(refunds, id)].returnId in returnTotals
                             && refunds[Find(refunds, id)].methodId in methods
    {
      if !Holds(refunds, id) { return None; }
      var i := Find(refunds, id);
      if refunds[i].returnId !in returnTotals || refunds[i].methodId !in methods { return None; }
      return Some(i);
    }

    /** The writes shared by retry, resolve and reverse once their checks passed. */
    method MoveRefund(i: nat, next: Status)
      requires i < |refunds|
      modifies `refunds, `events
      ensures refunds == old(refunds)[i := Moved(old(refunds)[i], next)]
      ensures events == old(events) + [Event(old(refunds)[i].id, old(refunds)[i].status, next)]
    {
      var r := refunds[i];
      refunds := refunds[i := r.(status := next, version := r.version + 1)];
      events := events + [Event(r.id, r.status, next)];
    }

    /** assertRefundCapacity over the refunds that are not this one. */
    method AssertRefundCapacity(refund: Refund) returns (r: Outcome)
      requires refund.returnId in returnTotals
      ensures r == Capacity(Contents(), refund)
    {
      if refund.paymentId !in payments || !payments[refund.paymentId].completed {
        return Rejected(RefundOriginalPaymentInvalid);
      }
      var paid := Total(refunds, ByPayment(refund.paymentId), Some(refund.id)) + refund.amount;
      if paid > payments[refund.paymentId].amount { return Rejected(RefundPaymentLimitExceeded); }
      var returned := Total(refunds, ByReturn(refund.returnId), Some(refund.id)) + refund.amount;
      if returned > returnTotals[refund.returnId] { return Rejected(RefundReturnLimitExceeded); }
      return Done;
    }

    /** requireCashLifecycleContext and the check of writeRefundCashMovement. */
    method RequireCash(refund: Refund, shift: ShiftContext, paidBefore: bool) returns (r: Outcome)
      ensures r == if shift == NoShift then Rejected(RefundCashShiftRequired)
                   else if shift == UnusableShift then Rejected(RefundCashShiftContextInvalid)
                   else if paidBefore && !Paid(cash, refund.id) then Rejected(RefundCashEffectMissing)
                   else if !paidBefore && Paid(cash, refund.id) then Rejected(RefundCashEffectConflict)
                   else Done
    {
      if shift == NoShift { return Rejected(RefundCashShiftRequired); }
      if shift == UnusableShift { return Rejected(RefundCashShiftContextInvalid); }
      var recorded := Paid(cash, refund.id);
      if paidBefore && !recorded { return Rejected(RefundCashEffectMissing); }
      if !paidBefore && recorded { return Rejected(RefundCashEffectConflict); }
      return Done;
    }

    /** retryRefundCommand. */
    method RetryRefund(id: Id, expected: nat) returns (r: Outcome)
      requires Inv(Contents())
      modifies `refunds, `events
      ensures var c := Retry(id, expected);
        r == Check(old(Contents()), c) && Contents() == Next(old(Contents()), c) && Inv(Contents())
    {
      hide Next, Inv, Capacity, Find, Holds;
      ghost var b, c := Contents(), Retry(id, expected);
      NextKeeps(b, c);
      Unchanged(b, c);
      var row := LockRefund(id);
      if row.None? { return Rejected(RefundNotFound); }
      var refund := refunds[row.value];
      if refund.version != expected { return Rejected(RefundVersionConflict); }
      if refund.status != Failed && refund.status != RequiresAction { return Rejected(RefundStateInvalid); }
      r := AssertRefundCapacity(refund);
      if r.Rejected? { return; }
      Accepted(b, c);
      MoveRefund(row.value, Status.Pending);
      assert b.cash + [] == b.cash;
    }

    /** resolveRefundCommand. */
    method ResolveRefund(id: Id, expected: nat, next: Status, shift: ShiftContext) returns (r: Outcome)
      requires Inv(Contents()) && Readable(Resolve(id, expected, next, shift))
      modifies `refunds, `events, `cash
      ensures var c := Resolve(id, expected, next, shift);
        r == Check(old(Contents()), c) && Contents() == Next(old(Contents()), c) && Inv(Contents())
    {
      hide Next, Inv, Capacity, Find, Holds, Paid;
      ghost var b, c := Contents(), Resolve(id, expected, next, shift);
      NextKeeps(b, c);
      Unchanged(b, c);
      var row := LockRefund(id);
      if row.None? { return Rejected(RefundNotFound); }
      var refund := refunds[row.value];
      if refund.version != expected { return Rejected(RefundVersionConflict); }
      if refund.status == Completed || refund.status == Reversed { return Rejected(RefundStateInvalid); }
      if refund.status == next { return Rejected(RefundStateInvalid); }
      if next == Completed || next == RequiresAction {
        r := AssertRefundCapacity(refund);
        if r.Rejected? { return; }
      }
      var pays := methods[refund.methodId].cash && next == Completed;
      if pays {
        r := RequireCash(refund, shift, false);
        if r.Rejected? { return; }
      } else if shift != NoShift {
        return Rejected(RefundCashContextNotApplicable);
      }
      r := Done;
      Accepted(b, c);
      if pays { cash := cash + [Cash(CustomerRefund(refund.id), refund.amount)]; }
      MoveRefund(row.value, next);
      assert b.cash + [] == b.cash;
    }

    /** reverseRefundCommand. */
    method ReverseRefund(id: Id, expected: nat, shift: ShiftContext) returns (r: Outcome)
      requires Inv(Contents())
      modifies `refunds, `events, `cash
      ensures var c := Reverse(id, expected, shift);
        r == Check(old(Contents()), c) && Contents() == Next(old(Contents()), c) && Inv(Contents())
    {
      hide Next, Inv, Capacity, Find, Holds, Paid;
      ghost var b, c := Contents(), Reverse(id, expected, shift);
      NextKeeps(b, c);
      Unchanged(b, c);
      var row := LockRefund(id);
      if row.None? { return Rejected(RefundNotFound); }
      var refund := refunds[row.value];
      if refund.version != expected { return Rejected(RefundVersionConflict); }
      if refund.status != Completed { return Rejected(RefundStateInvalid); }
      var wasCash := methods[refund.methodId].cash;
      if wasCash {
        r := RequireCash(refund, shift, true);
        if r.Rejected? { return; }
      } else if shift != NoShift {
        return Rejected(RefundCashContextNotApplicable);
      }
      r := Done;
      Accepted(b, c);
      if wasCash {
        cash := cash + [Cash(RefundReversal(Event(refund.id, refund.status, Reversed)), refund.amount)];
      }
      MoveRefund(row.value, Reversed);
      assert b.cash + [] == b.cash;
    }
  }

  lemma Unchanged(b: Books, c: Command)
    ensures Check(b, c).Rejected? ==> Next(b, c) == b
  {
    hide Check;
  }
}
