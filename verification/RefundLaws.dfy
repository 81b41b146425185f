/** What each refund command does, in the fields of the rows it locks: exactly when it moves a refund,
    where to, and with which cash movement. */
module RefundLaws {
  import opened Refunds
  import opened Wrappers

  /** The amounts of the rows a condition picks. */
  function SumWhere(rs: seq<Refund>, keep: Refund -> bool): real {
    if rs == [] then 0.0
    else SumWhere(rs[..|rs| - 1], keep) + (if keep(rs[|rs| - 1]) then rs[|rs| - 1].amount else 0.0)
  }

  /** What refunds other than id hold of a payment: the waiting, the paid out and the pending ones. */
  function HeldOfPayment(b: Books, payment: Id, id: Id): real {
    SumWhere(b.refunds, (r: Refund) =>
      r.paymentId == payment && r.id != id && r.status in {Status.Pending, Completed, RequiresAction})
  }

  function HeldOfReturn(b: Books, returnId: Id, id: Id): real {
    SumWhere(b.refunds, (r: Refund) =>
      r.returnId == returnId && r.id != id && r.status in {Status.Pending, Completed, RequiresAction})
  }

  /** The original payment stands, and payment and return both have room for the refund. */
  predicate HasRoom(b: Books, r: Refund) {
    && r.paymentId in b.payments && b.payments[r.paymentId].completed && r.returnId in b.returnTotals
    && HeldOfPayment(b, r.paymentId, r.id) + r.amount <= b.payments[r.paymentId].amount
    && HeldOfReturn(b, r.returnId, r.id) + r.amount <= b.returnTotals[r.returnId]
  }

  /** The books after one refund moved on, with one event and the given cash rows. */
  function Moved(b: Books, i: nat, next: Status, cash: seq<Cash>): Books
    requires i < |b.refunds|
  {
    var r := b.refunds[i];
    b.(refunds := b.refunds[i := r.(status := next, version := r.version + 1)],
       events := b.events + [Event(r.id, r.status, next)], cash := b.cash + cash)
  }

  /** A cash refund needs the cashier's open shift, any other must not name one. */
  predicate ShiftFits(cash: bool, shift: ShiftContext) { if cash then shift == OpenShift else shift == NoShift }

  lemma {:induction false} TotalIsHeld(rs: seq<Refund>, s: Scope, id: Id, keep: Refund -> bool)
    requires forall r :: keep(r) <==>
      InScope(r, s) && r.id != id && r.status in {Status.Pending, Completed, RequiresAction}
    ensures Total(rs, s, Some(id)) == SumWhere(rs, keep)
  {
    if rs != [] {
      TotalIsHeld(rs[..|rs| - 1], s, id, keep);
      assert keep(rs[|rs| - 1]) || !keep(rs[|rs| - 1]);
    }
  }

  lemma PaymentTotal(b: Books, payment: Id, id: Id)
    ensures Total(b.refunds, ByPayment(payment), Some(id)) == HeldOfPayment(b, payment, id)
  {
    TotalIsHeld(b.refunds, ByPayment(payment), id, (r: Refund) =>
      r.paymentId == payment && r.id != id && r.status in {Status.Pending, Completed, RequiresAction});
  }

  lemma ReturnTotal(b: Books, returnId: Id, id: Id)
    ensures Total(b.refunds, ByReturn(returnId), Some(id)) == HeldOfReturn(b, returnId, id)
  {
    TotalIsHeld(b.refunds, ByReturn(returnId), id, (r: Refund) =>
      r.returnId == returnId && r.id != id && r.status in {Status.Pending, Completed, RequiresAction});
  }

  lemma CapacityIsRoom(b: Books, r: Refund)
    requires r.returnId in b.returnTotals
    ensures Capacity(b, r).Done? <==> HasRoom(b, r)
  {
    PaymentTotal(b, r.paymentId, r.id); ReturnTotal(b, r.returnId, r.id);
    hide Total, HeldOfPayment, HeldOfReturn;
  }

  lemma LockedRow(b: Books, i: nat)
    requires Inv(b) && i < |b.refunds|
    ensures var r := b.refunds[i];
      && Holds(b.refunds, r.id) && Find(b.refunds, r.id) == i && r.returnId in b.returnTotals && r.methodId in b.methods
      && CashInv(b.cash, r, b.methods[r.methodId].cash)
  {
    FindUnique(b.refunds, i);
    assert RowInv(b, b.refunds[i]) && CashInv(b.cash, b.refunds[i], IsCash(b, b.refunds[i]));
    hide Find, CashInv, Total;
  }

  /** A retry moves a refund to PENDING if and only if it names its version, the refund is FAILED or
      REQUIRES_ACTION, and there is room for it; otherwise nothing changes. */
  lemma RetryIff(b: Books, i: nat, expected: nat)
    requires Inv(b) && i < |b.refunds|
    ensures var r := b.refunds[i];
      Next(b, Retry(r.id, expected)) ==
        if r.version == expected && r.status in {Failed, RequiresAction} && HasRoom(b, r)
        then Moved(b, i, Status.Pending, []) else b
  {
    LockedRow(b, i);
    CapacityIsRoom(b, b.refunds[i]);
    hide Inv, Find, Capacity, HasRoom, CashInv, Holds;
  }

  /** A resolution moves a refund that is not yet COMPLETED or REVERSED to another status if and only
      if it names its version, keeps within the room unless it fails the refund, and comes with the
      shift it needs; completing a cash refund writes its one cash movement. */
  lemma ResolveIff(b: Books, i: nat, expected: nat, next: Status, shift: ShiftContext)
    requires Inv(b) && i < |b.refunds| && next in {Completed, Failed, RequiresAction}
    ensures var r := b.refunds[i];
      var pays := r.methodId in b.methods && b.methods[r.methodId].cash && next == Completed;
      Next(b, Resolve(r.id, expected, next, shift)) ==
        if r.version == expected && r.status in {Status.Pending, Failed, RequiresAction} && r.status != next
           && (next == Failed || HasRoom(b, r)) && ShiftFits(pays, shift)
        then Moved(b, i, next, if pays then [Cash(CustomerRefund(r.id), r.amount)] else []) else b
  {
    LockedRow(b, i);
    ResolveDone(b, i, expected, next, shift);
    hide Inv, Find, HasRoom, Holds, CashInv, Check, ShiftFits;
  }

  lemma ResolveDone(b: Books, i: nat, expected: nat, next: Status, shift: ShiftContext)
    requires Inv(b) && i < |b.refunds| && next in {Completed, Failed, RequiresAction}
    ensures var r := b.refunds[i];
      var pays := r.methodId in b.methods && b.methods[r.methodId].cash && next == Completed;
      Check(b, Resolve(r.id, expected, next, shift)).Done? <==>
        && r.version == expected && r.status in {Status.Pending, Failed, RequiresAction} && r.status != next
        && (next == Failed || HasRoom(b, r)) && ShiftFits(pays, shift)
  {
    LockedRow(b, i);
    CapacityIsRoom(b, b.refunds[i]);
    hide Inv, Find, Capacity, HasRoom, Holds, Out, Back, Paid;
  }

  /** A reversal moves a COMPLETED refund to REVERSED if and only if it names its version and comes with
      the shift it needs; a cash refund's money comes back in one movement. */
  lemma ReverseIff(b: Books, i: nat, expected: nat, shift: ShiftContext)
    requires Inv(b) && i < |b.refunds|
    ensures var r := b.refunds[i];
      var pays := r.methodId in b.methods && b.methods[r.methodId].cash;
      Next(b, Reverse(r.id, expected, shift)) ==
        if r.version == expected && r.status == Completed && ShiftFits(pays, shift)
        then Moved(b, i, Reversed,
                   if pays then [Cash(RefundReversal(Event(r.id, Completed, Reversed)), r.amount)] else [])
        else b
  {
    LockedRow(b, i);
    hide Inv, Find, Capacity, Holds, Out, Back, Paid;
  }

  /** A return's refund is written if and only if its amount is the return's total, or less by override,
      the original payment stands with its own method unless overridden and has room, the method is
      active and both ids are new. A cash refund starts COMPLETED with its cash movement, any other
      PENDING without one. */
  lemma CompleteIff(b: Books, c: Command)
    requires c.CompleteReturn?
    ensures
      var fits :=
        && (if c.overrideAmount then c.amount <= c.total else c.amount == c.total)
        && c.payment in b.payments && b.payments[c.payment].completed
        && (c.overrideMethod || b.payments[c.payment].methodId == c.methodId)
        && HeldOfPayment(b, c.payment, c.refund) + c.amount <= b.payments[c.payment].amount
        && c.methodId in b.methods && b.methods[c.methodId].active
        && c.returnId !in b.returnTotals && (forall i :: 0 <= i < |b.refunds| ==> b.refunds[i].id != c.refund);
      && (!fits ==> Next(b, c) == b)
      && (fits ==>
            var pays := b.methods[c.methodId].cash;
            var row := Refund(c.refund, c.returnId, c.payment, c.methodId, c.amount,
                              if pays then Completed else Status.Pending, 1);
            Next(b, c) == b.(refunds := b.refunds + [row], returnTotals := b.returnTotals[c.returnId := c.total],
                             cash := b.cash + if pays then [Cash(CustomerRefund(c.refund), c.amount)] else []))
  {
    PaymentTotal(b, c.payment, c.refund);
    if !Holds(b.refunds, c.refund) { TotalWithout(b.refunds, ByPayment(c.payment), c.refund); }
    hide HeldOfPayment, Total;
  }
}
