/** Price approvals: a unit's versions as a chain of half-open effective intervals. */
module PriceTimeline {
  import opened Wrappers

  type Time = int

  datatype Status = Active | Scheduled | Superseded

  /** One pricing.price_versions row of a product unit. */
  datatype Version = Version(id: nat, start: Time, end: Option<Time>, status: Status)

  datatype Approval = Approval(id: nat, effective: Time, now: Time)

  datatype Approved = Approved(versions: seq<Version>) | Overlap

  // ---------------------------------------------------------------- approval

  predicate Blocks(v: Version, effective: Time) {
    v.status != Superseded && (v.status == Scheduled || v.start >= effective)
  }

  /** The ACTIVE version the query's order finds first, by position. */
  function Current(vs: seq<Version>): (i: Option<nat>)
    ensures i.Some? ==> i.value < |vs| && vs[i.value].status == Active
    ensures i.None? ==> forall k :: 0 <= k < |vs| ==> vs[k].status != Active
    ensures i.Some? ==> forall k :: 0 <= k < i.value ==> vs[k].status != Active
  {
    if vs == [] then None
    else
      var i := Current(vs[..|vs| - 1]);
      if i.Some? then i else if vs[|vs| - 1].status == Active then Some(|vs| - 1) else None
  }

  function Close(v: Version, a: Approval): Version {
    v.(end := Some(a.effective), status := if a.effective <= a.now then Superseded else v.status)
  }

  function NewVersion(a: Approval): Version {
    Version(a.id, a.effective, None, if a.effective <= a.now then Active else Scheduled)
  }

  /** The body of the item loop of approvePriceProposalCommand; versions are kept by start. */
  function Approve(vs: seq<Version>, a: Approval): Approved {
    if exists k :: 0 <= k < |vs| && Blocks(vs[k], a.effective) then Overlap
    else
      var i := Current(vs);
      Approved((if i.Some? then vs[i.value := Close(vs[i.value], a)] else vs) + [NewVersion(a)])
  }

  /** A refused approval leaves the versions as they were. */
  function After(vs: seq<Version>, a: Approval): seq<Version> {
    if Approve(vs, a).Approved? then Approve(vs, a).versions else vs
  }

  function Run(approvals: seq<Approval>): seq<Version> {
    if approvals == [] then [] else After(Run(approvals[..|approvals| - 1]), approvals[|approvals| - 1])
  }

  // -------------------------------------------------------------- invariants

  /** Strictly increasing starts, each interval ending where the next begins, the last one open. */
  ghost predicate Chain(vs: seq<Version>) {
    && (forall i, j :: 0 <= i < j < |vs| ==> vs[i].start < vs[j].start)
    && (forall i :: 0 <= i < |vs| - 1 ==> vs[i].end == Some(vs[i + 1].start))
    && (vs != [] ==> vs[|vs| - 1].end == None)
  }

  /** Only the last version is in use, or the one before a scheduled last one. */
  ghost predicate Statuses(vs: seq<Version>, clock: Time) {
    && (vs != [] ==> vs[|vs| - 1].status != Superseded)
    && (vs != [] && vs[|vs| - 1].status == Active ==> vs[|vs| - 1].start <= clock)
    && (forall i :: 0 <= i < |vs| - 1 ==>
          vs[i].status == if i == |vs| - 2 && vs[|vs| - 1].status == Scheduled then Active else Superseded)
    && (forall i :: 0 <= i < |vs| - 1 && vs[i].status == Superseded ==> vs[i].end.Some? && vs[i].end.value <= clock)
  }

  ghost predicate Inv(vs: seq<Version>, clock: Time) { Chain(vs) && Statuses(vs, clock) }

  /** One clock that never runs backwards. */
  ghost predicate OneClock(approvals: seq<Approval>) {
    forall i, j :: 0 <= i < j < |approvals| ==> approvals[i].now <= approvals[j].now
  }

  function Clock(approvals: seq<Approval>): Time { if approvals == [] then 0 else approvals[|approvals| - 1].now }

  // ------------------------------------------------------------ main results

  /** An approval is accepted if and only if it is the first, or it starts after the last version
      and that version is not scheduled. */
  lemma AcceptedIff(vs: seq<Version>, a: Approval, clock: Time)
    requires Inv(vs, clock)
    ensures Approve(vs, a).Approved? <==>
      vs == [] || (vs[|vs| - 1].status == Active && vs[|vs| - 1].start < a.effective)
  {
    if vs != [] {
      var last := vs[|vs| - 1];
      assert Blocks(last, a.effective) <==> last.status == Scheduled || last.start >= a.effective;
      assert last.status == Active ==> forall k :: 0 <= k < |vs| - 1 ==> !Blocks(vs[k], a.effective);
    }
  }

  /** What an accepted approval writes, row by row: a new open version that is ACTIVE if and only if it
      starts by now, an end for the version that was ACTIVE, and nothing else. */
  lemma ApprovalWrites(vs: seq<Version>, a: Approval)
    requires Approve(vs, a).Approved?
    ensures var after := Approve(vs, a).versions;
      && |after| == |vs| + 1
      && after[|vs|] == Version(a.id, a.effective, None, if a.effective <= a.now then Active else Scheduled)
      && forall k :: 0 <= k < |vs| ==>
           if vs[k].status == Active && forall j :: 0 <= j < k ==> vs[j].status != Active then
             after[k] == Version(vs[k].id, vs[k].start, Some(a.effective),
                                 if a.effective <= a.now then Superseded else Active)
           else after[k] == vs[k]
  {
    hide Current;
  }

  /** Every approval has its version, in force until the next one starts; only the last is ACTIVE. */
  ghost predicate AllStored(vs: seq<Version>, approvals: seq<Approval>) {
    && |vs| == |approvals|
    && (vs != [] ==>
          var a := approvals[|vs| - 1];
          vs[|vs| - 1] == Version(a.id, a.effective, None, Active))
    && forall k :: 0 <= k < |vs| - 1 ==> Replaced(vs[k], approvals[k], approvals[k + 1])
  }

  predicate Replaced(v: Version, a: Approval, next: Approval) {
    v == Version(a.id, a.effective, Some(next.effective), Superseded)
  }

  lemma StoreOne(vs: seq<Version>, approvals: seq<Approval>, a: Approval)
    requires AllStored(vs, approvals) && a.effective <= a.now
    requires vs != [] ==> approvals[|vs| - 1].effective < a.effective
    ensures AllStored(After(vs, a), approvals + [a])
  {
    forall k | 0 <= k < |vs| - 1 ensures vs[k].status == Superseded {
      assert Replaced(vs[k], approvals[k], approvals[k + 1]);
    }
    assert Approve(vs, a).Approved?;
    ApprovalWrites(vs, a);
    hide Approve;
    var after, all := After(vs, a), approvals + [a];
    forall k | 0 <= k < |vs| ensures Replaced(after[k], all[k], all[k + 1]) {
      if k < |vs| - 1 { assert Replaced(vs[k], approvals[k], approvals[k + 1]); }
    }
  }

  /** Approvals that each start by their own clock and after the one before are all accepted. */
  lemma {:induction false} PromptApprovals(approvals: seq<Approval>)
    requires forall i :: 0 <= i < |approvals| ==> approvals[i].effective <= approvals[i].now
    requires forall i :: 0 <= i < |approvals| - 1 ==> approvals[i].effective < approvals[i + 1].effective
    ensures AllStored(Run(approvals), approvals)
  {
    if approvals != [] {
      var front, a := approvals[..|approvals| - 1], approvals[|approvals| - 1];
      PromptApprovals(front);
      assert |Run(front)| == |front|;
      hide AllStored, After;
      if front != [] { assert front[|front| - 1].effective < a.effective; }
      StoreOne(Run(front), front, a);
      assert approvals == front + [a];
    }
  }

  lemma ApproveKeeps(vs: seq<Version>, a: Approval, clock: Time)
    requires Inv(vs, clock) && (vs == [] || clock <= a.now)
    ensures Inv(After(vs, a), a.now)
  {
    AcceptedIff(vs, a, clock);
    if Approve(vs, a).Approved? {
      if vs == [] {
        assert After(vs, a) == [NewVersion(a)];
      } else {
        var n := |vs| - 1;
        CurrentIsLast(vs, clock);
        hide Current;
        assert After(vs, a) == vs[n := Close(vs[n], a)] + [NewVersion(a)];
        hide Approve, After;
        ExtendedChain(vs, a);
        ExtendedStatuses(vs, a, clock);
      }
    }
  }

  lemma CurrentIsLast(vs: seq<Version>, clock: Time)
    requires Statuses(vs, clock) && vs != [] && vs[|vs| - 1].status == Active
    ensures Current(vs) == Some(|vs| - 1)
  {
    hide Current;
    assert forall k :: 0 <= k < |vs| - 1 ==> vs[k].status == Superseded;
    assert Current(vs).Some?;
  }

  lemma ExtendedChain(vs: seq<Version>, a: Approval)
    requires Chain(vs) && vs != [] && vs[|vs| - 1].start < a.effective
    ensures Chain(vs[|vs| - 1 := Close(vs[|vs| - 1], a)] + [NewVersion(a)])
  {
    var n := |vs| - 1;
    var t := vs[n := Close(vs[n], a)] + [NewVersion(a)];
    assert forall i :: 0 <= i < n ==> t[i] == vs[i];
    assert forall i :: 0 <= i <= n ==> t[i].start == vs[i].start;
  }

  lemma ExtendedStatuses(vs: seq<Version>, a: Approval, clock: Time)
    requires Statuses(vs, clock) && clock <= a.now && vs != [] && vs[|vs| - 1].status == Active
    ensures Statuses(vs[|vs| - 1 := Close(vs[|vs| - 1], a)] + [NewVersion(a)], a.now)
  {
  }

  /** Any sequence of approvals under one clock keeps the chain. */
  lemma {:induction false} ChainHolds(approvals: seq<Approval>)
    requires OneClock(approvals)
    ensures Inv(Run(approvals), Clock(approvals))
  {
    if approvals != [] {
      var front := approvals[..|approvals| - 1];
      ChainHolds(front);
      if front == [] { assert Run(front) == []; }
      ApproveKeeps(Run(front), approvals[|approvals| - 1], Clock(front));
    }
  }

  predicate InForce(v: Version, t: Time) { v.start <= t && (v.end.None? || t < v.end.value) }

  /** Position of the version in force. */
  function At(vs: seq<Version>, t: Time): (i: nat)
    requires vs != [] && vs[0].start <= t
    ensures i < |vs| && vs[i].start <= t && (i + 1 < |vs| ==> t < vs[i + 1].start)
  {
    if vs[|vs| - 1].start <= t then |vs| - 1 else At(vs[..|vs| - 1], t)
  }

  /** Every instant from the first start on has exactly one version in force; none before it. */
  lemma ExactlyOneInForce(approvals: seq<Approval>, t: Time)
    requires OneClock(approvals) && Run(approvals) != []
    ensures var vs := Run(approvals);
      if t < vs[0].start then forall k :: 0 <= k < |vs| ==> !InForce(vs[k], t)
      else forall k :: 0 <= k < |vs| ==> (InForce(vs[k], t) <==> k == At(vs, t))
  {
    ChainHolds(approvals);
    var vs := Run(approvals);
    if t >= vs[0].start {
      var i := At(vs, t);
      hide Run, At;
      forall k | 0 <= k < |vs| ensures InForce(vs[k], t) <==> k == i {
        if k < i { assert vs[k + 1].start <= vs[i].start; }
      }
    }
  }

  /** Nothing activates a scheduled version, so once one exists no approval is accepted again. */
  lemma {:induction false} ScheduledIsFinal(approvals: seq<Approval>, more: seq<Approval>)
    requires OneClock(approvals + more)
    requires Run(approvals) != [] && Run(approvals)[|Run(approvals)| - 1].status == Scheduled
    ensures Run(approvals + more) == Run(approvals)
  {
    if more == [] {
      assert approvals + more == approvals;
    } else {
      var front, a := more[..|more| - 1], more[|more| - 1];
      assert (approvals + more)[..|approvals + more| - 1] == approvals + front;
      assert OneClock(approvals + front) by {
        assert forall i :: 0 <= i < |approvals + front| ==> (approvals + front)[i] == (approvals + more)[i];
      }
      ScheduledIsFinal(approvals, front);
      ChainHolds(approvals + front);
      AcceptedIff(Run(approvals + front), a, Clock(approvals + front));
    }
  }

  /** Scheduling a unit's first price: a later approval is refused even when the scheduled start has
      passed and the approval starts after it. */
  lemma ScheduledThenRefused(first: Approval, later: Approval)
    requires first.now < first.effective <= later.now && first.effective < later.effective
    ensures Run([first]) == [Version(first.id, first.effective, None, Scheduled)]
    ensures Approve(Run([first]), later).Overlap? && Run([first, later]) == Run([first])
  {
    assert [first][..0] == [] && Run([first][..0]) == [] && Current([]) == None;
    assert After([], first) == [] + [NewVersion(first)] == [NewVersion(first)];
    var vs := Run([first]);
    assert Blocks(vs[0], later.effective);
    assert [first, later][..1] == [first];
  }

  // ---------------------------------------------------------------------- POS

  /** The filter of getPublishedRetailPrice. */
  predicate Usable(v: Version, asOf: Time) { v.status != Superseded && InForce(v, asOf) }

  function Candidates(vs: seq<Version>, asOf: Time): seq<Version> {
    if vs == [] then []
    else Candidates(vs[..|vs| - 1], asOf) + if Usable(vs[|vs| - 1], asOf) then [vs[|vs| - 1]] else []
  }

  /** The first of the sort: latest start, then smallest id. */
  function Best(cs: seq<Version>): Option<Version> {
    if cs == [] then None
    else
      var b, c := Best(cs[..|cs| - 1]), cs[|cs| - 1];
      if b.None? || c.start > b.value.start || (c.start == b.value.start && c.id < b.value.id) then Some(c) else b
  }

  function PublishedRetailPrice(vs: seq<Version>, asOf: Time): Option<Version> { Best(Candidates(vs, asOf)) }

  lemma {:induction false} OnlyCandidate(vs: seq<Version>, asOf: Time, i: nat)
    requires i < |vs| && forall k :: 0 <= k < |vs| ==> (Usable(vs[k], asOf) <==> k == i)
    ensures Candidates(vs, asOf) == [vs[i]]
  {
    if i == |vs| - 1 { NoCandidate(vs[..i], asOf); } else { OnlyCandidate(vs[..|vs| - 1], asOf, i); }
  }

  lemma {:induction false} NoCandidate(vs: seq<Version>, asOf: Time)
    requires forall k :: 0 <= k < |vs| ==> !Usable(vs[k], asOf)
    ensures Candidates(vs, asOf) == []
  {
    if vs != [] { NoCandidate(vs[..|vs| - 1], asOf); }
  }

  lemma BestOfOne(v: Version)
    ensures Best([v]) == Some(v)
  {
    assert [v][..0] == [];
  }

  /** At every time the POS may resolve, also one before the last approval: it finds the version in
      force if and only if that version is not superseded, and nothing else. From the last approval
      on the version in force never is. */
  lemma PosFindsVersionInForce(approvals: seq<Approval>, asOf: Time)
    requires OneClock(approvals) && Run(approvals) != []
    ensures var vs := Run(approvals);
      && (asOf < vs[0].start ==> PublishedRetailPrice(vs, asOf) == None)
      && (vs[0].start <= asOf ==>
            PublishedRetailPrice(vs, asOf) ==
              if vs[At(vs, asOf)].status == Superseded then None else Some(vs[At(vs, asOf)]))
      && (vs[0].start <= asOf && Clock(approvals) <= asOf ==> vs[At(vs, asOf)].status != Superseded)
  {
    ChainHolds(approvals);
    ExactlyOneInForce(approvals, asOf);
    var vs := Run(approvals);
    if asOf < vs[0].start {
      NoCandidate(vs, asOf);
    } else {
      var i := At(vs, asOf);
      hide Run, At, Candidates;
      if vs[i].status == Superseded {
        NoCandidate(vs, asOf);
      } else {
        OnlyCandidate(vs, asOf, i);
        BestOfOne(vs[i]);
      }
    }
  }

  // --------------------------------------------------------------- the tables

  function VersionsOf(t: map<nat, seq<Version>>, unit: nat): seq<Version> { if unit in t then t[unit] else [] }

  /** The items of one proposal in turn, as pairs of a unit and its new version id. */
  function ApproveAll(t: map<nat, seq<Version>>, items: seq<(nat, nat)>, effective: Time, now: Time)
    : Option<map<nat, seq<Version>>>
  {
    if items == [] then Some(t)
    else
      var before := ApproveAll(t, items[..|items| - 1], effective, now);
      var (unit, id) := items[|items| - 1];
      if before.None? then None
      else
        var r := Approve(VersionsOf(before.value, unit), Approval(id, effective, now));
        if r.Overlap? then None else Some(before.value[unit := r.versions])
  }

  ghost predicate DistinctUnits(items: seq<(nat, nat)>) {
    forall i, j :: 0 <= i < j < |items| ==> items[i].0 != items[j].0
  }

  /** What one item does on its own. */
  function ItemOf(t: map<nat, seq<Version>>, item: (nat, nat), effective: Time, now: Time): Approved {
    Approve(VersionsOf(t, item.0), Approval(item.1, effective, now))
  }

  predicate OfProposal(items: seq<(nat, nat)>, unit: nat) { exists k :: 0 <= k < |items| && items[k].0 == unit }

  ghost predicate AllApproved(t: map<nat, seq<Version>>, items: seq<(nat, nat)>, effective: Time, now: Time) {
    forall k :: 0 <= k < |items| ==> ItemOf(t, items[k], effective, now).Approved?
  }

  /** Every unit of the proposal has what its item gave it, all others are as before. */
  ghost predicate ItemsStored(t: map<nat, seq<Version>>, r: map<nat, seq<Version>>, items: seq<(nat, nat)>,
                              effective: Time, now: Time)
  {
    && (forall k :: 0 <= k < |items| ==> items[k].0 in r && ItemStored(t, r[items[k].0], items[k], effective, now))
    && (forall u :: !OfProposal(items, u) ==> (u in r <==> u in t) && VersionsOf(r, u) == VersionsOf(t, u))
  }

  predicate ItemStored(t: map<nat, seq<Version>>, vs: seq<Version>, item: (nat, nat), effective: Time, now: Time) {
    ItemOf(t, item, effective, now) == Approved(vs)
  }

  lemma StoreItem(t: map<nat, seq<Version>>, r: map<nat, seq<Version>>, items: seq<(nat, nat)>, item: (nat, nat),
                  vs: seq<Version>, effective: Time, now: Time)
    requires ItemsStored(t, r, items, effective, now) && !OfProposal(items, item.0)
    requires ItemOf(t, item, effective, now) == Approved(vs)
    ensures ItemsStored(t, r[item.0 := vs], items + [item], effective, now)
  {
    hide ItemOf;
    var all, after := items + [item], r[item.0 := vs];
    forall k | 0 <= k < |all| ensures all[k].0 in after && ItemStored(t, after[all[k].0], all[k], effective, now) {
      if k < |items| { assert items[k].0 in r && ItemStored(t, r[items[k].0], items[k], effective, now); }
    }
    assert all[|items|].0 == item.0 && OfProposal(all, item.0);
    forall u | OfProposal(items, u) ensures OfProposal(all, u) {
      var k :| 0 <= k < |items| && items[k].0 == u;
      assert all[k].0 == u;
    }
  }

  /** A proposal over distinct units is approved if and only if each of its items is on its own, and gives
      every unit of it what its item gives; all other units stay as they were. */
  lemma {:induction false} ProposalIff(t: map<nat, seq<Version>>, items: seq<(nat, nat)>, effective: Time, now: Time)
    requires DistinctUnits(items)
    ensures var r := ApproveAll(t, items, effective, now);
      && (r.Some? <==> AllApproved(t, items, effective, now))
      && (r.Some? ==> ItemsStored(t, r.value, items, effective, now))
  {
    hide Approve, ItemsStored, AllApproved;
    if items == [] {
      NoItems(t, effective, now);
    } else {
      var n := |items| - 1;
      var front, item := items[..n], items[n];
      assert items == front + [item];
      ProposalIff(t, front, effective, now);
      LastItem(t, front, item, effective, now);
      assert !OfProposal(front, item.0);
      var before := ApproveAll(t, front, effective, now);
      if before.Some? {
        OthersStay(t, before.value, front, item.0, effective, now);
        var r := ItemOf(t, item, effective, now);
        if r.Approved? { StoreItem(t, before.value, front, item, r.versions, effective, now); }
      }
    }
  }

  lemma NoItems(t: map<nat, seq<Version>>, effective: Time, now: Time)
    ensures AllApproved(t, [], effective, now) && ItemsStored(t, t, [], effective, now)
  {
  }

  lemma LastItem(t: map<nat, seq<Version>>, items: seq<(nat, nat)>, item: (nat, nat), effective: Time, now: Time)
    ensures AllApproved(t, items + [item], effective, now) <==>
            AllApproved(t, items, effective, now) && ItemOf(t, item, effective, now).Approved?
  {
    hide ItemOf;
    var all := items + [item];
    assert all[|items|] == item && forall k :: 0 <= k < |items| ==> all[k] == items[k];
  }

  lemma OthersStay(t: map<nat, seq<Version>>, r: map<nat, seq<Version>>, items: seq<(nat, nat)>, unit: nat,
                   effective: Time, now: Time)
    requires ItemsStored(t, r, items, effective, now) && !OfProposal(items, unit)
    ensures VersionsOf(r, unit) == VersionsOf(t, unit)
  {
  }

  /** One refused item refuses the whole proposal. */
  lemma {:induction false} StaysRefused(t: map<nat, seq<Version>>, items: seq<(nat, nat)>, k: nat,
      effective: Time, now: Time)
    requires k <= |items| && ApproveAll(t, items[..k], effective, now).None?
    ensures ApproveAll(t, items, effective, now).None?
  {
    if k == |items| {
      assert items[..k] == items;
    } else {
      assert items[..|items| - 1][..k] == items[..k];
      StaysRefused(t, items[..|items| - 1], k, effective, now);
    }
  }

  /** A proposal keeps every unit's chain. */
  lemma {:induction false} ProposalKeepsChains(t: map<nat, seq<Version>>, items: seq<(nat, nat)>,
      effective: Time, now: Time)
    requires forall u :: u in t ==> exists c :: c <= now && Inv(t[u], c)
    ensures var r := ApproveAll(t, items, effective, now);
      r.Some? ==> forall u :: u in r.value ==> exists c :: c <= now && Inv(r.value[u], c)
  {
    if items != [] {
      var front := items[..|items| - 1];
      ProposalKeepsChains(t, front, effective, now);
      var before := ApproveAll(t, front, effective, now);
      if before.Some? {
        var (unit, id) := items[|items| - 1];
        var vs, a := VersionsOf(before.value, unit), Approval(id, effective, now);
        if unit in before.value {
          var c :| c <= now && Inv(before.value[unit], c);
          ApproveKeeps(vs, a, c);
        } else {
          ApproveKeeps(vs, a, now);
        }
      }
    }
  }

  /** pricing.price_versions by product unit; one approval covers several units. */
  class PriceTables {
    var timelines: map<nat, seq<Version>>

    constructor ()
      ensures timelines == map[]
    {
      timelines := map[];
    }

    /** approvePriceProposalCommand: all of its items, or none. */
    method ApprovePriceProposal(items: seq<(nat, nat)>, effective: Time, now: Time) returns (ok: bool)
      modifies this
      ensures ok <==> ApproveAll(old(timelines), items, effective, now).Some?
      ensures ok ==> timelines == ApproveAll(old(timelines), items, effective, now).value
      ensures !ok ==> timelines == old(timelines)
    {
      var before := timelines;
      for k := 0 to |items|
        invariant before == old(timelines) && Some(timelines) == ApproveAll(before, items[..k], effective, now)
      {
        var (unit, id) := items[k];
        assert items[..k + 1][..k] == items[..k];
        var r := Approve(VersionsOf(timelines, unit), Approval(id, effective, now));
        if r.Overlap? {
          StaysRefused(before, items, k + 1, effective, now);
          timelines := before;
          return false;
        }
        timelines := timelines[unit := r.versions];
      }
      assert items[..|items|] == items;
      return true;
    }
  }
}
