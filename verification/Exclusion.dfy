/**
 * Leases over whole runs: how one is lost, when two claimers share a resource, and what a timed-out
 * or cancelled operation blocks.
 */
module Exclusion {
  import opened Results
  import opened Rbac
  import opened Tables
  import opened Engine
  import opened Worker
  import opened Invariants
  import opened Protocol
  import opened Runs

  ghost predicate Holds(t: Tables, id: string) {
    id in t.operations && HoldsLease(t, id, t.operations[id].spec.resource, t.operations[id].worker)
  }

  /** Whoever claimed and has not reported still holds the lease. */
  ghost predicate Exclusive(s: State) {
    forall id :: id in s.inFlight ==> Holds(s.t, id)
  }

  /** A reconciliation that releases the lease of an operation whose worker has not reported. */
  ghost predicate Disturbs(s: State, step: Step) {
    && step.StepReconcile? && MayReconcile(step.w, step.p, step.resource, step.confirmed, step.reason)
    && Releasable(s.t, step.resource, step.now) && s.t.leases[step.resource].operation in s.inFlight
  }

  /** The step takes the lease on a resource away from the operation that holds it. */
  ghost predicate TakesLease(s: State, step: Step, id: string)
    requires id in s.t.operations
  {
    || (step.StepFinish? && step.id == id && id in s.inFlight && Outcome(step.outcome) && !step.outcome.TimedOut?)
    || (step.StepReconcile? && step.resource == s.t.operations[id].spec.resource
        && MayReconcile(step.w, step.p, step.resource, step.confirmed, step.reason)
        && Releasable(s.t, step.resource, step.now))
  }

  /** A lease is lost in exactly two ways: its holder reports an outcome that is not a timeout, or it is reconciled. */
  lemma {:induction false} LeaseStays(s: State, step: Step, id: string)
    requires Inv(s) && Holds(s.t, id)
    ensures Holds(Apply(s, step).t, id) <==> !TakesLease(s, step, id)
  {
    var n := Apply(s, step);
    StepKeeps(s, step);
    assert Forward(s.t.operations[id], n.t.operations[id]);
    LeaseRows(s, step, id);
  }

  lemma {:induction false} LeaseRows(s: State, step: Step, id: string)
    requires Holds(s.t, id)
    ensures var r := s.t.operations[id].spec.resource;
            var n := Apply(s, step).t.leases;
            if TakesLease(s, step, id) then r !in n
            else r in n && n[r].operation == id && n[r].worker == s.t.operations[id].worker
  {
    hide Apply, TakesLease, Holds;
    match step
    case StepClaim(id', worker, locked, now) => TakenLeases(s, step, id);
    case StepRenew(id', now) => RenewedLeases(s, step, id);
    case StepClear(id', w, now) => RenewedLeases(s, step, id);
    case StepFinish(id', outcome, now) => ReportLeases(s, step, id);
    case StepReconcile(w, p, resource, confirmed, reason, now) => ReconcileLeases(s, step, id);
    case _ => UntouchedLeases(s, step, id);
  }

  lemma {:induction false} UntouchedLeases(s: State, step: Step, id: string)
    requires !step.StepClaim? && !step.StepRenew? && !step.StepClear? && !step.StepFinish? && !step.StepReconcile?
        && Holds(s.t, id)
    ensures !TakesLease(s, step, id)
    ensures var r := s.t.operations[id].spec.resource;
            var n := Apply(s, step).t.leases;
            r in n && n[r].operation == id && n[r].worker == s.t.operations[id].worker
  {
    hide Apply;
    OtherLeases(s, step);
  }

  lemma {:induction false} TakenLeases(s: State, step: Step, id: string)
    requires step.StepClaim? && Holds(s.t, id)
    ensures !TakesLease(s, step, id)
    ensures var r := s.t.operations[id].spec.resource;
            var n := Apply(s, step).t.leases;
            r in n && n[r].operation == id && n[r].worker == s.t.operations[id].worker
  {
    hide Claimable, Submit, Approve, Cancel, Protocol.Open, SubmitNext, AbortBatch, PublishBatch, Recover, MayReconcile,
        AfterSubmit;
    ClaimNeedsNoLease(s.t, step.locked, step.id);
  }

  lemma {:induction false} RenewedLeases(s: State, step: Step, id: string)
    requires (step.StepRenew? || step.StepClear?) && Holds(s.t, id)
    ensures !TakesLease(s, step, id)
    ensures var r := s.t.operations[id].spec.resource;
            var n := Apply(s, step).t.leases;
            r in n && n[r].operation == id && n[r].worker == s.t.operations[id].worker
  {
    RenewLeases(s, step.id, step.now, id);
    hide Gate, RenewOf, Claimable, Claim, Finish, Release, Submit, Approve, Cancel, Protocol.Open, SubmitNext,
        AbortBatch, PublishBatch, Recover, MayReconcile, AfterSubmit;
  }

  lemma {:induction false} RenewLeases(s: State, other: string, now: int, id: string)
    requires Holds(s.t, id)
    ensures other in s.t.operations ==>
              var n := RenewOf(s.t, other, now).0.leases;
              var r := s.t.operations[id].spec.resource;
              r in n && n[r].operation == id && n[r].worker == s.t.operations[id].worker
  {}

  lemma {:induction false} ReportLeases(s: State, step: Step, id: string)
    requires step.StepFinish? && Holds(s.t, id)
    ensures var r := s.t.operations[id].spec.resource;
            var n := Apply(s, step).t.leases;
            if TakesLease(s, step, id) then r !in n
            else r in n && n[r].operation == id && n[r].worker == s.t.operations[id].worker
  {
    hide Claimable, Claim, RenewOf, Clears, Release, Submit, Approve, Cancel, Protocol.Open, SubmitNext, AbortBatch,
        PublishBatch, Recover, MayReconcile, AfterSubmit;
  }

  lemma {:induction false} ReconcileLeases(s: State, step: Step, id: string)
    requires step.StepReconcile? && Holds(s.t, id)
    ensures var r := s.t.operations[id].spec.resource;
            var n := Apply(s, step).t.leases;
            if TakesLease(s, step, id) then r !in n
            else r in n && n[r].operation == id && n[r].worker == s.t.operations[id].worker
  {
    hide Claimable, Claim, RenewOf, Clears, Finish, Submit, Approve, Cancel, Protocol.Open, SubmitNext, AbortBatch,
        PublishBatch, Recover, MayReconcile, AfterSubmit;
  }

  /** The steps of requesters and of recovery touch no lease. */
  lemma {:induction false} OtherLeases(s: State, step: Step)
    requires !step.StepClaim? && !step.StepRenew? && !step.StepClear? && !step.StepFinish? && !step.StepReconcile?
    ensures Apply(s, step).t.leases == s.t.leases
  {
    hide Submit, Approve, Cancel, BatchObjection, Recover, AbortBatch, Item, AfterSubmit, Claimable, RenewOf, Clears,
        Finish, MayReconcile, Release;
    match step
    case StepSubmit(w, p, req, id, now) =>
      var alone := req.(batch := None, index := 0);
      SubmitLeases(s.t, w, p, alone, id, now);
      AfterSubmitFrame(s, Submit(s.t, w, p, alone, id, now).0, id, Origin(w, p, alone));
    case StepApprove(p, id, approve, reason, now) => ApproveLeases(s.t, p, id, approve, reason, now);
    case StepCancel(p, id, now) => CancelLeases(s.t, p, id, now);
    case StepSubmitNext(call, w, id, now) =>
      if call in s.calls && s.calls[call].next < |s.calls[call].request.ids| {
        var c := s.calls[call];
        var item := Item(c.template, c.batch, c.request, c.next);
        SubmitLeases(s.t, w, c.principal, item, id, now);
        AfterSubmitFrame(s, Submit(s.t, w, c.principal, item, id, now).0, id, Origin(w, c.principal, item));
      }
    case StepAbortBatch(call, now) => if call in s.calls { AbortLeases(s.t, s.calls[call].batch, now); }
    case StepRecover(now) => RecoverLeases(s.t, now);
    case _ =>
  }

  lemma {:induction false} ApproveLeases(t: Tables, p: Principal, id: string, approve: bool, reason: string, now: int)
    ensures Approve(t, p, id, approve, reason, now).0.leases == t.leases
  {
    hide Allowed;
  }

  lemma {:induction false} CancelLeases(t: Tables, p: Principal, id: string, now: int)
    ensures Cancel(t, p, id, now).0.leases == t.leases
  {
    hide Allowed;
  }

  lemma {:induction false} RecoverLeases(t: Tables, now: int)
    ensures Recover(t, now).leases == t.leases
  {}

  lemma {:induction false} AbortLeases(t: Tables, b: BatchId, now: int)
    ensures AbortBatch(t, b, now).leases == t.leases
  {}

  lemma {:induction false} ClaimNeedsNoLease(t: Tables, locked: set<string>, id: string)
    ensures Claimable(t, locked, id) ==> id in t.operations && t.operations[id].spec.resource !in t.leases
  {}

  lemma {:induction false} SubmitLeases(t: Tables, w: World, p: Principal, req: Request, id: string, now: int)
    ensures Submit(t, w, p, req, id, now).0.leases == t.leases
  {
    hide Admit;
  }

  /** Exclusion survives every step but a disturbing reconciliation, and that one always breaks it. */
  lemma {:induction false} ExclusionStep(s: State, step: Step)
    requires Inv(s) && Exclusive(s)
    ensures Exclusive(Apply(s, step)) <==> !Disturbs(s, step)
  {
    hide Inv, Apply, Claimable, MayReconcile, Outcome;
    var n := Apply(s, step);
    forall id | id in s.inFlight ensures id in s.t.operations && (Holds(n.t, id) <==> !TakesLease(s, step, id)) {
      LeaseStays(s, step, id);
    }
    NewFlights(s, step);
    if Disturbs(s, step) {
      var id := s.t.leases[step.resource].operation;
      LeaseIsFrom(s, step.resource);
      assert TakesLease(s, step, id);
    }
  }

  /** Work takes off only by a claim, which takes the lease, and lands exactly by reporting. */
  lemma {:induction false} NewFlights(s: State, step: Step)
    ensures var n := Apply(s, step);
            && (forall id :: id in n.inFlight && id !in s.inFlight ==>
                  step.StepClaim? && step.id == id && Claimable(s.t, step.locked, id) && Holds(n.t, id))
            && (forall id :: id in s.inFlight && id in s.t.operations ==> (id in n.inFlight <==> !Reports(step, id)))
  {
    hide MayReconcile, Submit, Approve, Cancel, BatchObjection, Gate, BatchAdmits, Recover, AbortBatch, PublishBatch,
        Renew, Finish, Release;
  }

  // ------------------------------------------------------------------ spans

  /** The claimer of an operation reports how it ended. */
  ghost predicate Reports(step: Step, id: string) {
    step.StepFinish? && step.id == id && Outcome(step.outcome)
  }

  /** No step of [i, j) reports the operation. */
  ghost predicate Silent(steps: seq<Step>, i: nat, j: nat, id: string)
    requires j <= |steps|
  {
    forall k :: i <= k < j ==> !Reports(steps[k], id)
  }

  /** The step releases the lease of an operation whose worker has not reported. */
  ghost predicate Displaces(s: State, step: Step, id: string) {
    Disturbs(s, step) && s.t.leases[step.resource].operation == id
  }

  /** What is in flight was claimed, and has not reported since. */
  lemma {:induction false} TookOff(steps: seq<Step>, n: nat, id: string) returns (i: nat)
    requires n <= |steps| && id in At(steps, n).inFlight
    ensures i < n && ClaimsAt(steps, i, id) && Silent(steps, i + 1, n, id)
    decreases n
  {
    hide Inv, Apply, Run, Claimable, Grows, NobodyJoins, Reports, Holds;
    if n == 0 {
      StartsEmpty(steps);
      assert false;
    } else {
      OneStep(steps, n - 1);
      NewFlights(At(steps, n - 1), steps[n - 1]);
      if id in At(steps, n - 1).inFlight {
        FlightHasRow(At(steps, n - 1), id);
        i := TookOff(steps, n - 1, id);
      } else {
        i := n - 1;
      }
    }
  }

  lemma {:induction false} FlightHasRow(s: State, id: string)
    requires Inv(s) && id in s.inFlight
    ensures id in s.t.operations && Started(s.t.operations[id])
  {
    hide TablesInv, Gate, OriginOk, ApprovedBy, CallOk;
  }

  lemma {:induction false} StaysInFlight(steps: seq<Step>, i: nat, j: nat, id: string)
    requires i <= j <= |steps| && id in At(steps, i).inFlight && Silent(steps, i, j, id)
    ensures id in At(steps, j).inFlight
    decreases j
  {
    hide Inv, Apply, Run, Claimable, Grows, NobodyJoins, Reports, Holds;
    if i < j {
      StaysInFlight(steps, i, j - 1, id);
      OneStep(steps, j - 1);
      FlightHasRow(At(steps, j - 1), id);
      NewFlights(At(steps, j - 1), steps[j - 1]);
    }
  }

  /** A span lasts from the claim to the report: an operation is in flight exactly while nothing reported it. */
  lemma {:induction false} SpanIsSilence(steps: seq<Step>, i: nat, j: nat, id: string)
    requires i < j <= |steps| && ClaimsAt(steps, i, id)
    ensures id in At(steps, j).inFlight <==> Silent(steps, i + 1, j, id)
  {
    hide Inv, Apply, Run, Claimable, Grows, NobodyJoins, Reports;
    OneStep(steps, i);
    ClaimStarts(At(steps, i), steps[i]);
    if Silent(steps, i + 1, j, id) {
      StaysInFlight(steps, i + 1, j, id);
    }
    if id in At(steps, j).inFlight {
      var k := TookOff(steps, j, id);
      ClaimedAtMostOnce(steps, i, k, id);
    }
  }

  /** A lease that is gone was taken by some step. */
  lemma {:induction false} LeaseLost(steps: seq<Step>, i: nat, j: nat, id: string) returns (k: nat)
    requires i <= j <= |steps| && Holds(At(steps, i).t, id) && !Holds(At(steps, j).t, id)
    ensures i <= k < j && Holds(At(steps, k).t, id) && TakesLease(At(steps, k), steps[k], id)
    decreases j
  {
    hide Inv, Apply, Run, Grows, NobodyJoins, TakesLease, HoldsLease;
    if Holds(At(steps, j - 1).t, id) {
      k := j - 1;
      OneStep(steps, k);
      LeaseStays(At(steps, k), steps[k], id);
    } else {
      k := LeaseLost(steps, i, j - 1, id);
    }
  }

  lemma {:induction false} ClaimHolds(s: State, step: Step)
    requires step.StepClaim? && Claimable(s.t, step.locked, step.id)
    ensures Holds(Apply(s, step).t, step.id)
    ensures Apply(s, step).t.operations[step.id].spec == s.t.operations[step.id].spec
  {
    hide BatchAdmits;
  }

  /** A lease taken from an operation that does not report was released by reconciliation. */
  lemma {:induction false} TakenIsDisplaced(s: State, step: Step, id: string)
    requires Holds(s.t, id) && id in s.inFlight && TakesLease(s, step, id) && !Reports(step, id)
    ensures Displaces(s, step, id)
  {
    hide MayReconcile;
  }

  /**
   * When two spans on one resource overlap, in any run whatever: at a second claim the first claimer
   * has yet to report if and only if its lease was released by reconciliation before, and it has not
   * reported since.
   */
  lemma {:induction false} OverlapExactly(steps: seq<Step>, i: nat, j: nat, first: string, second: string)
    requires i < j < |steps| && ClaimsAt(steps, i, first) && ClaimsAt(steps, j, second)
    requires At(steps, i).t.operations[first].spec.resource == At(steps, j).t.operations[second].spec.resource
    ensures first != second
    ensures first in At(steps, j).inFlight <==>
              exists k :: i < k < j && Displaces(At(steps, k), steps[k], first) && Silent(steps, k, j, first)
  {
    hide Inv, Apply, Run, Claimable, Grows, NobodyJoins, Reports, Holds, TakesLease, Displaces;
    if first == second {
      ClaimedBefore(steps, i, j, first);
    }
    if k :| i < k < j && Displaces(At(steps, k), steps[k], first) && Silent(steps, k, j, first) {
      assert first in At(steps, k).inFlight by { DisplacedWasInFlight(At(steps, k), steps[k], first); }
      StaysInFlight(steps, k, j, first);
    }
    if first in At(steps, j).inFlight {
      SpanIsSilence(steps, i, j, first);
      OneStep(steps, i);
      ClaimHolds(At(steps, i), steps[i]);
      assert !Holds(At(steps, j).t, first) by { ResourceIsFree(steps, i, j, first, second); }
      var k := LeaseLost(steps, i + 1, j, first);
      SpanIsSilence(steps, i, k, first);
      assert Silent(steps, i + 1, k, first) && Silent(steps, k, j, first);
      TakenIsDisplaced(At(steps, k), steps[k], first);
    }
  }

  lemma {:induction false} DisplacedWasInFlight(s: State, step: Step, id: string)
    requires Displaces(s, step, id)
    ensures step.StepReconcile? && id in s.inFlight && step.resource in s.t.leases
        && s.t.leases[step.resource].operation == id
  {
    hide MayReconcile;
  }

  /** A claim finds no lease on its resource, so no earlier claimer there holds one. */
  lemma {:induction false} ResourceIsFree(steps: seq<Step>, i: nat, j: nat, first: string, second: string)
    requires i < j < |steps| && ClaimsAt(steps, i, first) && ClaimsAt(steps, j, second)
    requires At(steps, i).t.operations[first].spec.resource == At(steps, j).t.operations[second].spec.resource
    ensures !Holds(At(steps, j).t, first)
  {
    hide Inv, Apply, Run, Claimable, Grows, NobodyJoins;
    ClaimNeedsNoLease(At(steps, i).t, steps[i].locked, first);
    ClaimNeedsNoLease(At(steps, j).t, steps[j].locked, second);
    RowsMoveForward(steps, i, j, first);
  }

  /**
   * Exclusion: between two claims on one resource the first claimer has reported, unless its own
   * lease was released by reconciliation before it did. Clocks may jump, renewals may be missed,
   * recovery and cancellation may strike at any moment and reports may come late.
   */
  lemma {:induction false} SpansDoNotOverlap(steps: seq<Step>, i: nat, j: nat, first: string, second: string)
    requires i < j < |steps| && ClaimsAt(steps, i, first) && ClaimsAt(steps, j, second)
    requires At(steps, i).t.operations[first].spec.resource == At(steps, j).t.operations[second].spec.resource
    requires forall k :: i < k < j ==> !Displaces(At(steps, k), steps[k], first)
    ensures first != second
    ensures exists k :: i < k < j && Reports(steps[k], first)
  {
    hide Inv, Run, Claimable, Displaces, Reports;
    OverlapExactly(steps, i, j, first, second);
    SpanIsSilence(steps, i, j, first);
  }

  /** x is claimed, loses its lease to reconciliation, y is claimed, and neither has reported. */
  ghost predicate Overtaken(steps: seq<Step>, x: string, y: string) {
    exists i, k, j :: 0 <= i < k < j < |steps| && OvertakenAt(steps, i, k, j, x, y)
  }

  ghost predicate OvertakenAt(steps: seq<Step>, i: nat, k: nat, j: nat, x: string, y: string)
    requires i < k < j < |steps|
  {
    && ClaimsAt(steps, i, x) && Displaces(At(steps, k), steps[k], x) && ClaimsAt(steps, j, y)
    && Silent(steps, k, |steps|, x) && Silent(steps, j + 1, |steps|, y)
  }

  /**
   * Two operations on one resource are in flight at once if and only if one overtook the other after
   * such a release.
   */
  lemma {:induction false} SharedResource(steps: seq<Step>, x: string, y: string)
    requires x in Run(steps).t.operations && y in Run(steps).t.operations && x != y
    requires Run(steps).t.operations[x].spec.resource == Run(steps).t.operations[y].spec.resource
    ensures x in Run(steps).inFlight && y in Run(steps).inFlight <==> Overtaken(steps, x, y) || Overtaken(steps, y, x)
  {
    hide Inv, Apply, Run, Claimable, Displaces, Reports, OvertakenAt, ClaimsAt;
    assert steps[..|steps|] == steps;
    if x in Run(steps).inFlight && y in Run(steps).inFlight {
      var i := TookOff(steps, |steps|, x);
      var j := TookOff(steps, |steps|, y);
      if i < j {
        Overtakes(steps, i, j, x, y);
      } else if j < i {
        Overtakes(steps, j, i, y, x);
      } else {
        OneClaimPerStep(steps, i, x, y);
      }
    }
    if Overtaken(steps, x, y) {
      OvertakenBothFly(steps, x, y);
    }
    if Overtaken(steps, y, x) {
      OvertakenBothFly(steps, y, x);
    }
  }

  lemma {:induction false} OneClaimPerStep(steps: seq<Step>, i: nat, x: string, y: string)
    requires i < |steps| && ClaimsAt(steps, i, x) && ClaimsAt(steps, i, y)
    ensures x == y
  {}

  lemma {:induction false} Overtakes(steps: seq<Step>, i: nat, j: nat, x: string, y: string)
    requires i < j < |steps| && ClaimsAt(steps, i, x) && ClaimsAt(steps, j, y)
    requires Silent(steps, i + 1, |steps|, x) && Silent(steps, j + 1, |steps|, y)
    requires x in Run(steps).t.operations && y in Run(steps).t.operations
    requires Run(steps).t.operations[x].spec.resource == Run(steps).t.operations[y].spec.resource
    ensures Overtaken(steps, x, y)
  {
    hide Inv, Apply, Run, Claimable, Displaces, Reports;
    assert steps[..|steps|] == steps;
    ClaimNeedsNoLease(At(steps, i).t, steps[i].locked, x);
    ClaimNeedsNoLease(At(steps, j).t, steps[j].locked, y);
    RowsMoveForward(steps, i, |steps|, x);
    RowsMoveForward(steps, j, |steps|, y);
    SpanIsSilence(steps, i, j, x);
    OverlapExactly(steps, i, j, x, y);
    var k :| i < k < j && Displaces(At(steps, k), steps[k], x) && Silent(steps, k, j, x);
    assert OvertakenAt(steps, i, k, j, x, y);
  }

  lemma {:induction false} OvertakenBothFly(steps: seq<Step>, x: string, y: string)
    requires Overtaken(steps, x, y)
    ensures x in Run(steps).inFlight && y in Run(steps).inFlight
  {
    hide Inv, Apply, Run, Claimable, Displaces, Reports;
    assert steps[..|steps|] == steps;
    var i: nat, k: nat, j: nat :| i < k < j < |steps| && OvertakenAt(steps, i, k, j, x, y);
    DisplacedWasInFlight(At(steps, k), steps[k], x);
    StaysInFlight(steps, k, |steps|, x);
    SpanIsSilence(steps, j, |steps|, y);
  }

  /** At most one claimer per resource has yet to report, while no reconciliation of that resource displaced one. */
  lemma {:induction false} OneInFlight(steps: seq<Step>, x: string, y: string)
    requires x in Run(steps).inFlight && x in Run(steps).t.operations && y in Run(steps).inFlight
        && y in Run(steps).t.operations
    requires Run(steps).t.operations[x].spec.resource == Run(steps).t.operations[y].spec.resource
    requires forall k :: 0 <= k < |steps| && Disturbs(At(steps, k), steps[k]) ==>
        steps[k].resource != Run(steps).t.operations[x].spec.resource
    ensures x == y
  {
    hide Inv, Apply, Run, Claimable, Reports, Disturbs, ClaimsAt;
    if x != y {
      SharedResource(steps, x, y);
      if Overtaken(steps, x, y) {
        DisplacementIsOnResource(steps, x, y);
      } else {
        DisplacementIsOnResource(steps, y, x);
      }
    }
  }

  lemma {:induction false} DisplacementIsOnResource(steps: seq<Step>, x: string, y: string)
    requires Overtaken(steps, x, y)
    ensures x in Run(steps).t.operations
    ensures exists k :: 0 <= k < |steps| && Disturbs(At(steps, k), steps[k]) &&
              steps[k].resource == Run(steps).t.operations[x].spec.resource
  {
    hide Inv, Apply, Run, Claimable, Reports, Disturbs;
    assert steps[..|steps|] == steps;
    var i: nat, k: nat, j: nat :| i < k < j < |steps| && OvertakenAt(steps, i, k, j, x, y);
    OneStep(steps, k);
    DisplacedWasInFlight(At(steps, k), steps[k], x);
    LeaseIsFrom(At(steps, k), steps[k].resource);
    RowsMoveForward(steps, k, |steps|, x);
  }
  /** Only an enabled administrator can release the lease of an unreported claimer. */
  lemma {:induction false} AdministratorsDisturb(s: State, step: Step)
    requires Disturbs(s, step)
    ensures step.p.user.enabled && step.p.user.role == "ADMIN"
  {
    hide Allowed;
    WhoReconciles(step.p, step.w.hosts[step.w.resources[step.resource].hostId].environment);
  }

  /** A disturbing reconciliation followed by a claim on the resource leaves two claimers unreported. */
  lemma {:induction false} DisturbanceAdmitsOverlap(s: State, reconcile: Step, claim: Step)
    requires Inv(s) && Disturbs(s, reconcile)
    requires var n := Apply(s, reconcile);
             claim.StepClaim? && Claimable(n.t, claim.locked, claim.id)
                 && n.t.operations[claim.id].spec.resource == reconcile.resource
    ensures var m := Apply(Apply(s, reconcile), claim);
            var x := s.t.leases[reconcile.resource].operation;
            && reconcile.p.user.enabled && reconcile.p.user.role == "ADMIN"
            && x != claim.id && x in m.inFlight && claim.id in m.inFlight
            && x in m.t.operations && claim.id in m.t.operations
            && m.t.operations[x].spec.resource == m.t.operations[claim.id].spec.resource
  {
    hide Inv, Apply, Claimable, MayReconcile, Grows, NobodyJoins;
    AdministratorsDisturb(s, reconcile);
    var x := s.t.leases[reconcile.resource].operation;
    LeaseIsFrom(s, reconcile.resource);
    StepKeeps(s, reconcile);
    ReconcileFrame(s, reconcile);
    NotYetStarted(Apply(s, reconcile), claim.locked, claim.id);
    ClaimFrame(Apply(s, reconcile), claim, x);
  }

  lemma {:induction false} LeaseIsFrom(s: State, resource: string)
    requires Inv(s) && resource in s.t.leases
    ensures var x := s.t.leases[resource].operation;
            x in s.t.operations && Started(s.t.operations[x]) && s.t.operations[x].spec.resource == resource
  {
    assert LeaseOrigin(s.t);
  }

  lemma {:induction false} ReconcileFrame(s: State, step: Step)
    requires step.StepReconcile?
    ensures Apply(s, step).t.operations == s.t.operations && Apply(s, step).inFlight == s.inFlight
  {
    hide MayReconcile;
  }

  lemma {:induction false} ClaimFrame(s: State, step: Step, x: string)
    requires step.StepClaim? && Claimable(s.t, step.locked, step.id) && x in s.inFlight && x in s.t.operations
        && x != step.id
    ensures var n := Apply(s, step);
            && x in n.inFlight && step.id in n.inFlight && x in n.t.operations && step.id in n.t.operations
            && n.t.operations[x].spec == s.t.operations[x].spec
            && n.t.operations[step.id].spec == s.t.operations[step.id].spec
  {
    hide BatchAdmits;
  }

  // ------------------------------------------------------------------ quarantine

  /** A running operation that is timed out or cancelled keeps its lease. */
  lemma {:induction false} QuarantineBegins(s: State, step: Step, id: string)
    requires Inv(s) && id in s.t.operations && s.t.operations[id].state.Running?
    requires id in Apply(s, step).t.operations
    requires var state := Apply(s, step).t.operations[id].state; state.TimedOut? || state.Cancelled?
    ensures Holds(Apply(s, step).t, id)
  {
    hide Inv, Apply, TakesLease, Holds, LeaseOf;
    RunningHolds(s, id);
    LeaseStays(s, step, id);
    if TakesLease(s, step, id) {
      TakingReports(s, step, id);
    }
  }

  lemma {:induction false} RunningHolds(s: State, id: string)
    requires Inv(s) && id in s.t.operations && s.t.operations[id].state.Running?
    ensures LeaseOf(s.t, id) && Holds(s.t, id)
  {
    hide Rest, UniqueKeys, Rows, LeaseOrigin, BatchRows, Members, Rolling, Radius, StartAudit;
  }

  lemma {:induction false} TakingReports(s: State, step: Step, id: string)
    requires id in s.t.operations && s.t.operations[id].state.Running? && TakesLease(s, step, id)
    requires LeaseOf(s.t, id)
    ensures var n := Apply(s, step).t;
            id in n.operations && !n.operations[id].state.TimedOut? && !n.operations[id].state.Cancelled?
  {
    hide Claimable, Claim, RenewOf, Clears, Submit, Approve, Cancel, Protocol.Open, SubmitNext, AbortBatch,
        PublishBatch, Recover, MayReconcile, AfterSubmit;
  }

  lemma {:induction false} LeaseBlocks(t: Tables, id: string, locked: set<string>, other: string)
    requires Holds(t, id)
    ensures id in t.operations && (Claimable(t, locked, other) ==>
        t.operations[other].spec.resource != t.operations[id].spec.resource)
  {
    hide BatchAdmits;
  }

  /**
   * Quarantine: from the moment a running operation is timed out or cancelled, nothing on its
   * resource is claimed until its lease is reconciled or its own claimer reports, late, an outcome
   * that is not a timeout.
   */
  lemma {:induction false} Quarantine(steps: seq<Step>, i: nat, j: nat, id: string)
    requires i < j <= |steps| && id in At(steps, i).t.operations && At(steps, i).t.operations[id].state.Running?
    requires id in At(steps, i + 1).t.operations
    requires var state := At(steps, i + 1).t.operations[id].state; state.TimedOut? || state.Cancelled?
    requires forall k :: i < k < j && id in At(steps, k).t.operations ==> !TakesLease(At(steps, k), steps[k], id)
    ensures Holds(At(steps, j).t, id)
    ensures forall k, other :: i < k < j && ClaimsAt(steps, k, other) ==>
              At(steps, k).t.operations[other].spec.resource != At(steps, i).t.operations[id].spec.resource
    decreases j
  {
    hide Inv, Apply, Run, Claimable, TakesLease, Grows, NobodyJoins, Holds;
    OneStep(steps, i);
    if j == i + 1 {
      QuarantineBegins(At(steps, i), steps[i], id);
    } else {
      Quarantine(steps, i, j - 1, id);
      OneStep(steps, j - 1);
      LeaseStays(At(steps, j - 1), steps[j - 1], id);
      RowsMoveForward(steps, i, j - 1, id);
      if steps[j - 1].StepClaim? {
        LeaseBlocks(At(steps, j - 1).t, id, steps[j - 1].locked, steps[j - 1].id);
      }
    }
  }
}
