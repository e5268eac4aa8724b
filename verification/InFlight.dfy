/**
 * The rows behind the work in progress: what state a row can be in while its claimer has not
 * reported, what that means for rolling batches, and for the moment the adapter is called.
 */
module InFlight {
  import opened Results
  import opened Rbac
  import opened Tables
  import opened Engine
  import opened Worker
  import opened Invariants
  import opened Protocol
  import opened Runs
  import opened Exclusion

  /** How the state of a row changes in one step. */
  ghost predicate Move(s: State, step: Step, id: string, o: OpState, n: OpState) {
    || n == o
    || (Pending(o) && !n.Running?)
    || (step.StepClaim? && step.id == id && Claimable(s.t, step.locked, id) && o.Queued? && n.Running?)
    || (o.Running? && CutsShort(step, n))
    || (o.Running? && Reports(step, id) && id in s.inFlight && n == step.outcome)
  }

  /** Recovery or a cancellation closes the row of a running operation, without asking its worker. */
  ghost predicate CutsShort(step: Step, n: OpState) {
    (step.StepRecover? && n.TimedOut?) || (step.StepCancel? && n.Cancelled?)
  }

  lemma {:induction false} Moves(s: State, step: Step, id: string)
    requires id in Apply(s, step).t.operations
    ensures var n := Apply(s, step).t.operations[id].state;
            if id in s.t.operations then Move(s, step, id, s.t.operations[id].state, n) else Pending(n)
  {
    hide Submit, Approve, Cancel, Protocol.Open, SubmitNext, AbortBatch, Claimable, Claim, RenewOf, Clears, Recover,
        MayReconcile, AfterSubmit, Finish, Release, Executes, PublishBatch;
    match step
    case StepSubmit(w, p, req, x, now) =>
      var alone := req.(batch := None, index := 0);
      SubmitMoves(s.t, w, p, alone, x, now, id);
      AfterSubmitFrame(s, Submit(s.t, w, p, alone, x, now).0, x, Origin(w, p, alone));
    case StepApprove(p, x, approve, reason, now) => ApproveMoves(s.t, p, x, approve, reason, now, id);
    case StepCancel(p, x, now) => CancelMoves(s.t, p, x, now, id);
    case StepOpenBatch(call, w, p, req, ids, size, threshold, continueOnError) =>
      OpenMoves(s, call, w, p, req, BatchRequest(ids, req.action, req.parameters, size, threshold, continueOnError));
    case StepSubmitNext(call, w, x, now) => SubmitNextMoves(s, call, w, x, now, id);
    case StepClaim(x, worker, locked, now) => ClaimMoves(s, step, id);
    case StepRecover(now) => RecoverMoves(s.t, now, id);
    case StepReconcile(w, p, resource, confirmed, reason, now) => ReconcileFrame(s, step);
    case StepClear(x, w, now) => ClearFrame(s, step, id);
    case StepRenew(x, now) => if x in s.t.operations { RenewMoves(s.t, x, now, id); }
    case StepFinish(x, outcome, now) => FinishMoves(s, step, id);
    case StepPublishBatch(call) => if call in s.calls { PublishMoves(s.t, s.calls[call].batch); }
    case StepAbortBatch(call, now) => if call in s.calls { AbortMoves(s.t, s.calls[call].batch, now, id); }
    case _ =>
  }

  lemma {:induction false} RenewMoves(t: Tables, x: string, now: int, id: string)
    requires x in t.operations
    ensures var n := RenewOf(t, x, now).0.operations;
            n.Keys == t.operations.Keys && (id in n ==> n[id].state == t.operations[id].state)
  {}

  lemma {:induction false} FinishMoves(s: State, step: Step, id: string)
    requires step.StepFinish? && id in Apply(s, step).t.operations
    ensures id in s.t.operations && Move(s, step, id, s.t.operations[id].state, Apply(s, step).t.operations[id].state)
  {
    hide Submit, Approve, Cancel, Protocol.Open, SubmitNext, AbortBatch, PublishBatch, Claimable, Claim, RenewOf,
        Clears, Recover, MayReconcile, Release, AfterSubmit;
  }

  lemma {:induction false} PublishMoves(t: Tables, b: BatchId)
    ensures PublishBatch(t, b).operations == t.operations
  {}

  lemma {:induction false} AbortMoves(t: Tables, b: BatchId, now: int, id: string)
    ensures var n := AbortBatch(t, b, now).operations;
            && n.Keys == t.operations.Keys
            && (id in n ==> n[id] == t.operations[id] || (Pending(t.operations[id].state) && n[id].state.Cancelled?))
  {}

  lemma {:induction false} SubmitMoves(t: Tables, w: World, p: Principal, req: Request, x: string, now: int, id: string)
    ensures var n := Submit(t, w, p, req, x, now).0.operations;
            if id in t.operations then id in n && n[id] == t.operations[id] else id in n ==> Pending(n[id].state)
  {
    hide Admit;
  }

  lemma {:induction false} ApproveMoves(
      t: Tables, p: Principal, x: string, approve: bool, reason: string, now: int, id: string)
    ensures var n := Approve(t, p, x, approve, reason, now).0.operations;
            && n.Keys == t.operations.Keys
            && (id in n ==> n[id] == t.operations[id] || (Pending(t.operations[id].state) && !n[id].state.Running?))
  {
    hide Allowed;
  }

  lemma {:induction false} CancelMoves(t: Tables, p: Principal, x: string, now: int, id: string)
    ensures var n := Cancel(t, p, x, now).0.operations;
            && n.Keys == t.operations.Keys
            && (id in n ==> n[id] == t.operations[id] || (!Terminal(t.operations[id].state) && n[id].state.Cancelled?))
  {
    hide Allowed;
  }

  lemma {:induction false} OpenMoves(s: State, call: nat, w: World, p: Principal, req: Request, b: BatchRequest)
    ensures Protocol.Open(s, call, w, p, req, b).t.operations == s.t.operations
  {
    hide ItemObjection;
    if BatchObjection(w, p, req, b).None? {
      Shape(w, p, req, b);
    }
  }

  lemma {:induction false} SubmitNextMoves(s: State, call: nat, w: World, x: string, now: int, id: string)
    ensures var n := Apply(s, StepSubmitNext(call, w, x, now)).t.operations;
            if id in s.t.operations then id in n && n[id] == s.t.operations[id] else id in n ==> Pending(n[id].state)
  {
    hide Submit;
    if call in s.calls && s.calls[call].next < |s.calls[call].request.ids| {
      var c := s.calls[call];
      SubmitMoves(s.t, w, c.principal, Item(c.template, c.batch, c.request, c.next), x, now, id);
    }
  }

  lemma {:induction false} ClaimMoves(s: State, step: Step, id: string)
    requires step.StepClaim? && id in Apply(s, step).t.operations
    ensures id in s.t.operations && Move(s, step, id, s.t.operations[id].state, Apply(s, step).t.operations[id].state)
  {
    hide BatchAdmits;
  }

  lemma {:induction false} RecoverMoves(t: Tables, now: int, id: string)
    ensures var n := Recover(t, now).operations;
            && n.Keys == t.operations.Keys
            && (id in n ==>
                  || n[id].state == t.operations[id].state
                  || (Pending(t.operations[id].state) && n[id].state.Cancelled?)
                  || (t.operations[id].state.Running? && n[id].state.TimedOut?))
  {
    hide TooManyFailures;
  }

  lemma {:induction false} ClearFrame(s: State, step: Step, id: string)
    requires step.StepClear? && id in Apply(s, step).t.operations
    ensures id in s.t.operations && Apply(s, step).t.operations[id].state == s.t.operations[id].state
  {
    hide Gate, Submit, Approve, Cancel, Protocol.Open, SubmitNext, AbortBatch, PublishBatch, Claimable, Claim, Finish,
        Recover, MayReconcile, Release, AfterSubmit;
  }

  // ------------------------------------------------------------------ rows of the work in progress

  predicate Adrift(state: OpState) {
    state.TimedOut? || state.Cancelled?
  }

  /** A claimer that has not reported has a row that runs or was cut short, and every running row has one. */
  ghost predicate Airborne(s: State) {
    && (forall id :: id in s.inFlight ==>
          id in s.t.operations && (s.t.operations[id].state.Running? || Adrift(s.t.operations[id].state)))
    && (forall id :: id in s.t.operations && s.t.operations[id].state.Running? ==> id in s.inFlight)
  }

  lemma {:induction false} AirborneStep(s: State, step: Step)
    requires Inv(s) && Airborne(s)
    ensures Airborne(Apply(s, step))
  {
    hide Inv, Apply, Claimable, Grows, NobodyJoins;
    var n := Apply(s, step);
    NewFlights(s, step);
    forall id | id in n.inFlight
      ensures id in n.t.operations && (n.t.operations[id].state.Running? || Adrift(n.t.operations[id].state))
    {
      if id in s.inFlight {
        StepKeepsRow(s, step, id);
        Moves(s, step, id);
      } else {
        ClaimRuns(s, step);
      }
    }
    forall id | id in n.t.operations && n.t.operations[id].state.Running? ensures id in n.inFlight {
      Moves(s, step, id);
      if id in s.t.operations && s.t.operations[id].state.Running? {
        assert id in s.inFlight;
        if Reports(step, id) {
          FinishCloses(s, step);
        }
      } else {
        ClaimRuns(s, step);
      }
    }
  }

  lemma {:induction false} StepKeepsRow(s: State, step: Step, id: string)
    requires Inv(s) && id in s.t.operations
    ensures id in Apply(s, step).t.operations
  {
    hide Inv, Apply, NobodyJoins, Forward;
    StepKeeps(s, step);
  }

  lemma {:induction false} ClaimRuns(s: State, step: Step)
    requires step.StepClaim? && Claimable(s.t, step.locked, step.id)
    ensures var n := Apply(s, step);
            step.id in n.inFlight && step.id in n.t.operations && n.t.operations[step.id].state.Running?
  {
    hide BatchAdmits;
  }

  lemma {:induction false} FinishCloses(s: State, step: Step)
    requires step.StepFinish? && Outcome(step.outcome) && step.id in s.inFlight && step.id in s.t.operations
    ensures var n := Apply(s, step).t; step.id in n.operations && !n.operations[step.id].state.Running?
  {}

  lemma {:induction false} NothingAirborne()
    ensures Airborne(INITIAL)
  {}

  /** Of every reachable state. */
  lemma {:induction false} InFlightRows(steps: seq<Step>, n: nat)
    requires n <= |steps|
    ensures Airborne(At(steps, n))
    decreases n
  {
    hide Inv, Apply, Run, Grows, NobodyJoins, Airborne;
    if n == 0 {
      StartsEmpty(steps);
      NothingAirborne();
    } else {
      InFlightRows(steps, n - 1);
      OneStep(steps, n - 1);
      AirborneStep(At(steps, n - 1), steps[n - 1]);
    }
  }

  ghost predicate RunsAt(steps: seq<Step>, k: nat, id: string)
    requires k <= |steps|
  {
    id in At(steps, k).t.operations && At(steps, k).t.operations[id].state.Running?
  }

  /** Step k closes the row of a running operation over its worker's head. */
  ghost predicate CutShortAt(steps: seq<Step>, k: nat, id: string)
    requires k < |steps|
  {
    && RunsAt(steps, k, id) && id in At(steps, k + 1).t.operations
    && CutsShort(steps[k], At(steps, k + 1).t.operations[id].state)
  }

  lemma {:induction false} StopsRunning(steps: seq<Step>, i: nat, j: nat, id: string) returns (k: nat)
    requires i <= j <= |steps| && RunsAt(steps, i, id) && !RunsAt(steps, j, id)
    ensures i <= k < j && RunsAt(steps, k, id) && !RunsAt(steps, k + 1, id)
    decreases j
  {
    hide Run;
    if RunsAt(steps, j - 1, id) {
      k := j - 1;
    } else {
      k := StopsRunning(steps, i, j - 1, id);
    }
  }

  /** A row that stops running without a report was cut short. */
  lemma {:induction false} StopIsCut(steps: seq<Step>, k: nat, id: string)
    requires k < |steps| && RunsAt(steps, k, id) && !RunsAt(steps, k + 1, id) && !Reports(steps[k], id)
    ensures CutShortAt(steps, k, id)
  {
    hide Inv, Apply, Run, Grows, NobodyJoins, Claimable, Reports;
    OneStep(steps, k);
    StepKeepsRow(At(steps, k), steps[k], id);
    Moves(At(steps, k), steps[k], id);
  }

  /**
   * An operation whose claimer has not reported no longer runs if and only if recovery or a
   * cancellation has struck since it was claimed.
   */
  lemma {:induction false} CutShortExactly(steps: seq<Step>, i: nat, j: nat, id: string)
    requires i <= j <= |steps| && RunsAt(steps, i, id) && id in At(steps, j).inFlight && Silent(steps, i, j, id)
    ensures !RunsAt(steps, j, id) <==> exists k :: i <= k < j && CutShortAt(steps, k, id)
  {
    hide Inv, Apply, Run, Grows, NobodyJoins, Claimable, Reports, CutShortAt;
    if !RunsAt(steps, j, id) {
      var k := StopsRunning(steps, i, j, id);
      StopIsCut(steps, k, id);
    }
    if k :| i <= k < j && CutShortAt(steps, k, id) {
      CutIsForGood(steps, k, j, id);
    }
  }

  lemma {:induction false} CutIsForGood(steps: seq<Step>, k: nat, j: nat, id: string)
    requires k < j <= |steps| && CutShortAt(steps, k, id)
    ensures id in At(steps, j).t.operations && Adrift(At(steps, j).t.operations[id].state)
  {
    hide Inv, Apply, Run;
    RowsMoveForward(steps, k + 1, j, id);
  }

  // ------------------------------------------------------------------ waves

  /**
   * Waves over workers rather than rows: when an operation of a batch is claimed, a claimer of a
   * lower wave has yet to report if and only if its row was cut short while it worked and it has not
   * reported since.
   */
  lemma {:induction false} WavesOverlapExactly(steps: seq<Step>, j: nat, b: BatchId, x: string, y: string)
    requires j < |steps| && ClaimsAt(steps, j, y)
    requires b in At(steps, j).t.batches && Before(At(steps, j).t, x, y, b)
    ensures x in At(steps, j).inFlight <==> exists k :: 0 <= k < j && CutShortAt(steps, k, x) && Silent(steps, k, j, x)
  {
    hide Inv, Apply, Run, Reports, CutShortAt;
    if x in At(steps, j).inFlight {
      assert !RunsAt(steps, j, x) by { LowerWaveIsOver(At(steps, j).t, steps[j].locked, b, x, y); }
      var i := TookOff(steps, j, x);
      hide Before, Claimable;
      OneStep(steps, i);
      ClaimRuns(At(steps, i), steps[i]);
      CutShortExactly(steps, i + 1, j, x);
    }
    hide Before, Claimable;
    if k :| 0 <= k < j && CutShortAt(steps, k, x) && Silent(steps, k, j, x) {
      CutWhileInFlight(steps, k, x);
      StaysInFlight(steps, k, j, x);
    }
  }

  lemma {:induction false} LowerWaveIsOver(t: Tables, locked: set<string>, b: BatchId, x: string, y: string)
    requires b in t.batches && Before(t, x, y, b) && Claimable(t, locked, y)
    ensures !t.operations[x].state.Running?
  {}

  lemma {:induction false} CutWhileInFlight(steps: seq<Step>, k: nat, id: string)
    requires k < |steps| && CutShortAt(steps, k, id)
    ensures id in At(steps, k).inFlight
  {
    hide Run;
    InFlightRows(steps, k);
  }

  /** Claimers of one batch that have yet to report share a wave, but for those whose row was cut short. */
  lemma {:induction false} WavesInFlight(steps: seq<Step>, b: BatchId, x: string, y: string)
    requires b in Run(steps).t.batches && x in Run(steps).inFlight && y in Run(steps).inFlight
        && Before(Run(steps).t, x, y, b)
    ensures Adrift(Run(steps).t.operations[x].state)
  {
    hide Run, Before;
    assert steps[..|steps|] == steps;
    Reachable(steps);
    FlightHasRow(Run(steps), y);
    RollingOrder(steps, b);
    InFlightRows(steps, |steps|);
  }

  /** The members of a batch whose claimer has yet to report. */
  ghost function Working(s: State, b: BatchId): set<string> {
    set id | id in s.inFlight && InBatch(s.t, id, b)
  }

  /** Those of them whose row was cancelled meanwhile. */
  ghost function Abandoned(s: State, b: BatchId): set<string> {
    set id | id in Working(s, b) && s.t.operations[id].state.Cancelled?
  }

  /**
   * Blast radius over workers: the operations of a batch that started and failed or whose claimer has
   * yet to report stay within the bound, but for those cancelled under their worker, which come on top.
   */
  lemma {:induction false} WorkerRadius(steps: seq<Step>, b: BatchId)
    requires b in Run(steps).t.batches
    ensures var s := Run(steps);
            && |StartedFailures(s.t, b) + Working(s, b)| == |Exposed(s.t, b)| + |Abandoned(s, b)|
            && |Exposed(s.t, b)| <= Bound(s.t.batches[b])
  {
    assert steps[..|steps|] == steps;
    Reachable(steps);
    InFlightRows(steps, |steps|);
    hide Run;
    WorkersSplit(Run(steps), b);
    RadiusHolds(Run(steps), b);
  }

  lemma {:induction false} RadiusHolds(s: State, b: BatchId)
    requires Inv(s) && b in s.t.batches
    ensures |Exposed(s.t, b)| <= Bound(s.t.batches[b])
  {
    hide Rest, UniqueKeys, Rows, LeaseAgreement, LeaseOrigin, BatchRows, Members, Rolling, StartAudit, Exposed;
  }

  lemma {:induction false} WorkersSplit(s: State, b: BatchId)
    requires Inv(s) && Airborne(s)
    ensures |StartedFailures(s.t, b) + Working(s, b)| == |Exposed(s.t, b)| + |Abandoned(s, b)|
  {
    hide Inv, Apply;
    var failed, working, exposed, abandoned := StartedFailures(s.t, b), Working(s, b), Exposed(s.t, b), Abandoned(s, b);
    forall id | id in working ensures Started(s.t.operations[id]) && (id in exposed || id in abandoned) {
      FlightHasRow(s, id);
    }
    assert failed <= exposed;
    assert exposed <= failed + working;
    assert exposed !! abandoned;
    hide StartedFailures, Working, Exposed, Abandoned, Airborne;
    assert abandoned <= working by { AbandonedWork(s, b); }
    assert failed + working == exposed + abandoned;
  }

  lemma {:induction false} AbandonedWork(s: State, b: BatchId)
    ensures Abandoned(s, b) <= Working(s, b)
  {
  }

  // ------------------------------------------------------------------ the call of the adapter

  ghost predicate ClearsAt(steps: seq<Step>, i: nat, id: string, w: World, now: int)
    requires i < |steps|
  {
    steps[i] == StepClear(id, w, now) && Clears(At(steps, i), id, w, now)
  }

  lemma {:induction false} WasCleared(steps: seq<Step>, n: nat, id: string, w: World, at: int) returns (i: nat)
    requires n <= |steps| && id in At(steps, n).inFlight && At(steps, n).inFlight[id] == Cleared(w, at)
    ensures i < n && ClearsAt(steps, i, id, w, at) && Silent(steps, i, n, id)
    decreases n
  {
    hide Inv, Apply, Run, Clears, Grows, NobodyJoins, Reports, Claimable, Holds;
    if n == 0 {
      StartsEmpty(steps);
      assert false;
    } else {
      OneStep(steps, n - 1);
      var s, step := At(steps, n - 1), steps[n - 1];
      ClearedBy(s, step, id, w, at);
      if id in s.inFlight {
        FlightHasRow(s, id);
        NewFlights(s, step);
      }
      if step == StepClear(id, w, at) && Clears(s, id, w, at) {
        i := n - 1;
      } else {
        i := WasCleared(steps, n - 1, id, w, at);
      }
    }
  }

  lemma {:induction false} ClearedBy(s: State, step: Step, id: string, w: World, at: int)
    requires id in Apply(s, step).inFlight && Apply(s, step).inFlight[id] == Cleared(w, at)
    ensures id in s.inFlight
    ensures s.inFlight[id] == Cleared(w, at) || (step == StepClear(id, w, at) && Clears(s, id, w, at))
  {
    hide MayReconcile, Submit, Approve, Cancel, BatchObjection, Gate, Claimable, Recover, AbortBatch, PublishBatch,
        Renew, Finish, Release, RenewOf;
  }

  /**
   * Before every adapter call its worker passed the gate and renewed: at that moment the row ran,
   * under a lease good for its full length. Parameters are resolved in between, and by the call the
   * row no longer runs if and only if recovery or a cancellation struck meanwhile.
   */
  lemma {:induction false} CalledAfterClearing(steps: seq<Step>, k: nat, id: string)
    requires k < |steps| && steps[k] == StepExecute(id) && Executes(At(steps, k), id)
    ensures var cleared := At(steps, k).inFlight[id];
            exists i :: 0 <= i < k && ClearsAt(steps, i, id, cleared.world, cleared.at)
              && RunsAt(steps, i + 1, id) && LeaseOf(At(steps, i + 1).t, id)
              && At(steps, i + 1).t.operations[id].leaseUntil == Some(cleared.at + LEASE)
              && (!RunsAt(steps, k, id) <==> exists m :: i < m < k && CutShortAt(steps, m, id))
    ensures var cleared := At(steps, k).inFlight[id];
            At(steps, k + 1).executions == At(steps, k).executions + [Execution(id, cleared.world, cleared.at)]
  {
    hide Run, Apply, Inv, Grows, NobodyJoins, Clears, CutShortAt, Reports, LeaseOf;
    OneStep(steps, k);
    CallIsRecorded(At(steps, k), id);
    var cleared := At(steps, k).inFlight[id];
    var i := WasCleared(steps, k, id, cleared.world, cleared.at);
    OneStep(steps, i);
    ClearingRenews(At(steps, i), id, cleared.world, cleared.at);
    CutShortExactly(steps, i + 1, k, id);
  }

  lemma {:induction false} CallIsRecorded(s: State, id: string)
    requires Executes(s, id)
    ensures Apply(s, StepExecute(id)).executions ==
        s.executions + [Execution(id, s.inFlight[id].world, s.inFlight[id].at)]
  {}

  lemma {:induction false} ClearingRenews(s: State, id: string, w: World, now: int)
    requires Clears(s, id, w, now)
    ensures var n := Apply(s, StepClear(id, w, now)).t;
            && id in n.operations && n.operations[id].state.Running?
            && LeaseOf(n, id) && n.operations[id].leaseUntil == Some(now + LEASE)
  {
    hide Gate, RenewOf;
    RenewsInStep(s.t, id, now);
  }

  lemma {:induction false} RenewsInStep(t: Tables, id: string, now: int)
    requires id in t.operations && RenewOf(t, id, now).1.None?
    ensures var n := RenewOf(t, id, now).0;
            && id in n.operations && n.operations[id].state.Running? && n.operations[id].leaseUntil == Some(now + LEASE)
            && LeaseOf(n, id)
  {}
}
