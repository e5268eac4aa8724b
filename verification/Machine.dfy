/**
 * What each step of the machine does, in the terms of the transaction it stands for. A step that is
 * not enabled changes nothing.
 */
module Machine {
  import opened Results
  import opened Rbac
  import opened Tables
  import opened Engine
  import opened Worker
  import opened Invariants
  import opened Effects
  import opened Protocol

  /** A row that appears comes with the circumstances of its submission. */
  ghost predicate Traced(s: State, n: State, id: string, from: Origin) {
    n.origins == if id in n.t.operations && id !in s.t.operations then s.origins[id := from] else s.origins
  }

  /** The item a batch creation is at. */
  ghost function ItemAt(c: BatchCall): Request
    requires c.next < |c.request.ids|
  {
    var resource := c.request.ids[c.next];
    c.template.(resource := resource, key := c.template.key + ":" + resource, batch := Some(c.batch), index := c.next)
  }

  ghost predicate Submitting(s: State, call: nat) {
    call in s.calls && !s.calls[call].failing && s.calls[call].next < |s.calls[call].request.ids|
  }

  ghost predicate Complete(s: State, call: nat) {
    call in s.calls && !s.calls[call].failing && s.calls[call].next == |s.calls[call].request.ids|
  }

  /** The oldest operation that may run and that nobody holds locked. */
  ghost predicate Next(t: Tables, locked: set<string>, id: string) {
    && MayRun(t, id) && id in t.operations && id !in locked
    && forall x :: x in t.operations && MayRun(t, x) && x !in locked ==>
         t.operations[id].spec.createdAt <= t.operations[x].spec.createdAt
  }

  ghost predicate Flying(s: State, id: string) {
    id in s.inFlight && id in s.t.operations
  }

  ghost predicate Clearing(s: State, id: string, w: World, now: int) {
    && Flying(s, id) && s.inFlight[id] == Claimed
    && RowLasts(s.t, id, s.t.operations[id].worker, now) && LeaseLasts(s.t, id, s.t.operations[id].worker, now)
    && exists p :: GateOpens(w, s.t.operations[id].spec, s.t.operations[id].approvalBy, p)
  }

  ghost predicate RequesterEffect(s: State, step: Step, n: State)
    requires OfRequester(step)
  {
    match step
    case StepSubmit(w, p, req, id, now) =>
      var alone := req.(batch := None, index := 0);
      && (exists r :: SubmitEffect(s.t, n.t, r, w, p, alone, id, now))
      && n == s.(t := n.t, origins := n.origins) && Traced(s, n, id, Origin(w, p, alone))
    case StepApprove(p, id, approve, reason, now) =>
      if MayDecide(s.t, p, id, reason) then
        && ApproveEffect(s.t, n.t, id, p.user.id, approve, now)
        && n == s.(t := n.t, approvals := s.approvals[id := Approval(p, approve)])
      else n == s
    case StepCancel(p, id, now) =>
      if MayCancel(s.t, p, id) then CancelledBy(s.t, n.t, id, p.user.id, now) && n == s.(t := n.t) else n == s
    case StepOpenBatch(call, w, p, req, ids, size, threshold, continueOnError) =>
      var b := BatchRequest(ids, req.action, req.parameters, size, threshold, continueOnError);
      var id := BatchId(p.user.id, req.key);
      if call in s.calls || !BatchPosed(w, p, req, b) || (id in s.t.batches && s.t.batches[id].request != b) then n == s
      else
        && n.t == s.t.(batches := n.t.batches)
        && n.t.batches == (if id in s.t.batches then s.t.batches
                           else s.t.batches[id := BatchRow(p.user.id, size, threshold, continueOnError, b, false)])
        && n == s.(t := n.t, calls := s.calls[call := BatchCall(p, id, b, req, 0, false)])
    case StepSubmitNext(call, w, id, now) =>
      if !Submitting(s, call) then n == s else
        var c, item := s.calls[call], ItemAt(s.calls[call]);
        && n == s.(t := n.t, calls := n.calls, origins := n.origins) && Traced(s, n, id, Origin(w, c.principal, item))
        && exists r :: SubmitEffect(s.t, n.t, r, w, c.principal, item, id, now)
             && n.calls == s.calls[call := if r.Ok? then c.(next := c.next + 1) else c.(failing := true)]
    case StepAbortBatch(call, now) =>
      if call in s.calls && s.calls[call].failing then
        AbortEffect(s.t, n.t, s.calls[call].batch, now) && n == s.(t := n.t, calls := s.calls - {call})
      else n == s
    case StepPublishBatch(call) =>
      if Complete(s, call) && s.calls[call].batch in s.t.batches then
        var b := s.calls[call].batch;
        n == s.(t := s.t.(batches := s.t.batches[b := s.t.batches[b].(ready := true)]), calls := s.calls - {call})
      else n == s
    case StepDropCall(call) => n == s.(calls := s.calls - {call})
  }

  ghost predicate WorkerEffect(s: State, step: Step, n: State)
    requires !OfRequester(step)
  {
    match step
    case StepClaim(id, worker, locked, now) =>
      if Next(s.t, locked, id) then
        ClaimEffect(s.t, n.t, id, worker, now) && n == s.(t := n.t, inFlight := s.inFlight[id := Claimed])
      else n == s
    case StepRenew(id, now) =>
      if Flying(s, id) then
        && n == s.(t := n.t)
        && exists e :: RenewEffect(s.t, n.t, e, id, s.t.operations[id].worker, now)
      else n == s
    case StepClear(id, w, now) =>
      if Clearing(s, id, w, now) then
        && RenewEffect(s.t, n.t, None, id, s.t.operations[id].worker, now)
        && n == s.(t := n.t, inFlight := s.inFlight[id := Cleared(w, now)])
      else n == s
    case StepExecute(id) =>
      if id in s.inFlight && s.inFlight[id].Cleared? then
        n == s.(inFlight := s.inFlight[id := Called],
                executions := s.executions + [Execution(id, s.inFlight[id].world, s.inFlight[id].at)])
      else n == s
    case StepFinish(id, outcome, now) =>
      if Flying(s, id) && outcome in {Succeeded, Failed, TimedOut, Rejected} then
        && FinishEffect(s.t, n.t, id, s.t.operations[id].worker, outcome, now)
        && n == s.(t := n.t, inFlight := s.inFlight - {id})
      else n == s
    case StepRecover(now) => RecoverEffect(s.t, n.t, now) && n == s.(t := n.t)
    case StepReconcile(w, p, resource, confirmed, reason, now) =>
      if MayRelease(w, p, resource, confirmed, reason) then
        ReleaseEffect(s.t, n.t, resource, p.user.id, now) && n == s.(t := n.t)
      else n == s
  }

  lemma {:induction false} RequesterStepMeans(s: State, step: Step)
    requires Inv(s) && OfRequester(step)
    ensures RequesterEffect(s, step, Apply(s, step))
  {
    hide Inv, Submit, Approve, Cancel, AbortBatch, SubmitEffect, BatchPosed, BatchObjection, MayDecide, MayCancel,
         ApproveEffect, CancelledBy, AbortEffect, Protocol.Open, AfterSubmit;
    match step
    case StepSubmit(w, p, req, id, now) =>
      SubmitAlone(s, w, p, req, id, now);
    case StepApprove(p, id, approve, reason, now) =>
      DecisionMeans(s, p, id, approve, reason, now);
    case StepCancel(p, id, now) => CancelMeans(s.t, p, id, now);
    case StepOpenBatch(call, w, p, req, ids, size, threshold, continueOnError) =>
      BatchMeans(w, p, req, BatchRequest(ids, req.action, req.parameters, size, threshold, continueOnError));
      OpenMeans(s, call, w, p, req, BatchRequest(ids, req.action, req.parameters, size, threshold, continueOnError));
    case StepSubmitNext(call, w, id, now) =>
      if Submitting(s, call) {
        NextItemMeans(s, call, w, id, now);
      }
    case StepAbortBatch(call, now) => if call in s.calls { AbortMeans(s.t, s.calls[call].batch, now); }
    case StepPublishBatch(call) => if call in s.calls { BatchIsThere(s, call); }
    case StepDropCall(call) =>
  }

  lemma {:induction false} DecisionMeans(s: State, p: Principal, id: string, approve: bool, reason: string, now: int)
    ensures var n := Apply(s, StepApprove(p, id, approve, reason, now));
            if MayDecide(s.t, p, id, reason) then
              && ApproveEffect(s.t, n.t, id, p.user.id, approve, now)
              && n == s.(t := n.t, approvals := s.approvals[id := Approval(p, approve)])
            else n == s
  {
    hide Approve, ApproveEffect, MayDecide;
    ApproveMeans(s.t, p, id, approve, reason, now);
    var n := Apply(s, StepApprove(p, id, approve, reason, now));
    if Approve(s.t, p, id, approve, reason, now).1.Some? {
      assert n == s;
    }
  }

  lemma {:induction false} NextItemMeans(s: State, call: nat, w: World, id: string, now: int)
    requires Inv(s) && Submitting(s, call)
    ensures var c, item, n := s.calls[call], ItemAt(s.calls[call]), Apply(s, StepSubmitNext(call, w, id, now));
            && n == s.(t := n.t, calls := n.calls, origins := n.origins)
            && Traced(s, n, id, Origin(w, c.principal, item))
            && exists r :: SubmitEffect(s.t, n.t, r, w, c.principal, item, id, now)
                 && n.calls == s.calls[call := if r.Ok? then c.(next := c.next + 1) else c.(failing := true)]
  {
    hide Inv, Submit, SubmitEffect;
    var c := s.calls[call];
    ItemMeans(c.template, c.batch, c.request, c.next);
    assert ItemAt(c) == Item(c.template, c.batch, c.request, c.next);
    SubmitHere(s, w, c.principal, ItemAt(c), id, now);
    hide Item, ItemAt;
    var r := Submit(s.t, w, c.principal, ItemAt(c), id, now).1;
    assert SubmitEffect(s.t, Apply(s, StepSubmitNext(call, w, id, now)).t, r, w, c.principal, ItemAt(c), id, now);
  }

  lemma {:induction false} SubmitAlone(s: State, w: World, p: Principal, req: Request, id: string, now: int)
    requires Inv(s)
    ensures var alone, n := req.(batch := None, index := 0), Apply(s, StepSubmit(w, p, req, id, now));
            && (exists r :: SubmitEffect(s.t, n.t, r, w, p, alone, id, now))
            && n == s.(t := n.t, origins := n.origins) && Traced(s, n, id, Origin(w, p, alone))
  {
    hide Inv, Submit, SubmitEffect;
    var alone := req.(batch := None, index := 0);
    SubmitHere(s, w, p, alone, id, now);
    var r := Submit(s.t, w, p, alone, id, now).1;
    assert SubmitEffect(s.t, Apply(s, StepSubmit(w, p, req, id, now)).t, r, w, p, alone, id, now);
  }

  lemma {:induction false} BatchIsThere(s: State, call: nat)
    requires Inv(s) && call in s.calls
    ensures s.calls[call].batch in s.t.batches
  {
    hide Inv;
    CallIsOk(s, call);
  }

  lemma {:induction false} SubmitHere(s: State, w: World, p: Principal, req: Request, id: string, now: int)
    requires Inv(s)
    ensures var (n, r) := Submit(s.t, w, p, req, id, now); SubmitEffect(s.t, n, r, w, p, req, id, now)
  {
    hide Rest, Submit, SubmitEffect;
    forall x, y | HasKey(s.t, x, p.user.id, req.key) && HasKey(s.t, y, p.user.id, req.key) ensures x == y {
      assert SameKey(s.t.operations[x].spec, s.t.operations[y].spec);
    }
    SubmitMeans(s.t, w, p, req, id, now);
  }

  lemma {:induction false} OpenMeans(s: State, call: nat, w: World, p: Principal, req: Request, b: BatchRequest)
    ensures var n, id := Protocol.Open(s, call, w, p, req, b), BatchId(p.user.id, req.key);
            if call in s.calls || BatchObjection(w, p, req, b).Some?
                || (id in s.t.batches && s.t.batches[id].request != b)
            then n == s
            else
              && b.size > 0 && b.threshold >= 0
              && n == s.(t := s.t.(batches :=
                           if id in s.t.batches then s.t.batches
                           else s.t.batches[id := BatchRow(p.user.id, b.size, b.threshold, b.continueOnError, b,
                               false)]),
                         calls := s.calls[call := BatchCall(p, id, b, req, 0, false)])
  {
    hide ItemObjection;
    if BatchObjection(w, p, req, b).None? {
      Shape(w, p, req, b);
    }
  }

  lemma {:induction false} WorkerStepMeans(s: State, step: Step)
    requires Inv(s) && !OfRequester(step)
    ensures WorkerEffect(s, step, Apply(s, step))
  {
    hide Inv, Eligible, MayRun, Claim, ClaimEffect, RenewOf, RenewEffect, Gate, GateOpens, Finish, FinishEffect,
        Recover,
         RecoverEffect, Release, ReleaseEffect, MayReconcile, MayRelease, RowLasts, LeaseLasts;
    match step
    case StepClaim(id, worker, locked, now) =>
      NextMeans(s.t, locked, id);
      if id in s.t.operations {
        ClaimMeans(s.t, id, worker, now);
      }
    case StepRenew(id, now) => if id in s.t.operations { RenewHere(s.t, id, now); }
    case StepClear(id, w, now) =>
      if id in s.t.operations {
        RenewHere(s.t, id, now);
        GateMeans(w, s.t.operations[id].spec, s.t.operations[id].approvalBy);
      }
    case StepExecute(id) =>
    case StepFinish(id, outcome, now) =>
      if id in s.t.operations {
        FinishMeans(s.t, id, s.t.operations[id].worker, outcome, now);
      }
    case StepRecover(now) => RecoverMeans(s.t, now);
    case StepReconcile(w, p, resource, confirmed, reason, now) =>
      MayReconcileMeans(w, p, resource, confirmed, reason);
      ReleaseMeans(s.t, resource, p.user.id, now);
  }

  lemma {:induction false} NextMeans(t: Tables, locked: set<string>, id: string)
    ensures Claimable(t, locked, id) <==> Next(t, locked, id)
  {
    hide Eligible, MayRun;
    forall x: string ensures Eligible(t, x) <==> MayRun(t, x) {
      EligibleMeans(t, x);
    }
    RunsInTable(t, id);
  }

  lemma {:induction false} RunsInTable(t: Tables, id: string)
    ensures MayRun(t, id) ==> id in t.operations
  {}

  lemma {:induction false} RenewHere(t: Tables, id: string, now: int)
    requires id in t.operations
    ensures var (n, e) := RenewOf(t, id, now); RenewEffect(t, n, e, id, t.operations[id].worker, now)
    ensures RenewOf(t, id, now).1.None? <==>
              RowLasts(t, id, t.operations[id].worker, now) && LeaseLasts(t, id, t.operations[id].worker, now)
  {
    RenewMeans(t, id, t.operations[id].worker, now);
  }

  /** Every step does what its transaction does, and nothing else. */
  lemma {:induction false} StepMeans(s: State, step: Step)
    requires Inv(s)
    ensures if OfRequester(step) then RequesterEffect(s, step, Apply(s, step))
        else WorkerEffect(s, step, Apply(s, step))
  {
    hide Inv, Apply, RequesterEffect, WorkerEffect;
    if OfRequester(step) {
      RequesterStepMeans(s, step);
    } else {
      WorkerStepMeans(s, step);
    }
  }
}
