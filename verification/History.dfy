/** Who was let through, and what repeating a request does, over whole runs. */
module History {
  import opened Results
  import opened Rbac
  import opened Policy
  import opened Tables
  import opened Engine
  import opened Worker
  import opened Effects
  import opened Invariants
  import opened Protocol
  import opened Runs

  // ------------------------------------------------------------------ the execution gate

  /** The target an execution reaches, bastion included, is the one its submission was made for. */
  ghost predicate SameTarget(spec: OpSpec, submitted: World, executed: World) {
    && spec.resource in submitted.resources && submitted.resources[spec.resource].hostId in submitted.hosts
    && spec.resource in executed.resources && executed.resources[spec.resource].hostId in executed.hosts
    && var r, r' := submitted.resources[spec.resource], executed.resources[spec.resource];
       SameReach(submitted, submitted.hosts[r.hostId], r, executed, executed.hosts[r'.hostId], r')
  }

  /** An operation asks for what its requester submitted. */
  ghost predicate AsSubmitted(spec: OpSpec, from: Origin) {
    && spec.requester == from.principal.user.id && spec.tokenId == from.principal.tokenId
    && spec.authMfa == from.principal.mfa
    && spec.resource == from.request.resource && spec.action == from.request.action
    && spec.parameters == from.request.parameters && spec.agent == from.request.agent && spec.mode == from.request.mode
  }

  /** The rules of that world ask for an approval. */
  ghost predicate NeedsApprovalNow(spec: OpSpec, w: World, p: Principal) {
    && spec.resource in w.resources && w.resources[spec.resource].hostId in w.hosts
    && var r := w.resources[spec.resource];
       NeedsApproval(Input(p, r, w.hosts[r.hostId], spec.action, spec.agent, spec.mode, w.clocks), w.rules)
  }

  /** Two people stand behind it: an approver granted it, was entitled to, and still is. */
  ghost predicate FourEyes(o: Operation, approvals: map<string, Approval>, id: string, w: World) {
    && o.approvalBy != "" && o.approvalBy != o.spec.requester
    && id in approvals && approvals[id].granted && ApprovedBy(o, approvals[id])
    && (approvals[id].approver.user.role == "ADMIN" || approvals[id].approver.user.role == "APPROVER")
    && o.approvalBy in w.users
    && Allowed(Principal(w.users[o.approvalBy], "", [], false), "operation.approve", o.spec.environment)
  }

  /** The gate opens for the principal, and what it lets through is what was asked for and approved. */
  ghost predicate Vouched(
      o: Operation, from: Origin, approvals: map<string, Approval>, id: string, w: World, p: Principal)
  {
    && AsSubmitted(o.spec, from)
    && SameTarget(o.spec, from.world, w)
    && GateOpens(w, o.spec, o.approvalBy, p)
    && (NeedsApprovalNow(o.spec, w, p) ==> FourEyes(o, approvals, id, w))
    && (o.spec.environment == "production" ==> NeedsApprovalNow(o.spec, w, p))
  }

  /**
   * The execution gate over whole histories: whenever the adapter was called, it was for the request
   * and the target captured at submission; in the world the gate saw, the requester was there, with
   * the scopes their token then had, and the action was offered and permitted; and if it needed
   * approval in that world, as on a production host, somebody else had granted it.
   */
  lemma {:induction false} ExecutionsAreAuthorized(steps: seq<Step>, k: nat)
    requires k < |Run(steps).executions|
    ensures var s := Run(steps);
            var e := s.executions[k];
            && e.operation in s.t.operations && e.operation in s.origins
            && exists p :: Vouched(
                 s.t.operations[e.operation], s.origins[e.operation], s.approvals, e.operation, e.world, p)
  {
    Reachable(steps);
    hide Run;
    CallIsVouched(Run(steps), k);
  }

  lemma {:induction false} CallIsVouched(s: State, k: nat)
    requires Rest(s) && k < |s.executions|
    ensures var e := s.executions[k];
            && e.operation in s.t.operations && e.operation in s.origins
            && exists p :: Vouched(
                 s.t.operations[e.operation], s.origins[e.operation], s.approvals, e.operation, e.world, p)
  {
    hide Gate, OriginOk, ApprovedBy, CallOk, GateOpens, Vouched;
    var e := s.executions[k];
    var o := s.t.operations[e.operation];
    assert Gate(e.world, o.spec, o.approvalBy).Ok? && Started(o);
    assert OriginOk(o.spec, s.origins[e.operation]);
    assert o.approvalBy != "" ==> e.operation in s.approvals && ApprovedBy(o, s.approvals[e.operation]);
    hide Rest;
    GateMeans(e.world, o.spec, o.approvalBy);
    var p :| GateOpens(e.world, o.spec, o.approvalBy, p);
    PassedIsVouched(o, s.origins[e.operation], s.approvals, e.operation, e.world, p);
  }

  lemma {:induction false} PassedIsVouched(
      o: Operation, from: Origin, approvals: map<string, Approval>, id: string, w: World, p: Principal)
    requires GateOpens(w, o.spec, o.approvalBy, p) && OriginOk(o.spec, from) && Started(o)
    requires o.approvalBy != "" ==> id in approvals && ApprovedBy(o, approvals[id])
    ensures Vouched(o, from, approvals, id, w, p)
  {
    hide GateOpens, OriginOk, ApprovedBy, SameTarget, NeedsApprovalNow, FourEyes, AsSubmitted;
    PassedTarget(w, from, o.spec, o.approvalBy, p);
    if NeedsApprovalNow(o.spec, w, p) {
      PassedNeedsTwo(w, o, approvals, id, p);
    }
    if o.spec.environment == "production" {
      ProductionIsAsked(w, from, o.spec, o.approvalBy, p);
    }
  }

  lemma {:induction false} PassedTarget(w: World, from: Origin, s: OpSpec, approvalBy: string, p: Principal)
    requires GateOpens(w, s, approvalBy, p) && OriginOk(s, from)
    ensures SameTarget(s, from.world, w) && AsSubmitted(s, from)
  {
    hide MayAct, NeedsApproval, StillApproved, Acts, Authorize, ReadOnly, TargetOf, SameReach;
    var v := from.world;
    var r, r' := v.resources[s.resource], w.resources[s.resource];
    TargetMeans(v, v.hosts[r.hostId], r, w, w.hosts[r'.hostId], r');
  }

  lemma {:induction false} PassedNeedsTwo(
      w: World, o: Operation, approvals: map<string, Approval>, id: string, p: Principal)
    requires GateOpens(w, o.spec, o.approvalBy, p) && NeedsApprovalNow(o.spec, w, p) && Started(o)
    requires o.approvalBy != "" ==> id in approvals && ApprovedBy(o, approvals[id])
    ensures FourEyes(o, approvals, id, w)
  {
    hide MayAct, NeedsApproval, TargetOf, Acts, Allowed;
    if o.approvalBy != "" {
      WhoApproves(approvals[id].approver, o.spec.environment);
    }
  }

  lemma {:induction false} ProductionIsAsked(w: World, from: Origin, s: OpSpec, approvalBy: string, p: Principal)
    requires GateOpens(w, s, approvalBy, p) && OriginOk(s, from) && s.environment == "production"
    ensures NeedsApprovalNow(s, w, p)
  {
    hide Decide, Permitted, NeedsApproval, TargetOf, Acts, Authorize, StillApproved, ReadOnly, Offered;
    var r := w.resources[s.resource];
    var input := Input(p, r, w.hosts[r.hostId], s.action, s.agent, s.mode, w.clocks);
    DecisionMeaning(input, w.rules);
    ProductionNeedsApproval(input, w.rules);
  }

  /** No operation reaches the adapter twice. */
  lemma {:induction false} ExecutedAtMostOnce(steps: seq<Step>, i: nat, j: nat)
    requires i < |Run(steps).executions| && j < |Run(steps).executions|
    requires Run(steps).executions[i].operation == Run(steps).executions[j].operation
    ensures i == j
  {
    Reachable(steps);
    hide Run, Gate, OriginOk, ApprovedBy, TablesInv;
    assert ExecutionsOk(Run(steps));
  }

  // ------------------------------------------------------------------ repeating a submission

  /** A requester's key names at most one operation in every reachable state. */
  lemma {:induction false} OneOperationPerKey(steps: seq<Step>, x: string, y: string, requester: string, key: string)
    requires HasKey(Run(steps).t, x, requester, key) && HasKey(Run(steps).t, y, requester, key)
    ensures x == y
  {
    Reachable(steps);
    assert SameKey(Run(steps).t.operations[x].spec, Run(steps).t.operations[y].spec);
  }

  /** A submission that succeeded left its operation under its key, bound to its body. */
  lemma {:induction false} SubmittedRow(t: Tables, w: World, p: Principal, req: Request, id: string, now: int)
    requires Submit(t, w, p, req, id, now).1.Ok?
    ensures var (n, r) := Submit(t, w, p, req, id, now);
            IsRowOf(n, r.value, p.user.id, req)
  {
    hide Admit, OriginOk, Body;
    if Admit(w, p, req, now).Admitted? {
      AdmittedSpec(w, p, req, now);
    }
  }

  /** The item a batch creation submits next. */
  ghost function NextItem(c: BatchCall): Request
    requires c.next < |c.request.ids|
  {
    Item(c.template, c.batch, c.request, c.next)
  }

  /** A submission as a step makes it. */
  datatype Attempt = Attempt(world: World, principal: Principal, request: Request, id: string, now: int)

  /** The submission a step makes, on its own or as an item of a batch, if it makes one. */
  ghost function AttemptOf(s: State, step: Step): Option<Attempt> {
    match step
    case StepSubmit(w, p, req, id, now) => Some(Attempt(w, p, req.(batch := None, index := 0), id, now))
    case StepSubmitNext(call, w, id, now) =>
      if call in s.calls && !s.calls[call].failing && s.calls[call].next < |s.calls[call].request.ids|
      then Some(Attempt(w, s.calls[call].principal, NextItem(s.calls[call]), id, now))
      else None
    case _ => None
  }

  /** What becomes of a submission. */
  ghost function Answer(t: Tables, a: Attempt): (Tables, Result<string>) {
    Submit(t, a.world, a.principal, a.request, a.id, a.now)
  }

  lemma {:induction false} AttemptMade(s: State, step: Step)
    requires AttemptOf(s, step).Some?
    ensures Apply(s, step).t == Answer(s.t, AttemptOf(s, step).value).0
  {
    hide Submit, AfterSubmit;
    var a := AttemptOf(s, step).value;
    AfterSubmitFrame(s, Answer(s.t, a).0, a.id, Origin(a.world, a.principal, a.request));
  }

  /** The submission of step i succeeded, with the given operation. */
  ghost predicate SucceededAt(steps: seq<Step>, i: nat, a: Attempt, operation: string)
    requires i < |steps|
  {
    AttemptOf(At(steps, i), steps[i]) == Some(a) && Answer(At(steps, i).t, a).1 == Ok(operation)
  }

  /**
   * Idempotent submission: after any submission that succeeded, on its own or as an item of a batch,
   * and any steps since, an admitted submission under the same key changes no table; it returns the
   * same operation if the request is the same, and is refused if not.
   */
  lemma {:induction false} ResubmissionIsIdempotent(
      steps: seq<Step>, i: nat, first: Attempt, operation: string, again: Attempt)
    requires i < |steps| && SucceededAt(steps, i, first, operation)
    requires again.principal.user.id == first.principal.user.id && again.request.key == first.request.key
    requires Admit(again.world, again.principal, again.request, again.now).Admitted?
    ensures var t := Run(steps).t;
            Answer(t, again) ==
              (t, if Body(again.request) == Body(first.request) then Ok(operation)
                  else Err(Denied("idempotency key reused with different request")))
  {
    hide Inv, Admit, Grows, NobodyJoins, Submit, Apply, Run, AttemptOf;
    SubmittedRow(At(steps, i).t, first.world, first.principal, first.request, first.id, first.now);
    OneStep(steps, i);
    AttemptMade(At(steps, i), steps[i]);
    assert IsRowOf(At(steps, i + 1).t, operation, first.principal.user.id, first.request);
    RowsMoveForward(steps, i + 1, |steps|, operation);
    assert steps[..|steps|] == steps;
    Reachable(steps);
    KeyIsFound(Run(steps), operation, again.principal.user.id, again.request.key);
    RepeatedSubmit(Run(steps).t, again.world, again.principal, again.request, again.id, again.now);
  }

  lemma {:induction false} RepeatedSubmit(t: Tables, w: World, p: Principal, req: Request, id: string, now: int)
    requires Existing(t, p.user.id, req.key).Some? && Admit(w, p, req, now).Admitted?
    ensures var existing := Existing(t, p.user.id, req.key).value;
            Submit(t, w, p, req, id, now) ==
              (t, if t.operations[existing].spec.requestHash == Body(req) then Ok(existing)
                  else Err(Denied("idempotency key reused with different request")))
  {
    AdmittedSpec(w, p, req, now);
    hide Admit;
  }

  lemma {:induction false} KeyIsFound(s: State, id: string, requester: string, key: string)
    requires Inv(s) && HasKey(s.t, id, requester, key)
    ensures Existing(s.t, requester, key) == Some(id)
  {
    hide Rest;
    var found := Existing(s.t, requester, key);
    assert found.Some?;
    assert SameKey(s.t.operations[id].spec, s.t.operations[found.value].spec);
  }

  // ------------------------------------------------------------------ replaying a batch

  /** A submission under a key that is taken inserts nothing, and succeeds exactly if it is accepted. */
  lemma {:induction false} TakenKey(t: Tables, w: World, p: Principal, req: Request, id: string, now: int)
    requires UniqueKeys(t) && KeyTaken(t, p.user.id, req.key, req.resource)
    ensures var (n, r) := Submit(t, w, p, req, id, now);
            n == t.(audit := n.audit) && (r.Ok? <==> Accepted(t, w, p, req, now))
  {
    hide Admit, OriginOk, Body;
    if Admit(w, p, req, now).Admitted? {
      AdmittedSpec(w, p, req, now);
    }
    var x :| HasKey(t, x, p.user.id, req.key);
    var found := Existing(t, p.user.id, req.key);
    assert forall y :: HasKey(t, y, p.user.id, req.key) ==>
        SameKey(t.operations[y].spec, t.operations[found.value].spec);
  }

  /** A step of one batch creation. */
  ghost predicate StepOf(step: Step, call: nat) {
    match step
    case StepSubmitNext(c, _, _, _) => c == call
    case StepAbortBatch(c, _) => c == call
    case StepPublishBatch(c) => c == call
    case StepDropCall(c) => c == call
    case _ => false
  }

  lemma {:induction false} ItemIsTaken(s: State, c: BatchCall)
    requires Inv(s) && CallOk(s.t, c) && s.t.batches[c.batch].ready && c.next < |c.request.ids|
    ensures KeyTaken(s.t, c.principal.user.id, NextItem(c).key, NextItem(c).resource) && UniqueKeys(s.t)
  {
    hide Rest;
    assert BatchRowOk(s.t, c.batch);
  }

  lemma {:induction false} ReplayedItem(s: State, call: nat, w: World, id: string, now: int)
    requires Inv(s) && call in s.calls && s.calls[call].batch in s.t.batches && s.t.batches[s.calls[call].batch].ready
    requires !s.calls[call].failing && s.calls[call].next < |s.calls[call].request.ids|
    ensures var c := s.calls[call];
            var n := Apply(s, StepSubmitNext(call, w, id, now));
            n.t == s.t.(audit := n.t.audit) && call in n.calls
                && (n.calls[call].failing <==> !Accepted(s.t, w, c.principal, NextItem(c), now))
  {
    hide Inv, Admit, Submit, AfterSubmit, Existing, Accepted, UniqueKeys, KeyTaken;
    var c := s.calls[call];
    CallIsOk(s, call);
    ItemIsTaken(s, c);
    hide CallOk;
    TakenKey(s.t, w, c.principal, NextItem(c), id, now);
    AfterSubmitFrame(s, Submit(s.t, w, c.principal, NextItem(c), id, now).0, id, Origin(w, c.principal, NextItem(c)));
  }

  /** Publishing a ready batch again changes nothing. */
  lemma {:induction false} Republished(t: Tables, b: BatchId)
    requires b in t.batches && t.batches[b].ready
    ensures PublishBatch(t, b) == t
  {
    assert t.batches[b := t.batches[b].(ready := true)] == t.batches;
  }

  /** Aborting cancels what is pending, so it changes a row exactly if something is. */
  lemma {:induction false} Aborted(t: Tables, b: BatchId, now: int)
    ensures var n := AbortBatch(t, b, now);
            && n == t.(operations := n.operations)
            && (n.operations == t.operations <==> PendingOf(t, b) == {})
            && (forall x :: x in PendingOf(t, b) ==> x in n.operations && n.operations[x].state.Cancelled?)
  {
    var n := AbortBatch(t, b, now);
    if x :| x in PendingOf(t, b) {
      assert n.operations[x].state.Cancelled? && !t.operations[x].state.Cancelled?;
    } else {
      assert PendingOf(t, b) == {};
      assert n.operations == t.operations;
    }
  }

  /**
   * Replaying a ready batch, step by step and under any interleaving: no row appears, and rows change
   * if and only if the replay is aborted while something is pending; it comes to be aborted if and
   * only if an item is not admitted now or its key was bound to another request.
   */
  lemma {:induction false} ReplayExactly(s: State, call: nat, step: Step)
    requires Inv(s) && call in s.calls && s.calls[call].batch in s.t.batches && s.t.batches[s.calls[call].batch].ready
    requires StepOf(step, call)
    ensures var c, n := s.calls[call], Apply(s, step);
            && n.t == s.t.(operations := n.t.operations, audit := n.t.audit)
            && (n.t.operations != s.t.operations <==>
                step.StepAbortBatch? && c.failing && PendingOf(s.t, c.batch) != {})
            && (step.StepAbortBatch? && c.failing ==> n.t == AbortBatch(s.t, c.batch, step.now))
            && (!c.failing && call in n.calls && n.calls[call].failing <==>
                  step.StepSubmitNext? && !c.failing && c.next < |c.request.ids|
                      && !Accepted(s.t, step.w, c.principal, NextItem(c), step.now))
  {
    hide Inv, Accepted, Submit, PendingOf, PublishBatch, AbortBatch;
    var c := s.calls[call];
    match step
    case StepSubmitNext(_, w, id, now) =>
      if !c.failing && c.next < |c.request.ids| {
        ReplayedItem(s, call, w, id, now);
      }
    case StepAbortBatch(_, now) => Aborted(s.t, c.batch, now);
    case StepPublishBatch(_) => Republished(s.t, c.batch);
    case StepDropCall(_) =>
  }

  // Replaying is therefore not always harmless: the reason is not part of what the batch is bound to,
  // so a replay with a reason that is too short or too long passes every check made before the items
  // are submitted and then cancels every operation of the batch that has not started.

  ghost function BatchOf(open: Step): BatchRequest
    requires open.StepOpenBatch?
  {
    BatchRequest(open.ids, open.req.action, open.req.parameters, open.size, open.threshold, open.continueOnError)
  }

  /** The step replays a batch that is ready, and passes the checks of a batch request. */
  ghost predicate Replays(s: State, open: Step) {
    && open.StepOpenBatch? && open.call !in s.calls && BatchObjection(open.w, open.p, open.req, BatchOf(open)).None?
    && var batch := BatchId(open.p.user.id, open.req.key);
       batch in s.t.batches && s.t.batches[batch].ready && s.t.batches[batch].request == BatchOf(open)
  }

  lemma {:induction false} BadReasonCancelsBatch(s: State, open: Step, w: World, id: string, now: int)
    requires Replays(s, open) && !ReasonFits(open.req.reason)
    ensures var n := Apply(Apply(Apply(s, open), StepSubmitNext(open.call, w, id, now)),
        StepAbortBatch(open.call, now)).t;
            var batch := BatchId(open.p.user.id, open.req.key);
            && n == AbortBatch(s.t, batch, now)
            && (forall x :: x in PendingOf(s.t, batch) ==> x in n.operations && n.operations[x].state.Cancelled?)
  {
    Aborted(s.t, BatchId(open.p.user.id, open.req.key), now);
    ReplayOpens(s, open);
    hide Apply, Replays, ReasonFits, AbortBatch, PendingOf;
    var s1 := Apply(s, open);
    BadReasonFails(s1, open.call, w, id, now);
    FailingAborts(Apply(s1, StepSubmitNext(open.call, w, id, now)), open.call, now);
  }

  lemma {:induction false} ReplayOpens(s: State, open: Step)
    requires Replays(s, open)
    ensures Apply(s, open) == s.(calls := s.calls[open.call := BatchCall(open.p, BatchId(open.p.user.id, open.req.key),
        BatchOf(open), open.req, 0, false)])
    ensures |open.ids| > 0
  {
    Shape(open.w, open.p, open.req, BatchOf(open));
    hide BatchObjection;
  }

  lemma {:induction false} BadReasonFails(s: State, call: nat, w: World, id: string, now: int)
    requires call in s.calls && !s.calls[call].failing && s.calls[call].next < |s.calls[call].request.ids|
    requires !ReasonFits(s.calls[call].template.reason)
    ensures var n := Apply(s, StepSubmitNext(call, w, id, now));
            n == s.(calls := n.calls) && call in n.calls && n.calls[call] == s.calls[call].(failing := true)
  {
    hide Authorize, Insert, ReasonFits;
    assert Admit(w, s.calls[call].principal, NextItem(s.calls[call]), now).Refused?;
  }

  lemma {:induction false} FailingAborts(s: State, call: nat, now: int)
    requires call in s.calls && s.calls[call].failing
    ensures Apply(s, StepAbortBatch(call, now)).t == AbortBatch(s.t, s.calls[call].batch, now)
  {
    hide AbortBatch;
  }
}
