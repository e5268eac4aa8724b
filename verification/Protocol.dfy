/**
 * The whole protocol as a machine over atomic steps. Every transaction is one step, any number of
 * workers and callers take steps in any order, each step names the clock it reads and the world it
 * sees, and nothing obliges a worker to renew, to finish or to finish in time.
 */
module Protocol {
  import opened Results
  import opened Rbac
  import opened Policy
  import opened Tables
  import opened Engine
  import opened Worker
  import Utf8
  import opened Invariants

  /** How far a claimer is: it claimed, it passed the gate in a world and renewed, it called the adapter. */
  datatype Phase = Claimed | Cleared(world: World, at: int) | Called

  /** A call of the adapter, with the world the gate was passed in. */
  datatype Execution = Execution(operation: string, world: World, now: int)

  /** The circumstances of a submission. */
  datatype Origin = Origin(world: World, principal: Principal, request: Request)

  /** A decision on an operation that waited for approval. */
  datatype Approval = Approval(approver: Principal, granted: bool)

  /** A batch creation in progress. */
  datatype BatchCall = BatchCall(
    principal: Principal, batch: BatchId, request: BatchRequest, template: Request, next: nat, failing: bool)

  /**
   * The tables, the work in progress and three records kept only to speak of the past. `inFlight`
   * holds the operations whose claimer has not reported yet, and how far it is.
   */
  datatype State = State(
    t: Tables, inFlight: map<string, Phase>, calls: map<nat, BatchCall>,
    executions: seq<Execution>, origins: map<string, Origin>, approvals: map<string, Approval>)

  datatype Step =
    | StepSubmit(w: World, p: Principal, req: Request, id: string, now: int)
    | StepApprove(p: Principal, id: string, approve: bool, reason: string, now: int)
    | StepCancel(p: Principal, id: string, now: int)
    | StepOpenBatch(call: nat, w: World, p: Principal, req: Request, ids: seq<string>, size: int, threshold: int,
        continueOnError: bool)
    | StepSubmitNext(call: nat, w: World, id: string, now: int)
    | StepAbortBatch(call: nat, now: int)
    | StepPublishBatch(call: nat)
    | StepDropCall(call: nat)
    | StepClaim(id: string, worker: string, locked: set<string>, now: int)
    | StepRenew(id: string, now: int)
    | StepClear(id: string, w: World, now: int)
    | StepExecute(id: string)
    | StepFinish(id: string, outcome: OpState, now: int)
    | StepRecover(now: int)
    | StepReconcile(w: World, p: Principal, resource: string, confirmed: bool, reason: string, now: int)

  const INITIAL := State(Tables(map[], map[], map[], multiset{}), map[], map[], [], map[], map[])

  /** The state after a submission that may have inserted row `id`. */
  ghost function AfterSubmit(s: State, n: Tables, id: string, from: Origin): State {
    s.(t := n, origins := if id in n.operations && id !in s.t.operations then s.origins[id := from] else s.origins)
  }

  ghost function SubmitNext(s: State, call: nat, w: World, id: string, now: int): State
    requires call in s.calls
  {
    var c := s.calls[call];
    if c.failing || c.next >= |c.request.ids| then s else
      var item := Item(c.template, c.batch, c.request, c.next);
      var (n, r) := Submit(s.t, w, c.principal, item, id, now);
      var after := if r.Ok? then c.(next := c.next + 1) else c.(failing := true);
      AfterSubmit(s, n, id, Origin(w, c.principal, item)).(calls := s.calls[call := after])
  }

  function Open(s: State, call: nat, w: World, p: Principal, req: Request, b: BatchRequest): State {
    if call in s.calls || BatchObjection(w, p, req, b).Some? then s else
      Shape(w, p, req, b);
      var id := BatchId(p.user.id, req.key);
      var (n, r) := OpenBatch(s.t, id, b);
      s.(t := n, calls := if r.Ok? then s.calls[call := BatchCall(p, id, b, req, 0, false)] else s.calls)
  }

  /** The worker that claimed a row, renewing it. */
  function RenewOf(t: Tables, id: string, now: int): (Tables, Option<Error>)
    requires id in t.operations
  {
    Renew(t, id, t.operations[id].spec.resource, t.operations[id].worker, now)
  }

  ghost function Apply(s: State, step: Step): State {
    var t := s.t;
    match step
    case StepSubmit(w, p, req, id, now) =>
      var alone := req.(batch := None, index := 0);
      AfterSubmit(s, Submit(t, w, p, alone, id, now).0, id, Origin(w, p, alone))
    case StepApprove(p, id, approve, reason, now) =>
      var (n, e) := Approve(t, p, id, approve, reason, now);
      s.(t := n, approvals := if e.None? then s.approvals[id := Approval(p, approve)] else s.approvals)
    case StepCancel(p, id, now) => s.(t := Cancel(t, p, id, now).0)
    case StepOpenBatch(call, w, p, req, ids, size, threshold, continueOnError) =>
      Open(s, call, w, p, req, BatchRequest(ids, req.action, req.parameters, size, threshold, continueOnError))
    case StepSubmitNext(call, w, id, now) =>
      if call in s.calls then SubmitNext(s, call, w, id, now) else s
    case StepAbortBatch(call, now) =>
      if call in s.calls && s.calls[call].failing
      then s.(t := AbortBatch(t, s.calls[call].batch, now), calls := s.calls - {call}) else s
    case StepPublishBatch(call) =>
      if call in s.calls && !s.calls[call].failing && s.calls[call].next == |s.calls[call].request.ids|
      then s.(t := PublishBatch(t, s.calls[call].batch), calls := s.calls - {call}) else s
    case StepDropCall(call) => s.(calls := s.calls - {call})
    case StepClaim(id, worker, locked, now) =>
      if Claimable(t, locked, id) then s.(t := Claim(t, id, worker, now), inFlight := s.inFlight[id := Claimed]) else s
    case StepRenew(id, now) =>
      if id in s.inFlight && id in t.operations then s.(t := RenewOf(t, id, now).0) else s
    case StepClear(id, w, now) =>
      if Clears(s, id, w, now) then s.(t := RenewOf(t, id, now).0, inFlight := s.inFlight[id := Cleared(w, now)]) else s
    case StepExecute(id) =>
      if Executes(s, id) then s.(inFlight := s.inFlight[id := Called],
          executions := s.executions + [Execution(id, s.inFlight[id].world, s.inFlight[id].at)])
      else s
    case StepFinish(id, outcome, now) =>
      if id in s.inFlight && id in t.operations && Outcome(outcome)
      then s.(t := Finish(t, id, t.operations[id].spec.resource, t.operations[id].worker, outcome, now),
          inFlight := s.inFlight - {id})
      else s
    case StepRecover(now) => s.(t := Recover(t, now))
    case StepReconcile(w, p, resource, confirmed, reason, now) =>
      if MayReconcile(w, p, resource, confirmed, reason) then s.(t := Release(t, resource, p.user.id, now)) else s
  }

  /** The worker passes the gate and the renewal after it, for the first time. */
  ghost predicate Clears(s: State, id: string, w: World, now: int) {
    && id in s.inFlight && s.inFlight[id].Claimed? && id in s.t.operations
    && Gate(w, s.t.operations[id].spec, s.t.operations[id].approvalBy).Ok?
    && RenewOf(s.t, id, now).1.None?
  }

  /** The worker has resolved its parameters and calls the adapter; nothing else is read in between. */
  ghost predicate Executes(s: State, id: string) {
    id in s.inFlight && s.inFlight[id].Cleared?
  }

  // ------------------------------------------------------------------ the invariant of the machine

  ghost predicate CallOk(t: Tables, c: BatchCall) {
    && c.batch in t.batches
    && t.batches[c.batch].request == c.request
    && c.batch == BatchId(c.principal.user.id, c.template.key)
    && c.next <= |c.request.ids|
    && forall i :: 0 <= i < c.next ==> ItemTaken(t, c.batch, c.request.ids[i])
  }

  ghost predicate Calls(s: State) {
    forall k :: k in s.calls ==> CallOk(s.t, s.calls[k])
  }

  ghost predicate Flights(s: State) {
    forall id :: id in s.inFlight ==>
      && id in s.t.operations && Started(s.t.operations[id])
      && (s.inFlight[id].Cleared? ==> Gate(s.inFlight[id].world, s.t.operations[id].spec,
          s.t.operations[id].approvalBy).Ok?)
  }

  /** The columns of an operation are those of its submission, which was authorized. */
  ghost predicate OriginOk(spec: OpSpec, from: Origin) {
    var w, p, req := from.world, from.principal, from.request;
    && spec.requester == p.user.id && spec.authMfa == p.mfa && spec.tokenId == p.tokenId
    && spec.resource == req.resource && spec.action == req.action && spec.parameters == req.parameters
    && spec.agent == req.agent && spec.mode == req.mode && spec.key == req.key
    && spec.resource in w.resources
    && spec.host == w.resources[spec.resource].hostId && spec.host in w.hosts
    && spec.environment == w.hosts[spec.host].environment
    && TargetOf(w, w.hosts[spec.host], w.resources[spec.resource]).Ok?
    && spec.target == Some(TargetOf(w, w.hosts[spec.host], w.resources[spec.resource]).value)
    && Authorize(w, p, w.resources[spec.resource], w.hosts[spec.host], spec.action, spec.agent, spec.mode).Ok?
    && !ReadOnly(spec.action)
  }

  ghost predicate Origins(s: State) {
    forall id :: id in s.t.operations ==> id in s.origins && OriginOk(s.t.operations[id].spec, s.origins[id])
  }

  /**
   * Who decided was someone else, was allowed to approve, and had passed MFA if it was required; what
   * was not granted is rejected and never started.
   */
  ghost predicate ApprovedBy(o: Operation, a: Approval) {
    && a.approver.user.id == o.approvalBy
    && o.approvalBy != o.spec.requester
    && Allowed(a.approver, "operation.approve", o.spec.environment)
    && (a.approver.user.mfaRequired ==> a.approver.mfa)
    && (!a.granted ==> o.state.Rejected? && !Started(o))
  }

  ghost predicate Approvals(s: State) {
    forall id :: id in s.t.operations && s.t.operations[id].approvalBy != "" ==>
      id in s.approvals && ApprovedBy(s.t.operations[id], s.approvals[id])
  }

  /** Every execution passed the gate, for a started operation, and was that operation's only one. */
  ghost predicate ExecutionsOk(s: State) {
    && (forall i :: 0 <= i < |s.executions| ==>
          var e := s.executions[i];
          && e.operation in s.t.operations
          && Started(s.t.operations[e.operation])
          && Gate(e.world, s.t.operations[e.operation].spec, s.t.operations[e.operation].approvalBy).Ok?
          && (e.operation in s.inFlight ==> s.inFlight[e.operation].Called?))
    && (forall i, j :: 0 <= i < j < |s.executions| ==> s.executions[i].operation != s.executions[j].operation)
  }

  /** What holds of the work in progress and of the past. */
  ghost predicate Rest(s: State) {
    Calls(s) && Flights(s) && Origins(s) && Approvals(s) && ExecutionsOk(s)
  }

  ghost predicate Inv(s: State) {
    TablesInv(s.t) && Rest(s)
  }

  /** No operation joins a batch that is ready. */
  ghost predicate NobodyJoins(t: Tables, n: Tables) {
    forall id, b :: b in t.batches && t.batches[b].ready && InBatch(n, id, b) ==> InBatch(t, id, b)
  }

  ghost predicate SameApprovers(t: Tables, n: Tables) {
    forall id :: id in t.operations && id in n.operations ==> n.operations[id].approvalBy == t.operations[id].approvalBy
  }

  lemma {:induction false} CallKept(t: Tables, n: Tables, c: BatchCall)
    requires Grows(t, n) && CallOk(t, c)
    ensures CallOk(n, c)
  {
    forall i | 0 <= i < c.next ensures ItemTaken(n, c.batch, c.request.ids[i]) {
      ItemStays(t, n, c.batch, c.request.ids[i]);
    }
  }

  /** Growth of the tables keeps what is known about the work in progress and the past. */
  lemma {:induction false} GrowthCarries(s: State, n: Tables)
    requires Grows(s.t, n) && Calls(s) && Flights(s) && ExecutionsOk(s)
    ensures Calls(s.(t := n)) && Flights(s.(t := n)) && ExecutionsOk(s.(t := n))
  {
    hide Gate;
    var m := s.(t := n);
    forall k | k in m.calls ensures CallOk(n, m.calls[k]) {
      CallKept(s.t, n, s.calls[k]);
    }
    forall i | 0 <= i < |m.executions| ensures
      var e := m.executions[i];
      && e.operation in n.operations && Started(n.operations[e.operation])
      && Gate(e.world, n.operations[e.operation].spec, n.operations[e.operation].approvalBy).Ok?
    {
      var id := s.executions[i].operation;
      assert Forward(s.t.operations[id], n.operations[id]);
    }
  }

  lemma {:induction false} OriginsKept(s: State, n: Tables)
    requires Origins(s) && Grows(s.t, n) && n.operations.Keys == s.t.operations.Keys
    ensures Origins(s.(t := n))
  {
    hide OriginOk;
    forall id | id in n.operations ensures id in s.origins && OriginOk(n.operations[id].spec, s.origins[id]) {
      assert Forward(s.t.operations[id], n.operations[id]);
    }
  }

  lemma {:induction false} ApprovalsKept(s: State, n: Tables)
    requires Approvals(s) && Grows(s.t, n) && n.operations.Keys == s.t.operations.Keys && SameApprovers(s.t, n)
    ensures Approvals(s.(t := n))
  {
    forall id | id in n.operations && n.operations[id].approvalBy != ""
        ensures id in s.approvals && ApprovedBy(n.operations[id], s.approvals[id]) {
      assert Forward(s.t.operations[id], n.operations[id]);
    }
  }

  /** Nobody joins a batch when no row appears. */
  lemma {:induction false} SameRowsNobodyJoins(t: Tables, n: Tables)
    requires Grows(t, n) && n.operations.Keys == t.operations.Keys
    ensures NobodyJoins(t, n)
  {
    forall id, b | b in t.batches && InBatch(n, id, b) ensures InBatch(t, id, b) {
      assert Forward(t.operations[id], n.operations[id]);
    }
  }

  /** A step that only updates existing rows, and no approver, keeps them. */
  lemma {:induction false} UpdateStep(s: State, n: Tables)
    requires Rest(s) && Update(s.t, n) && SameApprovers(s.t, n)
    ensures Rest(s.(t := n)) && NobodyJoins(s.t, n)
  {
    GrowthCarries(s, n);
    OriginsKept(s, n);
    ApprovalsKept(s, n);
    SameRowsNobodyJoins(s.t, n);
  }

  // ------------------------------------------------------------------ each step keeps the invariant

  /** What an admitted submission carries over from its request and from the world. */
  lemma {:induction false} AdmittedSpec(w: World, p: Principal, req: Request, now: int)
    requires Admit(w, p, req, now).Admitted?
    ensures var spec := Admit(w, p, req, now).spec;
            && spec.requester == p.user.id && spec.resource == req.resource && spec.key == req.key
            && spec.batch == req.batch && spec.batchIndex == req.index && spec.requestHash == Body(req)
            && spec.target.Some? && OriginOk(spec, Origin(w, p, req))
  {
    hide Authorize;
  }

  lemma {:induction false} RefusedKeeps(s: State, p: Principal, req: Request, id: string, from: Origin)
    requires Inv(s)
    ensures var n := RecordRefusal(s.t, p, req);
            Inv(AfterSubmit(s, n, id, from)) && Grows(s.t, n) && NobodyJoins(s.t, n)
  {
    var n := RecordRefusal(s.t, p, req);
    RefusalKeeps(s.t, p, req);
    assert SameApprovers(s.t, n);
    hide TablesInv, Rest, Grows, NobodyJoins, SameApprovers;
    UpdateStep(s, n);
    assert AfterSubmit(s, n, id, from) == s.(t := n);
  }

  lemma {:induction false} InsertedKeeps(s: State, from: Origin, id: string, spec: OpSpec, approval: bool)
    requires Inv(s) && Fits(s.t, spec) && OriginOk(spec, from)
    ensures var (n, r) := Insert(s.t, id, spec, approval);
            && Inv(AfterSubmit(s, n, id, from)) && Grows(s.t, n) && NobodyJoins(s.t, n)
            && (r.Ok? ==> KeyTaken(n, spec.requester, spec.key, spec.resource))
            && n.leases == s.t.leases && n.batches == s.t.batches
  {
    hide TablesInv, Rest, Grows, Fits, Insert, NobodyJoins, KeyTaken, OriginOk;
    InsertKeeps(s.t, id, spec, approval);
    AfterInsert(s, Insert(s.t, id, spec, approval).0, id, from, spec, approval);
  }

  lemma {:induction false} SubmitKeeps(s: State, w: World, p: Principal, req: Request, id: string, now: int)
    requires Inv(s)
    requires Admit(w, p, req, now).Admitted? ==> Fits(s.t, Admit(w, p, req, now).spec)
    ensures var (n, r) := Submit(s.t, w, p, req, id, now);
            && Inv(AfterSubmit(s, n, id, Origin(w, p, req))) && Grows(s.t, n) && NobodyJoins(s.t, n)
            && (r.Ok? ==> KeyTaken(n, p.user.id, req.key, req.resource))
            && n.leases == s.t.leases && n.batches == s.t.batches
  {
    hide Inv, Grows, Fits, Admit, Insert, NobodyJoins, KeyTaken, OriginOk;
    match Admit(w, p, req, now)
    case Refused(e, recorded) =>
      GrowsItself(s.t);
      RefusedKeeps(s, p, req, id, Origin(w, p, req));
    case Admitted(spec, approval) =>
      AdmittedSpec(w, p, req, now);
      InsertedKeeps(s, Origin(w, p, req), id, spec, approval);
  }

  lemma {:induction false} AfterInsert(s: State, n: Tables, id: string, from: Origin, spec: OpSpec, approval: bool)
    requires Rest(s) && Grows(s.t, n) && OriginOk(spec, from)
    requires n == s.t || (id !in s.t.operations && n.operations == s.t.operations[id := NewOperation(spec, approval)]
                          && (spec.batch.Some? && spec.batch.value in s.t.batches ==>
                              !s.t.batches[spec.batch.value].ready))
    ensures Rest(AfterSubmit(s, n, id, from)) && NobodyJoins(s.t, n)
  {
    hide OriginOk, ApprovedBy, Gate;
    GrowthCarries(s, n);
    var m := AfterSubmit(s, n, id, from);
    InsertOrigins(s, n, id, from, spec, approval);
    forall x | x in n.operations && n.operations[x].approvalBy != ""
        ensures x in m.approvals && ApprovedBy(n.operations[x], m.approvals[x]) {
      assert x in s.t.operations && n.operations[x] == s.t.operations[x];
    }
    assert m == s.(t := n).(origins := m.origins);
    OriginsOnly(s.(t := n), m.origins);
  }

  lemma {:induction false} OriginsOnly(s: State, origins: map<string, Origin>)
    requires Calls(s) && Flights(s) && ExecutionsOk(s)
    ensures var m := s.(origins := origins); Calls(m) && Flights(m) && ExecutionsOk(m)
  {}

  lemma {:induction false} InsertOrigins(s: State, n: Tables, id: string, from: Origin, spec: OpSpec, approval: bool)
    requires Origins(s) && OriginOk(spec, from)
    requires n == s.t || (id !in s.t.operations && n.operations == s.t.operations[id := NewOperation(spec, approval)])
    ensures Origins(AfterSubmit(s, n, id, from))
  {
    var m := AfterSubmit(s, n, id, from);
    forall x | x in m.t.operations ensures x in m.origins && OriginOk(m.t.operations[x].spec, m.origins[x]) {
      if x in s.t.operations {
        assert m.t.operations[x] == s.t.operations[x];
        assert OriginOk(s.t.operations[x].spec, s.origins[x]);
      }
    }
  }

  lemma {:induction false} SubmitStep(s: State, w: World, p: Principal, req: Request, id: string, now: int)
    requires Inv(s)
    ensures var n := Apply(s, StepSubmit(w, p, req, id, now)); Inv(n) && Grows(s.t, n.t) && NobodyJoins(s.t, n.t)
  {
    hide TablesInv, Rest, Grows, NobodyJoins, Submit, Admit, OriginOk;
    var alone := req.(batch := None, index := 0);
    if Admit(w, p, alone, now).Admitted? {
      AdmittedSpec(w, p, alone, now);
    }
    SubmitKeeps(s, w, p, alone, id, now);
  }

  /** The item a batch creation submits next belongs to its batch. */
  lemma {:induction false} ItemFits(t: Tables, c: BatchCall, w: World, now: int)
    requires CallOk(t, c) && c.next < |c.request.ids|
    ensures var a := Admit(w, c.principal, Item(c.template, c.batch, c.request, c.next), now);
            a.Admitted? ==> Fits(t, a.spec)
  {
    var req := Item(c.template, c.batch, c.request, c.next);
    if Admit(w, c.principal, req, now).Admitted? {
      AdmittedSpec(w, c.principal, req, now);
    }
  }

  lemma {:induction false} CallAdvances(s: State, call: nat, c: BatchCall)
    requires Rest(s) && CallOk(s.t, c)
    ensures Rest(s.(calls := s.calls[call := c]))
  {
    hide TablesInv, Gate, OriginOk, ApprovedBy, CallOk;
    var m := s.(calls := s.calls[call := c]);
    assert Calls(m) && Flights(m) && Origins(m) && Approvals(m) && ExecutionsOk(m);
  }

  /** Submitting an item keeps the invariant, and brings the batch creation one item further or fails it. */
  lemma {:induction false} ItemStep(s: State, c: BatchCall, w: World, id: string, now: int)
    requires Inv(s) && CallOk(s.t, c) && c.next < |c.request.ids|
    ensures var item := Item(c.template, c.batch, c.request, c.next);
            var (n, r) := Submit(s.t, w, c.principal, item, id, now);
            && Inv(AfterSubmit(s, n, id, Origin(w, c.principal, item))) && Grows(s.t, n) && NobodyJoins(s.t, n)
            && CallOk(n, if r.Ok? then c.(next := c.next + 1) else c.(failing := true))
  {
    hide TablesInv, Rest, Grows, NobodyJoins, Submit, Admit, Fits, KeyTaken;
    var req := Item(c.template, c.batch, c.request, c.next);
    ItemFits(s.t, c, w, now);
    SubmitKeeps(s, w, c.principal, req, id, now);
    CallKept(s.t, Submit(s.t, w, c.principal, req, id, now).0, c);
  }

  lemma {:induction false} CallIsOk(s: State, call: nat)
    requires Inv(s) && call in s.calls
    ensures CallOk(s.t, s.calls[call])
  {
    hide TablesInv, Gate, OriginOk, ApprovedBy, CallOk;
  }

  lemma {:induction false} CallAdvanced(s: State, call: nat, c: BatchCall)
    requires Inv(s) && CallOk(s.t, c)
    ensures Inv(s.(calls := s.calls[call := c]))
  {
    hide TablesInv, CallOk, Rest;
    CallAdvances(s, call, c);
  }

  lemma {:induction false} SubmitNextStep(s: State, call: nat, w: World, id: string, now: int)
    requires Inv(s) && call in s.calls
    ensures var n := SubmitNext(s, call, w, id, now); Inv(n) && Grows(s.t, n.t) && NobodyJoins(s.t, n.t)
  {
    hide Inv, TablesInv, Rest, Grows, NobodyJoins, Submit, CallOk, AfterSubmit;
    var c := s.calls[call];
    CallIsOk(s, call);
    if !c.failing && c.next < |c.request.ids| {
      ItemStep(s, c, w, id, now);
      var item := Item(c.template, c.batch, c.request, c.next);
      var (n, r) := Submit(s.t, w, c.principal, item, id, now);
      var from := Origin(w, c.principal, item);
      AfterSubmitFrame(s, n, id, from);
      CallAdvanced(AfterSubmit(s, n, id, from), call, if r.Ok? then c.(next := c.next + 1) else c.(failing := true));
    } else {
      GrowsItself(s.t);
    }
  }

  lemma {:induction false} AfterSubmitFrame(s: State, n: Tables, id: string, from: Origin)
    ensures AfterSubmit(s, n, id, from).t == n && AfterSubmit(s, n, id, from).calls == s.calls
  {}

  lemma {:induction false} GrowsItself(t: Tables)
    ensures Grows(t, t) && NobodyJoins(t, t)
  {}

  /** A decision is made on a waiting operation, and is on record as it was made. */
  lemma {:induction false} DecidedIs(t: Tables, p: Principal, id: string, approve: bool, reason: string, now: int)
    ensures var (n, e) := Approve(t, p, id, approve, reason, now);
            && (e.Some? ==> n == t)
            && (e.None? ==>
                  && id in t.operations && t.operations[id].state.WaitingApproval?
                  && n == Decided(t, id, p.user.id, approve, now)
                  && (!Started(t.operations[id]) ==> ApprovedBy(n.operations[id], Approval(p, approve))))
  {
    hide Allowed, Utf8.Size;
  }

  lemma {:induction false} DecidedStep(s: State, p: Principal, id: string, approve: bool, now: int)
    requires Rest(s) && id in s.t.operations && Grows(s.t, Decided(s.t, id, p.user.id, approve, now))
    requires ApprovedBy(Decided(s.t, id, p.user.id, approve, now).operations[id], Approval(p, approve))
    ensures var n := Decided(s.t, id, p.user.id, approve, now);
            Rest(s.(t := n, approvals := s.approvals[id := Approval(p, approve)])) && NobodyJoins(s.t, n)
  {
    hide Gate, OriginOk, Allowed;
    var n := Decided(s.t, id, p.user.id, approve, now);
    assert n.operations.Keys == s.t.operations.Keys;
    GrowthCarries(s, n);
    OriginsKept(s, n);
    SameRowsNobodyJoins(s.t, n);
    ApprovalRecorded(s, n, id, Approval(p, approve));
  }

  lemma {:induction false} ApprovalRecorded(s: State, n: Tables, id: string, a: Approval)
    requires Approvals(s) && id in n.operations && ApprovedBy(n.operations[id], a)
    requires n.operations.Keys == s.t.operations.Keys
    requires forall x :: x in n.operations && x != id ==> n.operations[x] == s.t.operations[x]
    requires Calls(s.(t := n)) && Flights(s.(t := n)) && Origins(s.(t := n)) && ExecutionsOk(s.(t := n))
    ensures Rest(s.(t := n, approvals := s.approvals[id := a]))
  {
    hide Gate, OriginOk, ApprovedBy;
    var m := s.(t := n, approvals := s.approvals[id := a]);
    assert Approvals(m);
    assert Calls(m) && Flights(m) && Origins(m) && ExecutionsOk(m);
  }

  lemma {:induction false} PendingNotStarted(t: Tables, id: string)
    requires TablesInv(t) && id in t.operations && Pending(t.operations[id].state)
    ensures !Started(t.operations[id])
  {
    assert Lifecycle(t.operations[id]);
  }

  lemma {:induction false} ApproveStep(s: State, p: Principal, id: string, approve: bool, reason: string, now: int)
    requires Inv(s)
    ensures var (n, e) := Approve(s.t, p, id, approve, reason, now);
            Inv(s.(t := n, approvals := if e.None? then s.approvals[id := Approval(p, approve)] else s.approvals))
                && Grows(s.t, n)
                && NobodyJoins(s.t, n)
  {
    GrowsItself(s.t);
    hide TablesInv, Rest, Grows, NobodyJoins, Approve, ApprovedBy;
    DecidedIs(s.t, p, id, approve, reason, now);
    if Approve(s.t, p, id, approve, reason, now).1.None? {
      PendingNotStarted(s.t, id);
      DecidedKeeps(s.t, id, p.user.id, approve, now);
      DecidedStep(s, p, id, approve, now);
    }
  }

  lemma {:induction false} CancelIs(t: Tables, p: Principal, id: string, now: int)
    ensures var (n, e) := Cancel(t, p, id, now);
            && (e.Some? ==> n == t)
            && (e.None? ==> id in t.operations && !Terminal(t.operations[id].state)
                            && n == CancelEffect(t, id, p.user.id, now) && SameApprovers(t, n))
  {
    hide Allowed;
  }

  lemma {:induction false} CancelStep(s: State, p: Principal, id: string, now: int)
    requires Inv(s)
    ensures var n := Cancel(s.t, p, id, now).0; Inv(s.(t := n)) && Grows(s.t, n) && NobodyJoins(s.t, n)
  {
    GrowsItself(s.t);
    hide TablesInv, Rest, Grows, NobodyJoins, Cancel;
    CancelIs(s.t, p, id, now);
    if Cancel(s.t, p, id, now).1.None? {
      CancelKeeps(s.t, id, p.user.id, now);
      UpdateStep(s, CancelEffect(s.t, id, p.user.id, now));
    }
  }

  /** The checks on a batch request leave one of the proper shape. */
  lemma {:induction false} Shape(w: World, p: Principal, req: Request, b: BatchRequest)
    requires BatchObjection(w, p, req, b).None?
    ensures WellShaped(b)
  {
    NoObjectionMeans(w, p, req, b.ids, |b.ids|);
    hide ItemObjection;
  }

  lemma {:induction false} OpenRest(s: State, call: nat, p: Principal, req: Request, b: BatchRequest)
    requires Rest(s) && WellShaped(b)
    requires var (n, r) := OpenBatch(s.t, BatchId(p.user.id, req.key), b);
             Grows(s.t, n) && n.operations == s.t.operations
             && (r.Ok? ==>
                   BatchId(p.user.id, req.key) in n.batches && n.batches[BatchId(p.user.id, req.key)].request == b)
    ensures var id := BatchId(p.user.id, req.key);
            var (n, r) := OpenBatch(s.t, id, b);
            Rest(s.(t := n, calls := if r.Ok? then s.calls[call := BatchCall(p, id, b, req, 0, false)] else s.calls))
                && NobodyJoins(s.t, n)
  {
    var id := BatchId(p.user.id, req.key);
    var (n, r) := OpenBatch(s.t, id, b);
    GrowthCarries(s, n);
    assert Origins(s.(t := n)) && Approvals(s.(t := n));
    if r.Ok? {
      CallAdvances(s.(t := n), call, BatchCall(p, id, b, req, 0, false));
    }
  }

  lemma {:induction false} OpenStep(s: State, call: nat, w: World, p: Principal, req: Request, b: BatchRequest)
    requires Inv(s)
    ensures var n := Open(s, call, w, p, req, b); Inv(n) && Grows(s.t, n.t) && NobodyJoins(s.t, n.t)
  {
    GrowsItself(s.t);
    hide TablesInv, Rest, Grows, NobodyJoins, BatchObjection;
    if call !in s.calls && BatchObjection(w, p, req, b).None? {
      Shape(w, p, req, b);
      OpenKeeps(s.t, BatchId(p.user.id, req.key), b);
      OpenRest(s, call, p, req, b);
    }
  }

  lemma {:induction false} EndCallStep(s: State, n: Tables, call: nat)
    requires Inv(s.(t := n))
    ensures Inv(s.(t := n, calls := s.calls - {call}))
  {
    hide TablesInv, Gate, OriginOk, ApprovedBy, CallOk;
    var m := s.(t := n, calls := s.calls - {call});
    assert Calls(m) && Flights(m) && Origins(m) && Approvals(m) && ExecutionsOk(m);
  }

  lemma {:induction false} AbortStep(s: State, call: nat, now: int)
    requires Inv(s) && call in s.calls
    ensures var n := AbortBatch(s.t, s.calls[call].batch, now); Inv(s.(t := n)) && Grows(s.t, n) && NobodyJoins(s.t, n)
  {
    hide TablesInv, Rest, Grows, NobodyJoins;
    AbortKeeps(s.t, s.calls[call].batch, now);
    UpdateStep(s, AbortBatch(s.t, s.calls[call].batch, now));
  }

  lemma {:induction false} PublishStep(s: State, call: nat)
    requires Inv(s) && call in s.calls && s.calls[call].next == |s.calls[call].request.ids|
    ensures var n := PublishBatch(s.t, s.calls[call].batch); Inv(s.(t := n)) && Grows(s.t, n) && NobodyJoins(s.t, n)
  {
    assert CallOk(s.t, s.calls[call]);
    PublishKeeps(s.t, s.calls[call].batch);
    GrowthCarries(s, PublishBatch(s.t, s.calls[call].batch));
  }

  lemma {:induction false} TakeOff(s: State, id: string)
    requires Rest(s) && id in s.t.operations && Started(s.t.operations[id])
    requires forall i :: 0 <= i < |s.executions| ==> s.executions[i].operation != id
    ensures Rest(s.(inFlight := s.inFlight[id := Claimed]))
  {
    hide Gate, OriginOk, ApprovedBy;
    var m := s.(inFlight := s.inFlight[id := Claimed]);
    assert Calls(m) && Flights(m) && Origins(m) && Approvals(m) && ExecutionsOk(m);
  }

  lemma {:induction false} ClaimRest(s: State, id: string, worker: string, now: int)
    requires Rest(s) && id in s.t.operations && !Started(s.t.operations[id]) && Grows(s.t, Claim(s.t, id, worker, now))
    ensures var n := Claim(s.t, id, worker, now);
            Rest(s.(t := n, inFlight := s.inFlight[id := Claimed])) && NobodyJoins(s.t, n)
  {
    hide Gate, OriginOk, ApprovedBy;
    var n := Claim(s.t, id, worker, now);
    assert forall i :: 0 <= i < |s.executions| ==> s.executions[i].operation != id;
    assert n.operations.Keys == s.t.operations.Keys;
    GrowthCarries(s, n);
    OriginsKept(s, n);
    ApprovalsKept(s, n);
    SameRowsNobodyJoins(s.t, n);
    TakeOff(s.(t := n), id);
  }

  lemma {:induction false} ClaimStep(s: State, id: string, worker: string, now: int)
    requires Inv(s) && Eligible(s.t, id)
    ensures var n := s.(t := Claim(s.t, id, worker, now), inFlight := s.inFlight[id := Claimed]);
            Inv(n) && Grows(s.t, n.t) && NobodyJoins(s.t, n.t)
  {
    ClaimKeeps(s.t, id, worker, now);
    assert Lifecycle(s.t.operations[id]);
    ClaimRest(s, id, worker, now);
  }

  lemma {:induction false} RenewStep(s: State, id: string, now: int)
    requires Inv(s) && id in s.t.operations
    ensures var n := RenewOf(s.t, id, now).0; Inv(s.(t := n)) && Grows(s.t, n) && NobodyJoins(s.t, n)
  {
    hide TablesInv, Rest, Grows, NobodyJoins;
    RenewKeeps(s.t, id, s.t.operations[id].worker, now);
    UpdateStep(s, RenewOf(s.t, id, now).0);
  }

  lemma {:induction false} ClearRest(s: State, id: string, w: World, now: int)
    requires Rest(s) && id in s.t.operations && Gate(w, s.t.operations[id].spec, s.t.operations[id].approvalBy).Ok?
    requires id in s.inFlight && s.inFlight[id].Claimed?
    ensures Rest(s.(inFlight := s.inFlight[id := Cleared(w, now)]))
  {
    hide Gate, OriginOk, ApprovedBy;
    var m := s.(inFlight := s.inFlight[id := Cleared(w, now)]);
    assert forall i :: 0 <= i < |s.executions| ==> s.executions[i].operation != id;
    assert Calls(m) && Flights(m) && Origins(m) && Approvals(m) && ExecutionsOk(m);
  }

  lemma {:induction false} ClearStep(s: State, id: string, w: World, now: int)
    requires Inv(s) && Clears(s, id, w, now)
    ensures var n := RenewOf(s.t, id, now).0;
            Inv(s.(t := n, inFlight := s.inFlight[id := Cleared(w, now)])) && Grows(s.t, n) && NobodyJoins(s.t, n)
  {
    RenewStep(s, id, now);
    ClearRest(s.(t := RenewOf(s.t, id, now).0), id, w, now);
  }

  lemma {:induction false} ExecuteStep(s: State, id: string)
    requires Inv(s) && Executes(s, id)
    ensures Inv(s.(inFlight := s.inFlight[id := Called],
        executions := s.executions + [Execution(id, s.inFlight[id].world, s.inFlight[id].at)]))
  {
    hide Gate, OriginOk, ApprovedBy, TablesInv;
    var m := s.(inFlight := s.inFlight[id := Called],
        executions := s.executions + [Execution(id, s.inFlight[id].world, s.inFlight[id].at)]);
    assert forall i :: 0 <= i < |s.executions| ==>
        s.executions[i].operation != id && m.executions[i] == s.executions[i];
    assert ExecutionsOk(m);
    assert Calls(m) && Flights(m) && Origins(m) && Approvals(m);
  }

  lemma {:induction false} LandRest(s: State, id: string)
    requires Rest(s)
    ensures Rest(s.(inFlight := s.inFlight - {id}))
  {
    var m := s.(inFlight := s.inFlight - {id});
    assert Calls(m) && Flights(m) && Origins(m) && Approvals(m) && ExecutionsOk(m);
  }

  lemma {:induction false} FinishStep(s: State, id: string, outcome: OpState, now: int)
    requires Inv(s) && id in s.t.operations && Outcome(outcome)
    ensures var n := Finish(s.t, id, s.t.operations[id].spec.resource, s.t.operations[id].worker, outcome, now);
            Inv(s.(t := n, inFlight := s.inFlight - {id})) && Grows(s.t, n) && NobodyJoins(s.t, n)
  {
    hide TablesInv, Rest;
    var n := Finish(s.t, id, s.t.operations[id].spec.resource, s.t.operations[id].worker, outcome, now);
    FinishKeeps(s.t, id, s.t.operations[id].worker, outcome, now);
    UpdateStep(s, n);
    LandRest(s.(t := n), id);
  }

  lemma {:induction false} RecoverStep(s: State, now: int)
    requires Inv(s)
    ensures Inv(s.(t := Recover(s.t, now))) && Grows(s.t, Recover(s.t, now)) && NobodyJoins(s.t, Recover(s.t, now))
  {
    hide TablesInv, Rest, Grows, NobodyJoins;
    RecoverKeeps(s.t, now);
    UpdateStep(s, Recover(s.t, now));
  }

  lemma {:induction false} ReconcileStep(s: State, resource: string, actor: string, now: int)
    requires Inv(s)
    ensures var n := Release(s.t, resource, actor, now); Inv(s.(t := n)) && Grows(s.t, n) && NobodyJoins(s.t, n)
  {
    ReleaseKeeps(s.t, resource, actor, now);
    UpdateStep(s, Release(s.t, resource, actor, now));
  }

  /** A step of a requester or an approver. */
  predicate OfRequester(step: Step) {
    step.StepSubmit? || step.StepApprove? || step.StepCancel? || step.StepOpenBatch? || step.StepSubmitNext?
    || step.StepAbortBatch? || step.StepPublishBatch? || step.StepDropCall?
  }

  lemma {:induction false} RequesterStepKeeps(s: State, step: Step)
    requires Inv(s) && OfRequester(step)
    ensures var n := Apply(s, step); Inv(n) && Grows(s.t, n.t) && NobodyJoins(s.t, n.t)
  {
    hide TablesInv, Rest, Inv, Grows, NobodyJoins, Submit, Approve, Cancel, Open, SubmitNext, AbortBatch, PublishBatch,
        AfterSubmit;
    GrowsItself(s.t);
    match step
    case StepSubmit(w, p, req, id, now) => SubmitStep(s, w, p, req, id, now);
    case StepApprove(p, id, approve, reason, now) => ApproveStep(s, p, id, approve, reason, now);
    case StepCancel(p, id, now) => CancelStep(s, p, id, now);
    case StepOpenBatch(call, w, p, req, ids, size, threshold, continueOnError) =>
      OpenStep(s, call, w, p, req, BatchRequest(ids, req.action, req.parameters, size, threshold, continueOnError));
    case StepSubmitNext(call, w, id, now) => if call in s.calls { SubmitNextStep(s, call, w, id, now); }
    case StepAbortBatch(call, now) =>
      if call in s.calls && s.calls[call].failing {
        AbortStep(s, call, now);
        EndCallStep(s, AbortBatch(s.t, s.calls[call].batch, now), call);
      }
    case StepPublishBatch(call) =>
      if call in s.calls && !s.calls[call].failing && s.calls[call].next == |s.calls[call].request.ids| {
        PublishStep(s, call);
        EndCallStep(s, PublishBatch(s.t, s.calls[call].batch), call);
      }
    case StepDropCall(call) => EndCallStep(s, s.t, call);
  }

  lemma {:induction false} WorkerStepKeeps(s: State, step: Step)
    requires Inv(s) && !OfRequester(step)
    ensures var n := Apply(s, step); Inv(n) && Grows(s.t, n.t) && NobodyJoins(s.t, n.t)
  {
    hide TablesInv, Rest, Inv, Grows, NobodyJoins, Eligible, Claim, RenewOf, Clears, Finish, Recover, MayReconcile,
        Release, Outcome;
    GrowsItself(s.t);
    match step
    case StepClaim(id, worker, locked, now) => if Claimable(s.t, locked, id) { ClaimStep(s, id, worker, now); }
    case StepRenew(id, now) => if id in s.inFlight && id in s.t.operations { RenewStep(s, id, now); }
    case StepClear(id, w, now) => if Clears(s, id, w, now) { ClearStep(s, id, w, now); }
    case StepExecute(id) => if Executes(s, id) { ExecuteStep(s, id); }
    case StepFinish(id, outcome, now) =>
      if id in s.inFlight && id in s.t.operations && Outcome(outcome) { FinishStep(s, id, outcome, now); }
    case StepRecover(now) => RecoverStep(s, now);
    case StepReconcile(w, p, resource, confirmed, reason, now) =>
      if MayReconcile(w, p, resource, confirmed, reason) { ReconcileStep(s, resource, p.user.id, now); }
  }

  /** Every step keeps the invariant, moves rows only forward and lets nobody join a ready batch. */
  lemma {:induction false} StepKeeps(s: State, step: Step)
    requires Inv(s)
    ensures var n := Apply(s, step); Inv(n) && Grows(s.t, n.t) && NobodyJoins(s.t, n.t)
  {
    hide Inv, Grows, NobodyJoins, Apply;
    if OfRequester(step) {
      RequesterStepKeeps(s, step);
    } else {
      WorkerStepKeeps(s, step);
    }
  }
}
