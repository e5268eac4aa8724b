/**
 * What each transaction does, told in rows and columns: which rows it changes and to what, what it
 * records, when it refuses and why. Everything it does not mention stays as it was.
 */
module Effects {
  import opened Results
  import opened Rbac
  import opened Policy
  import opened Tables
  import opened Engine
  import opened Worker
  import Utf8

  // ------------------------------------------------------------------ what a decision rests on

  /** The resource is there, its adapter offers the action and can build it, and the rules permit it. */
  ghost predicate MayAct(w: World, p: Principal, r: Resource, h: Host, action: string, agent: bool, mode: string) {
    Offered(w, r, action) && Permitted(Input(p, r, h, action, agent, mode, w.clocks), w.rules)
  }

  ghost predicate Offered(w: World, r: Resource, action: string) {
    && r.state != "missing" && r.provider in w.adapters
    && r.id in w.adapters[r.provider].capabilities && action in w.adapters[r.provider].capabilities[r.id]
    && (r.id, action) !in w.adapters[r.provider].objections
  }

  /** When an action is authorized, what the decision says, and what refuses it otherwise. */
  lemma {:induction false} AuthorizeMeans(
      w: World, p: Principal, r: Resource, h: Host, action: string, agent: bool, mode: string)
    ensures var a := Authorize(w, p, r, h, action, agent, mode);
            var input := Input(p, r, h, action, agent, mode, w.clocks);
            && (a.Ok? <==> MayAct(w, p, r, h, action, agent, mode))
            && (a.Ok? ==> (a.value.approval <==> NeedsApproval(input, w.rules)) && a.value.risk == Risk(action))
            && (r.state == "missing" ==> a == Err(Denied("resource is no longer present; run discovery")))
            && (r.state != "missing" && r.provider !in w.adapters ==> a == Err(Failure("adapter unavailable")))
            && (r.state != "missing" && r.provider in w.adapters && !Offered(w, r, action) ==>
                  var adapter := w.adapters[r.provider];
                  a == if r.id in adapter.capabilities && action in adapter.capabilities[r.id]
                       then Err(adapter.objections[(r.id, action)]) else Err(Denied("unsupported action")))
            && (Offered(w, r, action) && a.Err? ==> a == Err(Denied(Decide(input, w.rules).reason)))
  {
    hide Decide, Permitted, NeedsApproval, Risk;
    DecisionMeaning(Input(p, r, h, action, agent, mode, w.clocks), w.rules);
  }

  ghost predicate SameConnection(a: Host, b: Host) {
    && a.id == b.id && a.hostname == b.hostname && a.port == b.port && a.username == b.username
    && a.authMethod == b.authMethod && a.secretId == b.secretId && a.fingerprint == b.fingerprint
    && a.environment == b.environment && a.bastionId == b.bastionId
  }

  /** Two resources on two hosts, in two worlds, are reached in the same way: bastion included. */
  ghost predicate SameReach(w: World, h: Host, r: Resource, w': World, h': Host, r': Resource) {
    && SameConnection(h, h')
    && r.externalId == r'.externalId && r.namespace == r'.namespace && r.provider == r'.provider
    && r.kind == r'.kind && r.project == r'.project && r.service == r'.service
    && (h.bastionId != "" ==>
          h.bastionId in w.hosts && h.bastionId in w'.hosts
          && SameConnection(w.hosts[h.bastionId], w'.hosts[h.bastionId]))
  }

  /** The identity of a target tells how it is reached, and nothing else. */
  lemma {:induction false} TargetMeans(w: World, h: Host, r: Resource, w': World, h': Host, r': Resource)
    ensures TargetOf(w, h, r).Ok? <==> h.bastionId == "" || h.bastionId in w.hosts
    ensures TargetOf(w, h, r).Err? ==> TargetOf(w, h, r) == Err(NO_ROWS)
    ensures TargetOf(w, h, r).Ok? && TargetOf(w', h', r').Ok? ==>
              (TargetOf(w, h, r).value == TargetOf(w', h', r').value <==> SameReach(w, h, r, w', h', r'))
  {}

  // ------------------------------------------------------------------ submission

  /** What a request is bound to under its key: all of it but its key, its reason and the two secret references. */
  ghost predicate SameRequest(body: RequestBody, req: Request) {
    && body.resource == req.resource && body.action == req.action && body.agent == req.agent && body.mode == req.mode
    && (forall k :: k in body.parameters <==> k in req.parameters && k !in {"spec_secret_id", "manifest_secret_id"})
    && (forall k :: k in body.parameters ==> body.parameters[k] == req.parameters[k])
  }

  lemma {:induction false} BodyMeans(body: RequestBody, req: Request)
    ensures body == Body(req) <==> SameRequest(body, req)
  {
    if SameRequest(body, req) {
      assert body.parameters == Body(req).parameters;
    }
  }

  /** A request that says what it must, about something that is there. */
  ghost predicate WellPosed(w: World, req: Request) {
    && 1 <= Utf8.Size(req.key) <= 128 && 3 <= Utf8.Size(req.reason) <= 2000 && req.action !in READS
    && req.resource in w.resources && w.resources[req.resource].hostId in w.hosts
  }

  ghost predicate Admissible(w: World, p: Principal, req: Request) {
    && WellPosed(w, req)
    && var r := w.resources[req.resource];
       var h := w.hosts[r.hostId];
       MayAct(w, p, r, h, req.action, req.agent, req.mode) && (h.bastionId == "" || h.bastionId in w.hosts)
  }

  /** The columns of a submitted operation. */
  ghost predicate Columns(spec: OpSpec, w: World, p: Principal, req: Request, now: int)
    requires WellPosed(w, req)
  {
    var r := w.resources[req.resource];
    && spec.requester == p.user.id && spec.authMfa == p.mfa && spec.tokenId == p.tokenId
    && spec.resource == req.resource && spec.host == r.hostId && spec.environment == w.hosts[r.hostId].environment
    && spec.action == req.action && spec.parameters == req.parameters && spec.risk == Risk(req.action)
    && spec.agent == req.agent && spec.mode == req.mode && spec.key == req.key && SameRequest(spec.requestHash, req)
    && spec.target.Some? && TargetOf(w, w.hosts[r.hostId], r) == Ok(spec.target.value)
    && spec.batch == req.batch && spec.batchIndex == req.index && spec.createdAt == now
  }

  ghost predicate ApprovalAsked(w: World, p: Principal, req: Request)
    requires WellPosed(w, req)
  {
    var r := w.resources[req.resource];
    NeedsApproval(Input(p, r, w.hosts[r.hostId], req.action, req.agent, req.mode, w.clocks), w.rules)
  }

  /** Who is admitted, with which columns, and whether an approval is needed; and which refusals are recorded. */
  lemma {:induction false} AdmitMeans(w: World, p: Principal, req: Request, now: int)
    ensures var a := Admit(w, p, req, now);
            && (a.Admitted? <==> Admissible(w, p, req))
            && (a.Admitted? ==> Columns(a.spec, w, p, req, now) && (a.approval <==> ApprovalAsked(w, p, req)))
            && (a.Refused? ==>
                  (a.recorded <==>
                     WellPosed(w, req)
                     && var r := w.resources[req.resource];
                        !MayAct(w, p, r, w.hosts[r.hostId], req.action, req.agent, req.mode)))
  {
    hide Authorize, MayAct, NeedsApproval, Risk, ReadOnly, READS, Body, SameRequest, Utf8.Size, TargetOf;
    ReadsMeans(req.action);
    KeySize(req.key);
    if req.resource in w.resources && w.resources[req.resource].hostId in w.hosts {
      var r := w.resources[req.resource];
      var h := w.hosts[r.hostId];
      AuthorizedExactly(w, p, r, h, req.action, req.agent, req.mode);
      TargetExactly(w, h, r);
      BodyMeans(Body(req), req);
    }
  }

  lemma {:induction false} KeySize(key: string)
    ensures key == "" <==> Utf8.Size(key) == 0
  {
    assert key != "" ==> |key| >= 1;
    assert |""| == 0;
  }

  lemma {:induction false} AuthorizedExactly(
      w: World, p: Principal, r: Resource, h: Host, action: string, agent: bool, mode: string)
    ensures var a := Authorize(w, p, r, h, action, agent, mode);
            && (a.Ok? <==> MayAct(w, p, r, h, action, agent, mode))
            && (a.Ok? ==>
                  (a.value.approval <==> NeedsApproval(Input(p, r, h, action, agent, mode, w.clocks), w.rules)))
            && (a.Ok? ==> a.value.risk == Risk(action))
  {
    hide Authorize, MayAct, NeedsApproval, Risk;
    AuthorizeMeans(w, p, r, h, action, agent, mode);
  }

  lemma {:induction false} TargetExactly(w: World, h: Host, r: Resource)
    ensures TargetOf(w, h, r).Ok? <==> h.bastionId == "" || h.bastionId in w.hosts
  {}

  /** The first thing wrong with a request is what its refusal says. */
  lemma {:induction false} NotAdmittedBecause(w: World, p: Principal, req: Request, now: int)
    requires Admit(w, p, req, now).Refused?
    ensures var e := Admit(w, p, req, now).error;
            if !(1 <= Utf8.Size(req.key) <= 128) then e == Failure("Idempotency-Key required (1..128 characters)")
            else if !(3 <= Utf8.Size(req.reason) <= 2000) then e == Failure("reason must contain 3..2000 characters")
            else if req.action in READS then e == Failure("use resource read endpoint for read actions")
            else if !WellPosed(w, req) then e == NO_ROWS
            else
              var r := w.resources[req.resource];
              var a := Authorize(w, p, r, w.hosts[r.hostId], req.action, req.agent, req.mode);
              if a.Err? then e == a.error else e == NO_ROWS
  {
    hide Authorize, ReadOnly, READS, Utf8.Size;
    ReadsMeans(req.action);
    assert req.key != "" ==> |req.key| >= 1;
    assert Utf8.Size("") == 0 by { assert |""| == 0; }
  }

  /** What a submission does, in each of the five ways it can go. */
  ghost predicate SubmitEffect(
      t: Tables, n: Tables, r: Result<string>, w: World, p: Principal, req: Request, id: string, now: int)
  {
    && n.leases == t.leases && n.batches == t.batches
    && if !Admissible(w, p, req) then
         r.Err? && n.operations == t.operations && n.audit == t.audit + RefusalEntry(w, p, req)
       else if KeyUsed(t, p, req) then
         && n == t
         && (forall x :: HasKey(t, x, p.user.id, req.key) ==>
               r == if SameRequest(t.operations[x].spec.requestHash, req) then Ok(x)
                    else Err(Denied("idempotency key reused with different request")))
       else if id in t.operations then
         n == t && r == Err(Failure("duplicate key value"))
       else
         && r == Ok(id) && Inserted(t, n, id, w, p, req, now)
  }

  ghost predicate KeyUsed(t: Tables, p: Principal, req: Request) {
    exists x :: HasKey(t, x, p.user.id, req.key)
  }

  /** A new row, waiting for approval if one is needed, and its audit entry. */
  ghost predicate Inserted(t: Tables, n: Tables, id: string, w: World, p: Principal, req: Request, now: int)
    requires WellPosed(w, req)
  {
    var asked := ApprovalAsked(w, p, req);
    && id in n.operations && n.operations == t.operations[id := n.operations[id]]
    && Columns(n.operations[id].spec, w, p, req, now)
    && n.operations[id] == Operation(n.operations[id].spec, if asked then WaitingApproval
        else Queued, "", "", None, None, None)
    && n.audit == t.audit + multiset{AuditEntry(if asked then ApprovalRequested else Created, p.user.id, id)}
  }

  ghost function RefusalEntry(w: World, p: Principal, req: Request): multiset<AuditEntry> {
    if WellPosed(w, req)
       && var r := w.resources[req.resource];
          !MayAct(w, p, r, w.hosts[r.hostId], req.action, req.agent, req.mode)
    then multiset{AuditEntry(PolicyDenied, p.user.id, req.resource)} else multiset{}
  }

  lemma {:induction false} SubmitMeans(t: Tables, w: World, p: Principal, req: Request, id: string, now: int)
    requires forall x, y :: HasKey(t, x, p.user.id, req.key) && HasKey(t, y, p.user.id, req.key) ==> x == y
    ensures var (n, r) := Submit(t, w, p, req, id, now); SubmitEffect(t, n, r, w, p, req, id, now)
  {
    hide Admit, MayAct, ApprovalAsked, WellPosed, SameRequest, Insert, Columns, Admissible, Inserted, KeyUsed, HasKey;
    AdmitMeans(w, p, req, now);
    if Admissible(w, p, req) {
      var a := Admit(w, p, req, now);
      ColumnsKey(a.spec, w, p, req, now);
      InsertMeans(t, id, a.spec, a.approval);
      KeyMeans(t, p, req);
      RowMeans(t, a.spec, a.approval, id, w, p, req, now);
      forall x | HasKey(t, x, p.user.id, req.key)
        ensures x in t.operations
        ensures t.operations[x].spec.requestHash == a.spec.requestHash <==>
            SameRequest(t.operations[x].spec.requestHash, req)
      {
        KeyHasRow(t, x, p.user.id, req.key);
        BodyMeans(t.operations[x].spec.requestHash, req);
        BodyMeans(a.spec.requestHash, req);
      }
    } else {
      assert t.audit + multiset{} == t.audit;
    }
  }

  lemma {:induction false} ColumnsKey(spec: OpSpec, w: World, p: Principal, req: Request, now: int)
    requires Admissible(w, p, req)
    ensures WellPosed(w, req)
    ensures Columns(spec, w, p, req, now) ==>
              spec.requester == p.user.id && spec.key == req.key && SameRequest(spec.requestHash, req)
  {
    hide MayAct, SameRequest;
  }

  lemma {:induction false} KeyMeans(t: Tables, p: Principal, req: Request)
    ensures Existing(t, p.user.id, req.key).Some? <==> KeyUsed(t, p, req)
  {}

  lemma {:induction false} KeyHasRow(t: Tables, x: string, requester: string, key: string)
    ensures HasKey(t, x, requester, key) ==> x in t.operations
  {}

  lemma {:induction false} RowMeans(
      t: Tables, spec: OpSpec, approval: bool, id: string, w: World, p: Principal, req: Request, now: int)
    requires WellPosed(w, req) && Columns(spec, w, p, req, now) && (approval <==> ApprovalAsked(w, p, req))
    requires spec.requester == p.user.id
    ensures var entry := AuditEntry(if approval then ApprovalRequested else Created, p.user.id, id);
            var n := t.(operations := t.operations[id := NewOperation(spec, approval)],
                audit := t.audit + multiset{entry});
            Inserted(t, n, id, w, p, req, now)
  {
    hide WellPosed, Columns, ApprovalAsked;
  }

  /** What becomes of an admitted operation: found, refused or inserted. */
  lemma {:induction false} InsertMeans(t: Tables, id: string, spec: OpSpec, approval: bool)
    ensures var (n, r) := Insert(t, id, spec, approval);
            var found := Existing(t, spec.requester, spec.key);
            if found.Some? then
              && n == t && HasKey(t, found.value, spec.requester, spec.key)
              && r == if t.operations[found.value].spec.requestHash == spec.requestHash then Ok(found.value)
                      else Err(Denied("idempotency key reused with different request"))
            else if id in t.operations then n == t && r == Err(Failure("duplicate key value"))
            else
              var entry := AuditEntry(if approval then ApprovalRequested else Created, spec.requester, id);
              && r == Ok(id)
              && n == t.(operations := t.operations[id := NewOperation(spec, approval)],
                  audit := t.audit + multiset{entry})
  {}

  // ------------------------------------------------------------------ approval and cancellation

  ghost predicate ApproveEffect(t: Tables, n: Tables, id: string, approver: string, approve: bool, now: int)
    requires id in t.operations
  {
    var o := t.operations[id];
    && n.leases == t.leases && n.batches == t.batches
    && n.operations == t.operations[id :=
         Operation(o.spec, if approve then Queued else Rejected, approver, o.worker, o.startedAt,
                   if approve then None else Some(now), o.leaseUntil)]
    && n.audit == t.audit + multiset{AuditEntry(if approve then ApprovalGranted else ApprovalRejected, approver, id)}
  }

  /**
   * Who can decide on an approval: an approver of that environment other than the requester, with MFA
   * if required and a reason, while the operation waits for one.
   */
  ghost predicate MayDecide(t: Tables, p: Principal, id: string, reason: string) {
    && id in t.operations && t.operations[id].state == WaitingApproval
    && Allowed(p, "operation.approve", t.operations[id].spec.environment)
    && p.user.id != t.operations[id].spec.requester && (p.user.mfaRequired ==> p.mfa)
    && 3 <= Utf8.Size(reason)
  }

  /** What a decision does, when it is made, and the refusals in their order. */
  lemma {:induction false} ApproveMeans(t: Tables, p: Principal, id: string, approve: bool, reason: string, now: int)
    ensures var (n, e) := Approve(t, p, id, approve, reason, now);
            && (e.Some? ==> n == t)
            && (e.None? ==> id in t.operations && ApproveEffect(t, n, id, p.user.id, approve, now))
            && (e.None? <==> MayDecide(t, p, id, reason))
            && (id !in t.operations ==> e == Some(NO_ROWS))
            && (id in t.operations && e.Some? ==>
                  var o := t.operations[id];
                  if !Allowed(p, "operation.approve", o.spec.environment) then
                    e == Some(Denied("approval permission required"))
                  else if p.user.id == o.spec.requester then e == Some(Denied("self approval forbidden"))
                  else if p.user.mfaRequired && !p.mfa then e == Some(Denied("MFA required"))
                  else if Utf8.Size(reason) < 3 then e == Some(Failure("approval reason required"))
                  else e == Some(Denied("operation is not waiting for approval")))
  {
    hide Allowed, Utf8.Size;
  }

  /** One row ends as cancelled. */
  ghost predicate CancelledBy(t: Tables, n: Tables, id: string, actor: string, now: int)
    requires id in t.operations
  {
    var o := t.operations[id];
    && n.leases == t.leases && n.batches == t.batches
    && n.operations == t.operations[id :=
         Operation(o.spec, OpState.Cancelled, o.approvalBy, o.worker, o.startedAt, Some(now), o.leaseUntil)]
    && n.audit == t.audit + multiset{AuditEntry(CancelledByUser, actor, id)}
  }

  /** Who can cancel: the requester or an administrator, if they may read there, what waits, is queued or runs. */
  ghost predicate MayCancel(t: Tables, p: Principal, id: string) {
    && id in t.operations && t.operations[id].state in {WaitingApproval, Queued, Running}
    && (p.user.id == t.operations[id].spec.requester || p.user.role == "ADMIN")
    && Allowed(p, "operation.read", t.operations[id].spec.environment)
  }

  /** What a cancellation does, when it takes effect, and the refusals in their order. */
  lemma {:induction false} CancelMeans(t: Tables, p: Principal, id: string, now: int)
    ensures var (n, e) := Cancel(t, p, id, now);
            && (e.Some? ==> n == t)
            && (e.None? ==> id in t.operations && CancelledBy(t, n, id, p.user.id, now))
            && (e.None? <==> MayCancel(t, p, id))
            && (id !in t.operations ==> e == Some(NO_ROWS))
            && (id in t.operations && e.Some? ==>
                  var o := t.operations[id];
                  if p.user.id != o.spec.requester && p.user.role != "ADMIN" then
                    e == Some(Denied("only requester or admin may cancel"))
                  else if !Allowed(p, "operation.read", o.spec.environment) then e == Some(Denied("environment denied"))
                  else e == Some(Denied("operation is terminal")))
  {
    hide Allowed;
  }

  // ------------------------------------------------------------------ batches

  /** Exactly the rows of the batch that wait or are queued end as cancelled. */
  ghost predicate AbortEffect(t: Tables, n: Tables, b: BatchId, now: int) {
    && n.leases == t.leases && n.batches == t.batches && n.audit == t.audit && n.operations.Keys == t.operations.Keys
    && (forall id :: id in t.operations ==>
          var o := t.operations[id];
          n.operations[id] ==
            if o.spec.batch == Some(b) && o.state in {WaitingApproval, Queued}
            then Operation(o.spec, OpState.Cancelled, o.approvalBy, o.worker, o.startedAt, Some(now), o.leaseUntil)
            else o)
  }

  lemma {:induction false} AbortMeans(t: Tables, b: BatchId, now: int)
    ensures AbortEffect(t, AbortBatch(t, b, now), b, now)
  {}

  /** What a batch request must be, and be about. */
  ghost predicate BatchPosed(w: World, p: Principal, req: Request, b: BatchRequest) {
    && 1 <= |b.ids| <= 500 && 1 <= b.size <= 20 && 0 <= b.threshold <= 500
    && (forall i, j :: 0 <= i < j < |b.ids| ==> b.ids[i] != b.ids[j])
    && (forall i :: 0 <= i < |b.ids| ==>
          && b.ids[i] in w.resources && w.resources[b.ids[i]].hostId in w.hosts
          && var r := w.resources[b.ids[i]];
             MayAct(w, p, r, w.hosts[r.hostId], req.action, req.agent, req.mode))
    && 1 <= Utf8.Size(req.key) <= 80
  }

  lemma {:induction false} BatchMeans(w: World, p: Principal, req: Request, b: BatchRequest)
    ensures BatchObjection(w, p, req, b).None? <==> BatchPosed(w, p, req, b)
  {
    hide ItemObjection, MayAct, Authorize, Utf8.Size;
    NoObjectionMeans(w, p, req, b.ids, |b.ids|);
    forall i | 0 <= i < |b.ids| && b.ids[i] in w.resources && w.resources[b.ids[i]].hostId in w.hosts
      ensures var r := w.resources[b.ids[i]];
              Authorize(w, p, r, w.hosts[r.hostId], req.action, req.agent, req.mode).Ok? <==>
                MayAct(w, p, r, w.hosts[r.hostId], req.action, req.agent, req.mode)
    {
      var r := w.resources[b.ids[i]];
      AuthorizeMeans(w, p, r, w.hosts[r.hostId], req.action, req.agent, req.mode);
    }
    assert Utf8.Size("") == 0 by { assert |""| == 0; }
    assert req.key != "" ==> |req.key| >= 1;
  }

  /** The submission an item of a batch makes: the request's own, for the item's resource, under a key of its own. */
  lemma {:induction false} ItemMeans(req: Request, id: BatchId, b: BatchRequest, i: nat)
    requires i < |b.ids|
    ensures var item := Item(req, id, b, i);
            && item.resource == b.ids[i] && item.key == req.key + ":" + b.ids[i]
            && item.batch == Some(id) && item.index == i
            && item.action == req.action && item.parameters == req.parameters && item.reason == req.reason
            && item.agent == req.agent && item.mode == req.mode
  {}

  // ------------------------------------------------------------------ workers

  /** The members of a batch that failed, timed out or were rejected. */
  ghost function Failures(t: Tables, b: BatchId): set<string> {
    set id | id in t.operations && t.operations[id].spec.batch == Some(b)
             && t.operations[id].state in {Failed, TimedOut, Rejected}
  }

  ghost predicate Over(s: OpState) {
    s in {Succeeded, Failed, TimedOut, Rejected, OpState.Cancelled}
  }

  /**
   * An operation may run: it is queued, nobody leases its resource, and its batch, if it has one, is
   * ready, has the groups before its own behind it and has not failed too often.
   */
  ghost predicate MayRun(t: Tables, id: string) {
    && id in t.operations && t.operations[id].state == Queued && t.operations[id].spec.resource !in t.leases
    && (t.operations[id].spec.batch.Some? ==>
        BatchLets(t, t.operations[id].spec.batch.value, t.operations[id].spec.batchIndex))
  }

  ghost predicate BatchLets(t: Tables, b: BatchId, index: nat) {
    && b in t.batches && t.batches[b].ready
    && (forall x :: x in t.operations && t.operations[x].spec.batch == Some(b) ==>
          t.operations[x].spec.batchIndex / t.batches[b].size < index / t.batches[b].size ==>
            Over(t.operations[x].state))
    && (t.batches[b].continueOnError || Failures(t, b) == {})
    && |Failures(t, b)| <= t.batches[b].failureThreshold
  }

  lemma {:induction false} FailuresMean(t: Tables, b: BatchId)
    ensures BatchFailures(t, b) == Failures(t, b)
  {}

  lemma {:induction false} EligibleMeans(t: Tables, id: string)
    ensures Eligible(t, id) <==> MayRun(t, id)
  {
    if id in t.operations && t.operations[id].spec.batch.Some? && t.operations[id].spec.batch.value in t.batches {
      var b := t.operations[id].spec.batch.value;
      FailuresMean(t, b);
      WavesMean(t, b, t.operations[id].spec.batchIndex, t.batches[b].size);
    }
    hide BatchFailures, Failures, LowerWavesOver, Wave, Over;
  }

  lemma {:induction false} WavesMean(t: Tables, b: BatchId, index: nat, size: Positive)
    ensures LowerWavesOver(t, b, index, size) <==>
              forall x :: x in t.operations && t.operations[x].spec.batch == Some(b) ==>
                t.operations[x].spec.batchIndex / size < index / size ==> Over(t.operations[x].state)
  {
    forall x | x in t.operations
      ensures Terminal(t.operations[x].state) <==> Over(t.operations[x].state)
      ensures Wave(t.operations[x].spec.batchIndex, size) == t.operations[x].spec.batchIndex / size
    {}
    assert Wave(index, size) == index / size;
    hide Wave, Terminal, Over;
  }

  /** A row runs under a worker and a lease of 45 seconds, and its start is recorded. */
  ghost predicate ClaimEffect(t: Tables, n: Tables, id: string, worker: string, now: int)
    requires id in t.operations
  {
    var o := t.operations[id];
    && n.batches == t.batches
    && n.operations == t.operations[id :=
         Operation(o.spec, Running, o.approvalBy, worker, Some(now), o.finishedAt, Some(now + 45))]
    && n.leases == t.leases[o.spec.resource := Lease(id, worker, now + 45)]
    && n.audit == t.audit + multiset{AuditEntry(ExecutionStarted, worker, id)}
  }

  lemma {:induction false} ClaimMeans(t: Tables, id: string, worker: string, now: int)
    requires id in t.operations
    ensures ClaimEffect(t, Claim(t, id, worker, now), id, worker, now)
  {}

  /** The worker's row runs, and row and lease are its own and have not run out. */
  ghost predicate RowLasts(t: Tables, id: string, worker: string, now: int)
    requires id in t.operations
  {
    var o := t.operations[id];
    o.state == Running && o.worker == worker && o.leaseUntil.Some? && now < o.leaseUntil.value
  }

  ghost predicate LeaseLasts(t: Tables, id: string, worker: string, now: int)
    requires id in t.operations
  {
    var r := t.operations[id].spec.resource;
    r in t.leases && t.leases[r].operation == id && t.leases[r].worker == worker && now < t.leases[r].expiresAt
  }

  /** Row and lease last 45 seconds from now, or nothing changes and the error says which of them was lost. */
  ghost predicate RenewEffect(t: Tables, n: Tables, e: Option<Error>, id: string, worker: string, now: int)
    requires id in t.operations
  {
    if !RowLasts(t, id, worker, now) then n == t && e == Some(Failure("operation lease lost or cancelled"))
    else if !LeaseLasts(t, id, worker, now) then n == t && e == Some(Failure("resource lease lost"))
    else
      var o := t.operations[id];
      && e.None? && n.batches == t.batches && n.audit == t.audit
      && n.operations == t.operations[id :=
           Operation(o.spec, o.state, o.approvalBy, o.worker, o.startedAt, o.finishedAt, Some(now + 45))]
      && n.leases == t.leases[o.spec.resource := Lease(id, worker, now + 45)]
  }

  lemma {:induction false} RenewMeans(t: Tables, id: string, worker: string, now: int)
    requires id in t.operations
    ensures var (n, e) := Renew(t, id, t.operations[id].spec.resource, worker, now);
            RenewEffect(t, n, e, id, worker, now)
  {}

  /**
   * The worker's row ends with the outcome, if it still runs, which is recorded; and the worker's
   * lease goes whether it does or not, unless the outcome is a timeout.
   */
  ghost predicate FinishEffect(t: Tables, n: Tables, id: string, worker: string, outcome: OpState, now: int)
    requires id in t.operations
  {
    var o := t.operations[id];
    var r := o.spec.resource;
    var runs := o.state == Running && o.worker == worker;
    var leased := r in t.leases && t.leases[r].operation == id && t.leases[r].worker == worker;
    && n.batches == t.batches
    && n.operations == (if runs then t.operations[id :=
         Operation(o.spec, outcome, o.approvalBy, o.worker, o.startedAt, Some(now), None)] else t.operations)
    && n.leases == (if leased && outcome != TimedOut then t.leases - {r} else t.leases)
    && n.audit == t.audit + if runs then multiset{AuditEntry(Completed(outcome), worker, id)} else multiset{}
  }

  lemma {:induction false} FinishMeans(t: Tables, id: string, worker: string, outcome: OpState, now: int)
    requires id in t.operations
    ensures FinishEffect(t, Finish(t, id, t.operations[id].spec.resource, worker, outcome, now), id, worker, outcome,
        now)
  {
    assert t.audit + multiset{} == t.audit;
  }

  // ------------------------------------------------------------------ recovery

  /** Its lease ran out while it ran. */
  ghost predicate RanOut(o: Operation, now: int) {
    o.state == Running && o.leaseUntil.Some? && o.leaseUntil.value < now
  }

  /** The members of a batch that count as failures once the operations whose lease ran out have timed out. */
  ghost function FailuresThen(t: Tables, b: BatchId, now: int): set<string> {
    set id | id in t.operations && t.operations[id].spec.batch == Some(b)
             && (t.operations[id].state in {Failed, TimedOut, Rejected} || RanOut(t.operations[id], now))
  }

  /** The batch has had a failure it must stop at, or more than it tolerates. */
  ghost predicate Stops(t: Tables, b: BatchId, now: int) {
    && b in t.batches
    && ((!t.batches[b].continueOnError && FailuresThen(t, b, now) != {})
        || |FailuresThen(t, b, now)| > t.batches[b].failureThreshold)
  }

  /** What recovery makes of a row. */
  ghost function Recovered(t: Tables, o: Operation, now: int): Operation {
    if RanOut(o, now) then
      Operation(o.spec, TimedOut, o.approvalBy, o.worker, o.startedAt, Some(now), o.leaseUntil)
    else if o.state in {WaitingApproval, Queued} && o.spec.batch.Some? && Stops(t, o.spec.batch.value, now) then
      Operation(o.spec, OpState.Cancelled, o.approvalBy, o.worker, o.startedAt, Some(now), o.leaseUntil)
    else o
  }

  ghost predicate RecoverEffect(t: Tables, n: Tables, now: int) {
    && n.leases == t.leases && n.batches == t.batches && n.operations.Keys == t.operations.Keys
    && (forall id :: id in t.operations ==> n.operations[id] == Recovered(t, t.operations[id], now))
    && n.audit == t.audit + multiset(set id | id in t.operations
        && RanOut(t.operations[id], now) :: AuditEntry(Orphaned, "", id))
  }

  /**
   * Recovery times out exactly the operations whose lease ran out, and cancels exactly the operations
   * waiting or queued in batches that stop; every other row stays as it was.
   */
  lemma {:induction false} RecoverMeans(t: Tables, now: int)
    ensures RecoverEffect(t, Recover(t, now), now)
  {
    hide Expire, BatchFailures, FailuresThen, RanOut, StopBatches;
    var m := Expire(t, now);
    ExpireMeans(t, now);
    forall b ensures BatchFailures(m, b) == FailuresThen(t, b, now) {
      ExpiredFailures(t, m, b, now);
    }
    StopMeans(m, now);
  }

  ghost predicate ExpireEffect(t: Tables, m: Tables, now: int) {
    && m.leases == t.leases && m.batches == t.batches && m.operations.Keys == t.operations.Keys
    && (forall id :: id in t.operations ==>
          var o := t.operations[id];
          m.operations[id] ==
            if RanOut(o, now) then Operation(o.spec, TimedOut, o.approvalBy, o.worker, o.startedAt, Some(now),
                o.leaseUntil)
            else o)
    && m.audit == t.audit + multiset(set id | id in t.operations
        && RanOut(t.operations[id], now) :: AuditEntry(Orphaned, "", id))
  }

  lemma {:induction false} ExpireMeans(t: Tables, now: int)
    ensures ExpireEffect(t, Expire(t, now), now)
  {
    var orphans := Expired(t, now);
    assert (set id | id in orphans :: AuditEntry(Orphaned, "", id)) ==
      (set id | id in t.operations && RanOut(t.operations[id], now) :: AuditEntry(Orphaned, "", id));
  }

  lemma {:induction false} ExpiredFailures(t: Tables, m: Tables, b: BatchId, now: int)
    requires ExpireEffect(t, m, now)
    ensures BatchFailures(m, b) == FailuresThen(t, b, now)
  {}

  lemma {:induction false} StopMeans(m: Tables, now: int)
    ensures var n := StopBatches(m, now);
            && n.leases == m.leases && n.batches == m.batches && n.audit == m.audit
            && n.operations.Keys == m.operations.Keys
            && (forall id :: id in m.operations ==>
                  var o := m.operations[id];
                  n.operations[id] ==
                    if o.state in {WaitingApproval, Queued} && o.spec.batch.Some? && o.spec.batch.value in m.batches
                       && (var b := o.spec.batch.value;
                           (!m.batches[b].continueOnError && BatchFailures(m, b) != {})
                           || |BatchFailures(m, b)| > m.batches[b].failureThreshold)
                    then Operation(o.spec, OpState.Cancelled, o.approvalBy, o.worker, o.startedAt, Some(now),
                        o.leaseUntil)
                    else o)
  {
    hide BatchFailures;
  }

  // ------------------------------------------------------------------ the gate

  /** The principal of an operation, as its requester and token are now. */
  ghost predicate Acts(w: World, s: OpSpec, p: Principal) {
    && s.requester in w.users && p.user == w.users[s.requester]
    && p.mfa == (s.authMfa && p.user.mfaEnabled) && p.tokenId == s.tokenId
    && if s.tokenId == "" then p.scopes == [] else s.tokenId in w.liveTokens && p.scopes == w.liveTokens[s.tokenId]
  }

  /** Somebody who may still approve there has approved. */
  ghost predicate StillApproved(w: World, s: OpSpec, approvalBy: string) {
    && approvalBy != "" && approvalBy in w.users
    && Allowed(Principal(w.users[approvalBy], "", [], false), "operation.approve", s.environment)
  }

  /** The requester still exists with their token, the target is what it was, and the action is permitted anew. */
  ghost predicate GateOpens(w: World, s: OpSpec, approvalBy: string, p: Principal) {
    && Acts(w, s, p)
    && s.resource in w.resources && w.resources[s.resource].hostId in w.hosts
    && var r := w.resources[s.resource];
       var h := w.hosts[r.hostId];
       && h.environment == s.environment
       && (h.bastionId == "" || h.bastionId in w.hosts) && s.target.Some? && TargetOf(w, h, r) == Ok(s.target.value)
       && MayAct(w, p, r, h, s.action, s.agent, s.mode)
       && (NeedsApproval(Input(p, r, h, s.action, s.agent, s.mode, w.clocks), w.rules) ==>
           StillApproved(w, s, approvalBy))
  }

  /** The gate lets an operation through if and only if there is a principal it opens for. */
  lemma {:induction false} GateMeans(w: World, s: OpSpec, approvalBy: string)
    ensures Gate(w, s, approvalBy).Ok? <==> exists p :: GateOpens(w, s, approvalBy, p)
  {
    hide MayAct, NeedsApproval, TargetOf, Authorize, Allowed;
    ActsMeans(w, s);
    if ActingFor(w, s).Ok? && s.resource in w.resources && w.resources[s.resource].hostId in w.hosts {
      var p, r := ActingFor(w, s).value, w.resources[s.resource];
      var h := w.hosts[r.hostId];
      AuthorizeMeans(w, p, r, h, s.action, s.agent, s.mode);
      TargetMeans(w, h, r, w, h, r);
      hide ActingFor, Acts;
      if Gate(w, s, approvalBy).Ok? {
        assert GateOpens(w, s, approvalBy, p);
      }
    }
  }

  lemma {:induction false} ActsMeans(w: World, s: OpSpec)
    ensures ActingFor(w, s).Ok? <==> exists p :: Acts(w, s, p)
    ensures forall p :: Acts(w, s, p) ==> ActingFor(w, s) == Ok(p)
  {
    if ActingFor(w, s).Ok? {
      assert Acts(w, s, ActingFor(w, s).value);
    }
  }

  /** The gate's refusals, in their order: which conditions were met before the one that was not. */
  lemma {:induction false} GateRefuses(w: World, s: OpSpec, approvalBy: string)
    requires Gate(w, s, approvalBy).Err?
    ensures var e := Gate(w, s, approvalBy).error;
            if s.requester !in w.users then e == NO_ROWS
            else if s.tokenId != "" && s.tokenId !in w.liveTokens then
                e == Denied("requesting token revoked or expired")
            else if s.resource !in w.resources || w.resources[s.resource].hostId !in w.hosts then e == NO_ROWS
            else
              var r := w.resources[s.resource];
              var h := w.hosts[r.hostId];
              if h.environment != s.environment then
                e == Denied("environment changed; resubmit for policy evaluation")
              else if h.bastionId != "" && h.bastionId !in w.hosts then e == NO_ROWS
              else if s.target.None? || TargetOf(w, h, r) != Ok(s.target.value) then
                e == Denied("connection or target changed; resubmit for approval")
              else exists p :: Acts(w, s, p) && RefusedAnew(w, s, approvalBy, p, r, h, e)
  {
    hide Authorize, Allowed, MayAct;
    ActsMeans(w, s);
    if ActingFor(w, s).Ok? && s.resource in w.resources && w.resources[s.resource].hostId in w.hosts {
      var p, r := ActingFor(w, s).value, w.resources[s.resource];
      AuthorizeMeans(w, p, r, w.hosts[r.hostId], s.action, s.agent, s.mode);
      assert Acts(w, s, p);
    }
  }

  /** The fresh authorization fails, or the approval it needs is missing or no longer good. */
  ghost predicate RefusedAnew(
      w: World, s: OpSpec, approvalBy: string, p: Principal, r: Resource, h: Host, e: Error)
  {
    var a := Authorize(w, p, r, h, s.action, s.agent, s.mode);
    if a.Err? then e == a.error
    else if approvalBy == "" then e == Denied("approval now required; resubmit")
    else e == Denied("approver no longer authorized")
  }

  // ------------------------------------------------------------------ the end of an execution and of a lease

  /** The text mentions a permission. */
  ghost predicate Mentions(text: string, part: string) {
    exists before, after :: text == before + part + after
  }

  lemma {:induction false} ContainsMeans(text: string, part: string)
    ensures Worker.Contains(text, part) <==> Mentions(text, part)
  {
    if Worker.Contains(text, part) {
      var i :| 0 <= i <= |text| && part <= text[i..];
      assert text == text[..i] + part + text[i + |part|..];
    }
    if before, after :| text == before + part + after {
      assert part <= text[|before|..];
    }
  }

  /** A denial, by kind or by its text, is a rejection; otherwise an ended context is a timeout, and the rest failed. */
  lemma {:induction false} FinalStateMeans(error: Option<Error>)
    ensures FinalState(error) ==
              match error
              case None => Succeeded
              case Some(Denied(_)) => Rejected
              case Some(ContextDone(text)) => (if Mentions(text, "permission") then Rejected else TimedOut)
              case Some(Failure(text)) => (if Mentions(text, "permission") then Rejected else Failed)
  {
    match error
    case Some(ContextDone(text)) => ContainsMeans(text, "permission");
    case Some(Failure(text)) => ContainsMeans(text, "permission");
    case _ =>
  }

  /** The lease on the resource ran out and its operation does not run. */
  ghost predicate Idle(t: Tables, resource: string, now: int) {
    && resource in t.leases && t.leases[resource].expiresAt < now
    && forall id :: id in t.operations && id == t.leases[resource].operation ==> t.operations[id].state != Running
  }

  ghost predicate ReleaseEffect(t: Tables, n: Tables, resource: string, actor: string, now: int) {
    && n.operations == t.operations && n.batches == t.batches
    && n.leases == (if Idle(t, resource, now) then t.leases - {resource} else t.leases)
    && n.audit == t.audit + multiset{AuditEntry(Reconciled, actor, resource)}
  }

  lemma {:induction false} ReleaseMeans(t: Tables, resource: string, actor: string, now: int)
    ensures ReleaseEffect(t, Release(t, resource, actor, now), resource, actor, now)
  {}

  /** Who can release: somebody who sees the resource and may change its host, with confirmed evidence. */
  ghost predicate MayRelease(w: World, p: Principal, resource: string, confirmed: bool, reason: string) {
    && resource in w.resources && w.resources[resource].hostId in w.hosts
    && Allowed(p, "resource.read", w.hosts[w.resources[resource].hostId].environment)
    && Allowed(p, "host.update", w.hosts[w.resources[resource].hostId].environment)
    && confirmed && 10 <= Utf8.Size(reason)
  }

  lemma {:induction false} MayReconcileMeans(w: World, p: Principal, resource: string, confirmed: bool, reason: string)
    ensures MayReconcile(w, p, resource, confirmed, reason) <==> MayRelease(w, p, resource, confirmed, reason)
  {
    hide Allowed, Utf8.Size;
  }
}
