/** Submission, approval and cancellation of operations, and the creation of batches. */
module Engine {
  import opened Results
  import opened Rbac
  import opened Policy
  import opened Tables
  import Utf8

  /** What a provider's adapter answers: the actions it offers, and its objections to building them. */
  datatype Adapter = Adapter(capabilities: map<string, seq<string>>, objections: map<(string, string), Error>)

  /** Everything a decision reads besides the queue, as it is at one moment. */
  datatype World = World(
    users: map<string, User>, liveTokens: map<string, seq<string>>, hosts: map<string, Host>,
    resources: map<string, Resource>, rules: seq<Rule>, adapters: map<string, Adapter>, clocks: Clocks)

  datatype Request = Request(
    resource: string, action: string, parameters: map<string, string>, reason: string, key: string,
    agent: bool, mode: string, batch: Option<BatchId>, index: nat)

  const NO_ROWS := Failure("no rows in result set")

  function ConnectionOf(h: Host): Connection {
    Connection(h.id, h.hostname, h.port, h.username, h.authMethod, h.secretId, h.fingerprint, h.environment,
        h.bastionId)
  }

  /** The identity the target hash is taken of. */
  function TargetOf(w: World, h: Host, r: Resource): Result<Target> {
    var direct := Target(ConnectionOf(h), r.externalId, r.namespace, r.provider, r.kind, r.project, r.service, None);
    if h.bastionId == "" then Ok(direct)
    else if h.bastionId !in w.hosts then Err(NO_ROWS)
    else Ok(direct.(bastion := Some(ConnectionOf(w.hosts[h.bastionId]))))
  }

  function Authorize(
      w: World, p: Principal, r: Resource, h: Host, action: string, agent: bool, mode: string): Result<Decision> {
    if r.state == "missing" then Err(Denied("resource is no longer present; run discovery"))
    else if r.provider !in w.adapters then Err(Failure("adapter unavailable"))
    else
      var a := w.adapters[r.provider];
      if r.id !in a.capabilities || action !in a.capabilities[r.id] then Err(Denied("unsupported action"))
      else if (r.id, action) in a.objections then Err(a.objections[(r.id, action)])
      else
        var d := Decide(Input(p, r, h, action, agent, mode, w.clocks), w.rules);
        if d.allowed then Ok(d) else Err(Denied(d.reason))
  }

  /** What a submission amounts to before the queue is touched. */
  datatype Admission = Refused(error: Error, recorded: bool) | Admitted(spec: OpSpec, approval: bool)

  function Body(req: Request): RequestBody {
    RequestBody(req.resource, req.action, req.parameters - {"spec_secret_id", "manifest_secret_id"}, req.agent,
        req.mode)
  }

  predicate ReasonFits(reason: string) {
    3 <= Utf8.Size(reason) <= 2000
  }

  function Admit(w: World, p: Principal, req: Request, now: int): Admission {
    if req.key == "" || Utf8.Size(req.key) > 128 then
        Refused(Failure("Idempotency-Key required (1..128 characters)"), false)
    else if !ReasonFits(req.reason) then Refused(Failure("reason must contain 3..2000 characters"), false)
    else if ReadOnly(req.action) then Refused(Failure("use resource read endpoint for read actions"), false)
    else if req.resource !in w.resources then Refused(NO_ROWS, false)
    else
      var r := w.resources[req.resource];
      if r.hostId !in w.hosts then Refused(NO_ROWS, false)
      else
        var h := w.hosts[r.hostId];
        var d := Authorize(w, p, r, h, req.action, req.agent, req.mode);
        if d.Err? then Refused(d.error, true)
        else
          var target := TargetOf(w, h, r);
          if target.Err? then Refused(target.error, false)
          else
            Admitted(OpSpec(p.user.id, req.resource, r.hostId, req.action, req.parameters, h.environment, d.value.risk,
                            req.agent, req.mode, p.mfa, p.tokenId, req.key, Body(req), Some(target.value),
                            req.batch, req.index, now),
                     d.value.approval)
  }

  function NewOperation(spec: OpSpec, approval: bool): Operation {
    Operation(spec, if approval then WaitingApproval else Queued, "", "", None, None, None)
  }

  /** Inserts an admitted operation unless its requester already used the key. */
  ghost function Insert(t: Tables, id: string, spec: OpSpec, approval: bool): (Tables, Result<string>) {
    var existing := Existing(t, spec.requester, spec.key);
    if existing.Some? then
      if t.operations[existing.value].spec.requestHash != spec.requestHash
      then (t, Err(Denied("idempotency key reused with different request")))
      else (t, Ok(existing.value))
    else if id in t.operations then (t, Err(Failure("duplicate key value")))
    else
      var entry := AuditEntry(if approval then ApprovalRequested else Created, spec.requester, id);
      (t.(operations := t.operations[id := NewOperation(spec, approval)], audit := t.audit + multiset{entry}), Ok(id))
  }

  /** The subject of a refused submission's audit entry is the resource. */
  function RecordRefusal(t: Tables, p: Principal, req: Request): Tables {
    t.(audit := t.audit + multiset{AuditEntry(PolicyDenied, p.user.id, req.resource)})
  }

  ghost function Submit(
      t: Tables, w: World, p: Principal, req: Request, id: string, now: int): (Tables, Result<string>) {
    match Admit(w, p, req, now)
    case Refused(e, recorded) => (if recorded then RecordRefusal(t, p, req) else t, Err(e))
    case Admitted(spec, approval) => Insert(t, id, spec, approval)
  }

  /** A row stands for a request of that requester: it has its key and was bound to the same body. */
  ghost predicate IsRowOf(t: Tables, id: string, requester: string, req: Request) {
    HasKey(t, id, requester, req.key) && t.operations[id].spec.requestHash == Body(req)
  }

  /** A repeated submission is accepted: it is admitted now, and its key was bound to the same request. */
  ghost predicate Accepted(t: Tables, w: World, p: Principal, req: Request, now: int) {
    && Admit(w, p, req, now).Admitted?
    && forall id :: HasKey(t, id, p.user.id, req.key) ==> t.operations[id].spec.requestHash == Body(req)
  }

  // ------------------------------------------------------------------ approval and cancellation

  function ApprovalObjection(o: Operation, p: Principal, reason: string): Option<Error> {
    if !Allowed(p, "operation.approve", o.spec.environment) then Some(Denied("approval permission required"))
    else if p.user.id == o.spec.requester then Some(Denied("self approval forbidden"))
    else if p.user.mfaRequired && !p.mfa then Some(Denied("MFA required"))
    else if Utf8.Size(reason) < 3 then Some(Failure("approval reason required"))
    else if !o.state.WaitingApproval? then Some(Denied("operation is not waiting for approval"))
    else None
  }

  /** The effect of an approval that met no objection. */
  function Decided(t: Tables, id: string, approver: string, approve: bool, now: int): Tables
    requires id in t.operations
  {
    var o := t.operations[id];
    var n := if approve then o.(state := Queued, approvalBy := approver, finishedAt := None)
             else o.(state := Rejected, approvalBy := approver, finishedAt := Some(now));
    t.(operations := t.operations[id := n],
       audit := t.audit + multiset{AuditEntry(if approve then ApprovalGranted else ApprovalRejected, approver, id)})
  }

  function Approve(
      t: Tables, p: Principal, id: string, approve: bool, reason: string, now: int): (Tables, Option<Error>) {
    if id !in t.operations then (t, Some(NO_ROWS))
    else
      var objection := ApprovalObjection(t.operations[id], p, reason);
      if objection.Some? then (t, objection) else (Decided(t, id, p.user.id, approve, now), None)
  }

  function CancelObjection(o: Operation, p: Principal): Option<Error> {
    if p.user.id != o.spec.requester && p.user.role != "ADMIN" then Some(Denied("only requester or admin may cancel"))
    else if !Allowed(p, "operation.read", o.spec.environment) then Some(Denied("environment denied"))
    else if Terminal(o.state) then Some(Denied("operation is terminal"))
    else None
  }

  function CancelEffect(t: Tables, id: string, actor: string, now: int): Tables
    requires id in t.operations
  {
    t.(operations := t.operations[id := t.operations[id].(state := Cancelled, finishedAt := Some(now))],
       audit := t.audit + multiset{AuditEntry(CancelledByUser, actor, id)})
  }

  function Cancel(t: Tables, p: Principal, id: string, now: int): (Tables, Option<Error>) {
    if id !in t.operations then (t, Some(NO_ROWS))
    else
      var objection := CancelObjection(t.operations[id], p);
      if objection.Some? then (t, objection) else (CancelEffect(t, id, p.user.id, now), None)
  }

  // ------------------------------------------------------------------ batches

  function ItemKey(key: string, id: string): string {
    key + ":" + id
  }

  /** The resource is there, so is its host, and the action on it is authorized. */
  predicate MayTarget(w: World, p: Principal, req: Request, id: string) {
    && id in w.resources && w.resources[id].hostId in w.hosts
    && Authorize(w, p, w.resources[id], w.hosts[w.resources[id].hostId], req.action, req.agent, req.mode).Ok?
  }

  /** The first objection to the first n resources of a batch. */
  function ItemObjection(w: World, p: Principal, req: Request, ids: seq<string>, n: nat): Option<Error>
    requires n <= |ids|
  {
    if n == 0 then None else
      var before := ItemObjection(w, p, req, ids, n - 1);
      var id := ids[n - 1];
      if before.Some? then before
      else if id in ids[..n - 1] then Some(Failure("duplicate resource"))
      else if id !in w.resources || w.resources[id].hostId !in w.hosts then Some(NO_ROWS)
      else
        var r := w.resources[id];
        var d := Authorize(w, p, r, w.hosts[r.hostId], req.action, req.agent, req.mode);
        if d.Err? then Some(d.error) else None
  }

  /** Resources meet no objection if and only if they are distinct and each may be targeted. */
  lemma {:induction false} NoObjectionMeans(w: World, p: Principal, req: Request, ids: seq<string>, n: nat)
    requires n <= |ids|
    ensures ItemObjection(w, p, req, ids, n).None? <==>
              && (forall i, j :: 0 <= i < j < n ==> ids[i] != ids[j])
              && (forall i :: 0 <= i < n ==> MayTarget(w, p, req, ids[i]))
  {
    hide Authorize;
    if n > 0 {
      NoObjectionMeans(w, p, req, ids, n - 1);
      var last := ids[n - 1];
      assert last in ids[..n - 1] <==> exists i :: 0 <= i < n - 1 && ids[i] == last by {
        assert forall i :: 0 <= i < n - 1 ==> ids[..n - 1][i] == ids[i];
      }
      assert ItemObjection(w, p, req, ids, n).None? <==>
               ItemObjection(w, p, req, ids, n - 1).None? && last !in ids[..n - 1] && MayTarget(w, p, req, last);
    }
  }

  function BatchObjection(w: World, p: Principal, req: Request, b: BatchRequest): Option<Error> {
    if |b.ids| == 0 || |b.ids| > 500 || b.size < 1 || b.size > 20 || b.threshold < 0 || b.threshold > 500
    then Some(Failure("invalid batch bounds"))
    else
      var item := ItemObjection(w, p, req, b.ids, |b.ids|);
      if item.Some? then item
      else if req.key == "" || Utf8.Size(req.key) > 80 then
          Some(Failure("batch Idempotency-Key must contain 1..80 characters"))
      else None
  }

  /** A batch request that passed the checks on its shape. */
  predicate WellShaped(b: BatchRequest) {
    && 0 < |b.ids| <= 500 && 1 <= b.size <= 20 && 0 <= b.threshold <= 500
    && forall i, j :: 0 <= i < j < |b.ids| ==> b.ids[i] != b.ids[j]
  }

  /** Creates the batch row unless it exists; it must have been created for the same request. */
  function OpenBatch(t: Tables, id: BatchId, b: BatchRequest): (Tables, Result<BatchId>)
    requires WellShaped(b)
  {
    if id !in t.batches then
      (t.(batches := t.batches[id := BatchRow(id.requester, b.size, b.threshold, b.continueOnError, b, false)]), Ok(id))
    else if t.batches[id].request != b then (t, Err(Denied("batch idempotency collision")))
    else (t, Ok(id))
  }

  /** The submission of one resource of a batch. */
  function Item(req: Request, id: BatchId, b: BatchRequest, i: nat): Request
    requires i < |b.ids|
  {
    req.(resource := b.ids[i], key := ItemKey(req.key, b.ids[i]), batch := Some(id), index := i)
  }

  function PendingOf(t: Tables, b: BatchId): set<string> {
    set id | id in t.operations && InBatch(t, id, b) && Pending(t.operations[id].state)
  }

  /** What a batch whose creation failed leaves of itself. */
  function AbortBatch(t: Tables, b: BatchId, now: int): Tables {
    Close(t, PendingOf(t, b), Cancelled, now)
  }

  function PublishBatch(t: Tables, b: BatchId): Tables {
    if b in t.batches then t.(batches := t.batches[b := t.batches[b].(ready := true)]) else t
  }
}
