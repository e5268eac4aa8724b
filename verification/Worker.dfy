/** The worker's side of the queue: claiming, renewing, finishing, recovering and the execution gate. */
module Worker {
  import opened Results
  import opened Rbac
  import opened Policy
  import opened Tables
  import opened Engine
  import Utf8

  const LEASE := 45

  predicate LowerWavesOver(t: Tables, b: BatchId, index: nat, size: Positive) {
    forall x :: x in t.operations && InBatch(t, x, b) ==>
      Wave(t.operations[x].spec.batchIndex, size) < Wave(index, size) ==> Terminal(t.operations[x].state)
  }

  /** Whether the batch an operation belongs to lets it run now. */
  predicate BatchAdmits(t: Tables, o: Operation) {
    o.spec.batch.Some? ==>
      var b := o.spec.batch.value;
      && b in t.batches
      && t.batches[b].ready
      && LowerWavesOver(t, b, o.spec.batchIndex, t.batches[b].size)
      && (t.batches[b].continueOnError || BatchFailures(t, b) == {})
      && |BatchFailures(t, b)| <= t.batches[b].failureThreshold
  }

  predicate Eligible(t: Tables, id: string) {
    && id in t.operations
    && t.operations[id].state.Queued?
    && t.operations[id].spec.resource !in t.leases
    && BatchAdmits(t, t.operations[id])
  }

  /** The oldest eligible operation among those no concurrent transaction holds locked. */
  predicate Claimable(t: Tables, locked: set<string>, id: string) {
    && Eligible(t, id) && id !in locked
    && forall x :: x in t.operations && Eligible(t, x) && x !in locked ==>
         t.operations[id].spec.createdAt <= t.operations[x].spec.createdAt
  }

  function Claim(t: Tables, id: string, worker: string, now: int): Tables
    requires id in t.operations
  {
    var o := t.operations[id];
    var n := o.(state := Running, worker := worker, leaseUntil := Some(now + LEASE), startedAt := Some(now));
    t.(operations := t.operations[id := n],
       leases := t.leases[o.spec.resource := Lease(id, worker, now + LEASE)],
       audit := t.audit + multiset{AuditEntry(ExecutionStarted, worker, id)})
  }

  /** The first statement of a renewal finds its row. */
  predicate RenewsRow(t: Tables, id: string, worker: string, now: int) {
    && id in t.operations
    && var o := t.operations[id];
       o.worker == worker && o.state.Running? && o.leaseUntil.Some? && o.leaseUntil.value > now
  }

  /** The second statement of a renewal finds its lease. */
  predicate RenewsLease(t: Tables, id: string, resource: string, worker: string, now: int) {
    && resource in t.leases
    && var l := t.leases[resource];
       l.operation == id && l.worker == worker && l.expiresAt > now
  }

  function Renew(t: Tables, id: string, resource: string, worker: string, now: int): (Tables, Option<Error>) {
    if !RenewsRow(t, id, worker, now) then (t, Some(Failure("operation lease lost or cancelled")))
    else if !RenewsLease(t, id, resource, worker, now) then (t, Some(Failure("resource lease lost")))
    else
      (t.(operations := t.operations[id := t.operations[id].(leaseUntil := Some(now + LEASE))],
          leases := t.leases[resource := t.leases[resource].(expiresAt := now + LEASE)]), None)
  }

  predicate Outcome(s: OpState) {
    s.Succeeded? || s.Failed? || s.TimedOut? || s.Rejected?
  }

  predicate HoldsLease(t: Tables, id: string, resource: string, worker: string) {
    resource in t.leases && t.leases[resource].operation == id && t.leases[resource].worker == worker
  }

  /** Reports an outcome; the lease goes unless the outcome is a timeout, even when the row is already closed. */
  function Finish(t: Tables, id: string, resource: string, worker: string, outcome: OpState, now: int): Tables {
    var hit := id in t.operations && t.operations[id].state.Running? && t.operations[id].worker == worker;
    var t1 := if hit
              then var n := t.operations[id].(state := outcome, finishedAt := Some(now), leaseUntil := None);
                   t.(operations := t.operations[id := n],
                      audit := t.audit + multiset{AuditEntry(Completed(outcome), worker, id)})
              else t;
    if !outcome.TimedOut? && HoldsLease(t, id, resource, worker) then t1.(leases := t1.leases - {resource}) else t1
  }

  function Expired(t: Tables, now: int): set<string> {
    set id | id in t.operations && t.operations[id].state.Running?
             && t.operations[id].leaseUntil.Some? && t.operations[id].leaseUntil.value < now
  }

  function Doomed(t: Tables): set<string> {
    set id | id in t.operations && Pending(t.operations[id].state) && t.operations[id].spec.batch.Some?
             && t.operations[id].spec.batch.value in t.batches && TooManyFailures(t, t.operations[id].spec.batch.value)
  }

  /** Times out the operations whose lease ran out; their leases stay. */
  function Expire(t: Tables, now: int): Tables {
    var orphans := Expired(t, now);
    Close(t, orphans, TimedOut, now).(
        audit := t.audit + multiset(set id | id in orphans :: AuditEntry(Orphaned, "", id)))
  }

  function StopBatches(t: Tables, now: int): Tables {
    Close(t, Doomed(t), Cancelled, now)
  }

  function Recover(t: Tables, now: int): Tables {
    StopBatches(Expire(t, now), now)
  }

  // ------------------------------------------------------------------ the execution gate

  /** The principal a worker acts for: the requester as they are now, with the token they used. */
  function ActingFor(w: World, s: OpSpec): Result<Principal> {
    if s.requester !in w.users then Err(NO_ROWS)
    else
      var u := w.users[s.requester];
      var p := Principal(u, s.tokenId, [], s.authMfa && u.mfaEnabled);
      if s.tokenId == "" then Ok(p)
      else if s.tokenId !in w.liveTokens then Err(Denied("requesting token revoked or expired"))
      else Ok(p.(scopes := w.liveTokens[s.tokenId]))
  }

  /** The checks a worker repeats before it calls the adapter; the value is the fresh decision. */
  function Gate(w: World, s: OpSpec, approvalBy: string): Result<Decision> {
    var p := ActingFor(w, s);
    if p.Err? then Err(p.error)
    else if s.resource !in w.resources then Err(NO_ROWS)
    else
      var r := w.resources[s.resource];
      if r.hostId !in w.hosts then Err(NO_ROWS)
      else
        var h := w.hosts[r.hostId];
        if h.environment != s.environment then Err(Denied("environment changed; resubmit for policy evaluation"))
        else
          var target := TargetOf(w, h, r);
          if target.Err? then Err(target.error)
          else if s.target.None? || s.target.value != target.value then
              Err(Denied("connection or target changed; resubmit for approval"))
          else
            var d := Authorize(w, p.value, r, h, s.action, s.agent, s.mode);
            if d.Err? then d
            else if d.value.approval && approvalBy == "" then Err(Denied("approval now required; resubmit"))
            else if d.value.approval && !(approvalBy in w.users
                      && Allowed(Principal(w.users[approvalBy], "", [], false), "operation.approve", s.environment))
              then Err(Denied("approver no longer authorized"))
            else d
  }

  predicate Contains(text: string, part: string) {
    exists i :: 0 <= i <= |text| && part <= text[i..]
  }

  /** A refusal, by its kind or by what it says. */
  predicate IsDenied(e: Error) {
    match e
    case Denied(_) => true
    case ContextDone(text) => Contains(text, "permission")
    case Failure(text) => Contains(text, "permission")
  }

  /** The terminal state a worker reports for the error it ended with. */
  function FinalState(error: Option<Error>): (s: OpState)
    ensures Outcome(s)
    ensures s.Succeeded? <==> error.None?
    ensures s.Rejected? <==> error.Some? && IsDenied(error.value)
    ensures s.TimedOut? <==> error.Some? && error.value.ContextDone? && !Contains(error.value.text, "permission")
  {
    if error.None? then Succeeded
    else if IsDenied(error.value) then Rejected
    else if error.value.ContextDone? then TimedOut
    else Failed
  }

  // ------------------------------------------------------------------ reconciliation

  /** A lease an administrator may release: it ran out and its operation is not running. */
  predicate Releasable(t: Tables, resource: string, now: int) {
    && resource in t.leases
    && t.leases[resource].expiresAt < now
    && !(t.leases[resource].operation in t.operations && t.operations[t.leases[resource].operation].state.Running?)
  }

  function Release(t: Tables, resource: string, actor: string, now: int): Tables {
    t.(leases := if Releasable(t, resource, now) then t.leases - {resource} else t.leases,
       audit := t.audit + multiset{AuditEntry(Reconciled, actor, resource)})
  }

  predicate MayReconcile(w: World, p: Principal, resource: string, confirmed: bool, reason: string) {
    && resource in w.resources && w.resources[resource].hostId in w.hosts
    && var environment := w.hosts[w.resources[resource].hostId].environment;
       Allowed(p, "resource.read", environment) && Allowed(p, "host.update", environment) && confirmed
           && Utf8.Size(reason) >= 10
  }
}
