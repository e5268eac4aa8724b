/**
 * The transactions as the program performs them: statements that read and update the tables in
 * place, row by row where the statement ranges over rows.
 */
module Database {
  import opened Results
  import opened Rbac
  import opened Tables
  import E = Engine
  import W = Worker
  import opened Invariants
  import opened Effects
  import Protocol
  import Utf8
  import History

  class Queue {
    var operations: map<string, Operation>
    var leases: map<string, Lease>
    var batches: map<BatchId, BatchRow>
    var audit: multiset<AuditEntry>

    function View(): Tables
      reads this
    {
      Tables(operations, leases, batches, audit)
    }

    ghost predicate Valid()
      reads this
    {
      TablesInv(View())
    }

    constructor ()
      ensures Valid() && View() == Protocol.INITIAL.t
    {
      operations, leases, batches, audit := map[], map[], map[], multiset{};
      new;
      assert forall b :: Exposed(View(), b) == {};
    }

    /** Appends one audit row; it commits with the transaction that calls it. */
    method Record(event: Event, actor: string, subject: string)
      modifies this`audit
      ensures audit == old(audit) + multiset{AuditEntry(event, actor, subject)}
    {
      audit := audit + multiset{AuditEntry(event, actor, subject)};
    }

    // ---------------------------------------------------------------- workers

    /** Claims the oldest eligible operation no other transaction holds locked, if there is one. */
    method Claim(worker: string, locked: set<string>, now: int) returns (claimed: Option<string>)
      requires Valid()
      modifies this
      ensures Valid()
      ensures claimed.None? ==> View() == old(View()) && forall id :: MayRun(old(View()), id) ==> id in locked
      ensures claimed.Some? ==> MayRun(old(View()), claimed.value) && claimed.value !in locked
      ensures claimed.Some? ==> forall id :: MayRun(old(View()), id) && id !in locked ==>
                old(operations[claimed.value].spec.createdAt) <= old(operations)[id].spec.createdAt
      ensures claimed.Some? ==> ClaimEffect(old(View()), View(), claimed.value, worker, now)
      ensures claimed.Some? ==> View() == W.Claim(old(View()), claimed.value, worker, now)
    {
      hide TablesInv, W.BatchAdmits, W.Eligible, MayRun;
      claimed := Oldest(locked);
      if claimed.Some? {
        var id := claimed.value;
        EligibleMeans(View(), id);
        ClaimKeeps(View(), id, worker, now);
        ClaimMeans(View(), id, worker, now);
        var o := operations[id];
        leases := leases[o.spec.resource := Lease(id, worker, now + W.LEASE)];
        o := o.(state := Running, worker := worker, leaseUntil := Some(now + W.LEASE), startedAt := Some(now));
        operations := operations[id := o];
        Record(ExecutionStarted, worker, id);
      }
    }

    /** The row the claiming query selects. */
    method Oldest(locked: set<string>) returns (best: Option<string>)
      ensures best.None? ==> forall id :: MayRun(View(), id) ==> id in locked
      ensures best.Some? ==> MayRun(View(), best.value) && best.value in operations && best.value !in locked
      ensures best.Some? ==> forall id :: MayRun(View(), id) && id !in locked ==>
                id in operations && operations[best.value].spec.createdAt <= operations[id].spec.createdAt
    {
      best := None;
      var t := View();
      AllEligible(t);
      hide W.Eligible, MayRun;
      var rows := operations.Keys;
      while rows != {}
        invariant rows <= operations.Keys && t == View()
        invariant best.None? ==> forall x :: x in operations && x !in rows && W.Eligible(t, x) ==> x in locked
        invariant best.Some? ==> W.Eligible(t, best.value) && best.value !in locked
        invariant best.Some? ==> forall x :: x in operations && x !in rows && W.Eligible(t, x) && x !in locked ==>
                    operations[best.value].spec.createdAt <= operations[x].spec.createdAt
        decreases |rows|
      {
        var id :| id in rows;
        rows := rows - {id};
        if W.Eligible(t, id) && id !in locked
           && (best.None? || operations[id].spec.createdAt < operations[best.value].spec.createdAt) {
          best := Some(id);
        }
      }
    }

    /** Extends the lease of a running operation, in its row and in the lease table, or in neither. */
    method Renew(id: string, worker: string, now: int) returns (error: Option<Error>)
      requires id in operations
      modifies this
      ensures old(Valid()) ==> Valid()
      ensures (View(), error) == W.Renew(old(View()), id, old(operations[id].spec.resource), worker, now)
      ensures RenewEffect(old(View()), View(), error, id, worker, now)
    {
      hide TablesInv, RenewEffect;
      RenewMeans(View(), id, worker, now);
      if Valid() {
        RenewKeeps(View(), id, worker, now);
      }
      var resource := operations[id].spec.resource;
      var o := operations[id];
      if !(o.worker == worker && o.state.Running? && o.leaseUntil.Some? && o.leaseUntil.value > now) {
        return Some(Failure("operation lease lost or cancelled"));
      }
      var before := operations;
      operations := operations[id := o.(leaseUntil := Some(now + W.LEASE))];
      if !(resource in leases && leases[resource].operation == id && leases[resource].worker == worker
          && leases[resource].expiresAt > now) {
        operations := before;
        return Some(Failure("resource lease lost"));
      }
      leases := leases[resource := leases[resource].(expiresAt := now + W.LEASE)];
      return None;
    }

    method Finish(id: string, worker: string, outcome: OpState, now: int)
      requires Valid() && id in operations && W.Outcome(outcome)
      modifies this
      ensures Valid()
      ensures View() == W.Finish(old(View()), id, old(operations[id].spec.resource), worker, outcome, now)
      ensures FinishEffect(old(View()), View(), id, worker, outcome, now)
    {
      hide FinishEffect, TablesInv, W.Outcome, Grows, Update;
      FinishMeans(View(), id, worker, outcome, now);
      FinishKeeps(View(), id, worker, outcome, now);
      var o := operations[id];
      var hit := o.state.Running? && o.worker == worker;
      if hit {
        operations := operations[id := o.(state := outcome, finishedAt := Some(now), leaseUntil := None)];
      }
      if !outcome.TimedOut? {
        var r := o.spec.resource;
        if r in leases && leases[r].operation == id && leases[r].worker == worker {
          leases := leases - {r};
        }
      }
      if hit {
        Record(Completed(outcome), worker, id);
      }
    }

    method Recover(now: int)
      requires Valid()
      modifies this
      ensures Valid()
      ensures View() == W.Recover(old(View()), now)
      ensures RecoverEffect(old(View()), View(), now)
    {
      hide TablesInv, RecoverEffect;
      RecoverMeans(View(), now);
      RecoverKeeps(View(), now);
      var orphans := W.Expired(View(), now);
      CloseAll(orphans, TimedOut, now);
      RecordOrphans(orphans);
      CloseAll(W.Doomed(View()), Cancelled, now);
    }

    /** One UPDATE over a set of rows. */
    method CloseAll(which: set<string>, state: OpState, now: int)
      requires which <= operations.Keys
      modifies this`operations
      ensures View() == Close(old(View()), which, state, now)
    {
      ghost var t := View();
      CloseNone(t, state, now);
      hide Close;
      var rows, done: set<string> := which, {};
      while rows != {}
        invariant rows + done == which && rows !! done
        invariant View() == Close(t, done, state, now) && operations.Keys == t.operations.Keys
        decreases |rows|
      {
        var id :| id in rows;
        CloseOneMore(t, done, id, state, now);
        operations := operations[id := operations[id].(state := state, finishedAt := Some(now))];
        rows, done := rows - {id}, done + {id};
      }
      assert done == which;
    }

    method RecordOrphans(orphans: set<string>)
      modifies this`audit
      ensures audit == old(audit) + Orphans(orphans)
    {
      var rows, done: set<string> := orphans, {};
      assert Orphans({}) == multiset{};
      hide Orphans;
      while rows != {}
        invariant rows + done == orphans && rows !! done
        invariant audit == old(audit) + Orphans(done)
        decreases |rows|
      {
        var id :| id in rows;
        OneMoreOrphan(done, id);
        rows, done := rows - {id}, done + {id};
        Record(Orphaned, "", id);
      }
      assert done == orphans;
    }

    /**
     * What a worker does with an operation it claimed: the gate, a renewal, the resolution of its
     * parameters, the adapter, one report. `resolution` and `answer` are what resolving the parameters
     * and calling the adapter end with, if it comes to that.
     */
    method Execute(
        id: string, worker: string, w: E.World, resolution: Option<Error>, answer: Option<Error>, now: int, later: int)
        returns (called: bool, state: OpState)
      requires Valid() && id in operations
      modifies this
      ensures Valid()
      ensures called <==> W.Gate(w, old(operations[id].spec), old(operations[id].approvalBy)).Ok?
                          && W.RenewsRow(old(View()), id, worker, now) && resolution.None?
      ensures state == W.FinalState(
                var gate := W.Gate(w, old(operations[id].spec), old(operations[id].approvalBy));
                if gate.Err? then Some(gate.error)
                else if !W.RenewsRow(old(View()), id, worker, now) then
                    Some(Failure("operation lease lost or cancelled"))
                else if resolution.Some? then resolution else answer)
      ensures var gate := W.Gate(w, old(operations[id].spec), old(operations[id].approvalBy));
              var renewed := W.Renew(old(View()), id, old(operations[id].spec.resource), worker, now).0;
              View() == W.Finish(if gate.Ok? then renewed else old(View()),
                                 id, old(operations[id].spec.resource), worker, state, later)
    {
      hide TablesInv, W.Gate, W.FinalState;
      ghost var resource := operations[id].spec.resource;
      RenewKeeps(View(), id, worker, now);
      called := false;
      var error := None;
      var gate := W.Gate(w, operations[id].spec, operations[id].approvalBy);
      if gate.Err? {
        error := Some(gate.error);
      } else {
        error := Renew(id, worker, now);
        if error.None? {
          error := resolution;
          if error.None? {
            called := true;
            error := answer;
          }
        }
      }
      state := W.FinalState(error);
      Finish(id, worker, state, later);
    }

    // ---------------------------------------------------------------- requesters

    method Submit(w: E.World, p: Principal, req: E.Request, id: string, now: int) returns (r: Result<string>)
      requires Valid()
      modifies this
      ensures UniqueKeys(View()) && Grows(old(View()), View())
      // The other invariants survive too, unless the request names a batch it is not an item of.
      ensures (E.Admit(w, p, req, now).Admitted? ==> Fits(old(View()), E.Admit(w, p, req, now).spec)) ==> Valid()
      ensures (View(), r) == E.Submit(old(View()), w, p, req, id, now)
      ensures SubmitEffect(old(View()), View(), r, w, p, req, id, now)
      ensures r.Ok? ==> E.IsRowOf(View(), r.value, p.user.id, req)
    {
      hide SubmitEffect, E.Admit, TablesInv, Grows, Fits, UniqueKeys;
      KeysAreUnique(View());
      SubmitTables(View(), w, p, req, id, now);
      SubmitChanges(View(), w, p, req, id, now);
      var admission := E.Admit(w, p, req, now);
      if admission.Refused? {
        if admission.recorded {
          Record(PolicyDenied, p.user.id, req.resource);
        }
        return Err(admission.error);
      }
      r := Insert(id, admission.spec, admission.approval);
    }

    /** Inserts a row unless its requester already used the key, and tells the two cases of a used key apart. */
    method Insert(id: string, spec: OpSpec, approval: bool) returns (r: Result<string>)
      requires UniqueKeys(View())
      modifies this
      ensures (View(), r) == E.Insert(old(View()), id, spec, approval)
    {
      hide UniqueKeys;
      var existing := Lookup(spec.requester, spec.key);
      if existing.Some? {
        if operations[existing.value].spec.requestHash != spec.requestHash {
          return Err(Denied("idempotency key reused with different request"));
        }
        return Ok(existing.value);
      }
      if id in operations {
        return Err(Failure("duplicate key value"));
      }
      operations := operations[id := E.NewOperation(spec, approval)];
      Record(if approval then ApprovalRequested else Created, spec.requester, id);
      return Ok(id);
    }

    /** Finds the row of a requester's key. */
    method Lookup(requester: string, key: string) returns (r: Option<string>)
      requires UniqueKeys(View())
      ensures r == Existing(View(), requester, key)
    {
      ghost var t := View();
      if id :| id in operations && operations[id].spec.requester == requester && operations[id].spec.key == key {
        UniqueRow(t, id, requester, key);
        return Some(id);
      }
      assert forall x :: !HasKey(t, x, requester, key);
      return None;
    }

    method Approve(p: Principal, id: string, approve: bool, reason: string, now: int) returns (error: Option<Error>)
      requires Valid()
      modifies this
      ensures Valid()
      ensures (View(), error) == E.Approve(old(View()), p, id, approve, reason, now)
      ensures error.None? <==> MayDecide(old(View()), p, id, reason)
      ensures error.Some? ==> View() == old(View())
      ensures error.None? ==> id in old(operations) && ApproveEffect(old(View()), View(), id, p.user.id, approve, now)
    {
      hide TablesInv, ApproveEffect;
      ApproveMeans(View(), p, id, approve, reason, now);
      if id !in operations {
        return Some(E.NO_ROWS);
      }
      var o := operations[id];
      error := E.ApprovalObjection(o, p, reason);
      if error.Some? {
        return;
      }
      hide Allowed;
      DecidedKeeps(View(), id, p.user.id, approve, now);
      if approve {
        operations := operations[id := o.(state := Queued, approvalBy := p.user.id, finishedAt := None)];
        Record(ApprovalGranted, p.user.id, id);
      } else {
        operations := operations[id := o.(state := Rejected, approvalBy := p.user.id, finishedAt := Some(now))];
        Record(ApprovalRejected, p.user.id, id);
      }
    }

    method Cancel(p: Principal, id: string, now: int) returns (error: Option<Error>)
      requires Valid()
      modifies this
      ensures Valid()
      ensures (View(), error) == E.Cancel(old(View()), p, id, now)
      ensures error.None? <==> MayCancel(old(View()), p, id)
      ensures error.Some? ==> View() == old(View())
      ensures error.None? ==> id in old(operations) && CancelledBy(old(View()), View(), id, p.user.id, now)
    {
      hide TablesInv, CancelledBy;
      CancelMeans(View(), p, id, now);
      if id !in operations {
        return Some(E.NO_ROWS);
      }
      error := E.CancelObjection(operations[id], p);
      if error.Some? {
        return;
      }
      hide Allowed;
      CancelKeeps(View(), id, p.user.id, now);
      operations := operations[id := operations[id].(state := Cancelled, finishedAt := Some(now))];
      Record(CancelledByUser, p.user.id, id);
    }

    /**
     * Releases a lease that ran out and whose operation is not running, for a caller who may see the
     * resource and change its host, and who confirmed with evidence that the remote state was checked.
     */
    method Reconcile(
        w: E.World, p: Principal, resource: string, confirmed: bool, reason: string, now: int)
        returns (released: Result<bool>)
      requires Valid()
      modifies this
      ensures Valid()
      ensures released.Ok? <==> MayRelease(w, p, resource, confirmed, reason)
      ensures View() == if released.Ok? then W.Release(old(View()), resource, p.user.id, now) else old(View())
      ensures released.Ok? ==> ReleaseEffect(old(View()), View(), resource, p.user.id, now)
      ensures released == Ok(true) <==> resource in old(leases) && resource !in leases
      ensures released == Ok(true) ==> forall id :: id in operations && operations[id].spec.resource == resource ==>
          !operations[id].state.Running?
    {
      hide Allowed, TablesInv, W.Release, ReleaseEffect;
      ReleaseMeans(View(), resource, p.user.id, now);
      if resource !in w.resources || w.resources[resource].hostId !in w.hosts {
        return Err(E.NO_ROWS);
      }
      var environment := w.hosts[w.resources[resource].hostId].environment;
      if !Allowed(p, "resource.read", environment) || !Allowed(p, "host.update", environment) {
        return Err(Denied("permission denied"));
      }
      if !confirmed || Utf8.Size(reason) < 10 {
        return Err(Failure("confirm remote state was checked and provide reconciliation evidence"));
      }
      var gone := ReleaseLease(resource, p.user.id, now);
      return Ok(gone);
    }

    method ReleaseLease(resource: string, actor: string, now: int) returns (released: bool)
      requires Valid()
      modifies this
      ensures Valid() && operations == old(operations)
      ensures View() == W.Release(old(View()), resource, actor, now)
      ensures released <==> resource in old(leases) && resource !in leases
      ensures released ==> forall id :: id in operations && operations[id].spec.resource == resource ==>
          !operations[id].state.Running?
    {
      ReleaseKeeps(View(), resource, actor, now);
      ghost var t := View();
      NoneRunning(t, resource);
      hide TablesInv;
      released := W.Releasable(View(), resource, now);
      if released {
        leases := leases - {resource};
      }
      Record(Reconciled, actor, resource);
    }

    /**
     * Creates a batch: its row, its items one by one, and the flag that lets them run. A batch id is
     * returned once the row is there; `worlds` and `newIds` are what each item's submission meets.
     */
    method Batch(
        p: Principal, req: E.Request, b: BatchRequest, w: E.World, worlds: seq<E.World>, newIds: seq<string>, now: int)
        returns (id: Option<BatchId>, ops: seq<string>, error: Option<Error>)
      requires Valid()
      requires b.action == req.action && b.parameters == req.parameters
      requires |worlds| == |b.ids| && |newIds| == |b.ids|
      modifies this
      ensures Valid() && leases == old(leases)
      ensures id.None? ==> error.Some? && View() == old(View())
      // Nothing happens to a request that meets an objection, or whose key names another batch.
      ensures !BatchPosed(w, p, req, b) ==> id.None? && error == E.BatchObjection(w, p, req, b)
      ensures BatchPosed(w, p, req, b) ==>
                var row := BatchId(p.user.id, req.key);
                && (id.None? <==> row in old(batches) && old(batches)[row].request != b)
                && (id.None? ==> error == Some(Denied("batch idempotency collision")))
      ensures id.Some? ==>
                id.value == BatchId(p.user.id, req.key) && id.value in batches && batches[id.value].request == b
      ensures id.Some? ==>
                var ready := error.None? || (id.value in old(batches) && old(batches)[id.value].ready);
                batches == old(batches)[id.value :=
                    BatchRow(p.user.id, b.size, b.threshold, b.continueOnError, b, ready)]
      // Success: every item has its operation and the batch may run.
      ensures error.None? ==> id.Some? && batches[id.value].ready && |ops| == |b.ids|
      ensures error.None? ==> forall i :: 0 <= i < |b.ids| ==>
          E.IsRowOf(View(), ops[i], p.user.id, E.Item(req, id.value, b, i))
      ensures error.None? ==> forall i :: 0 <= i < |b.ids| ==>
                ItemDone(old(View()), View(), ops[i], worlds[i], p, req, id.value, b, i, now)
      // Failure after the row was there: nothing of the batch is left to run.
      ensures error.Some? && id.Some? ==> E.PendingOf(View(), id.value) == {}
      // Replay of a ready batch: no row appears; it succeeds if and only if every item is accepted;
      // and it leaves the rows alone if and only if it succeeds or nothing of the batch was pending.
      ensures id.Some? && id.value in old(batches) && old(batches[id.value].ready) ==>
                && operations.Keys == old(operations.Keys) && batches == old(batches)
                && (error.None? <==> forall i :: 0 <= i < |b.ids| ==>
                    E.Accepted(old(View()), worlds[i], p, E.Item(req, id.value, b, i), now))
                && (operations == old(operations) <==> error.None? || E.PendingOf(old(View()), id.value) == {})
      // Rows that were there stay as they were, but for what a failure cancels; new ones are the items'.
      ensures forall x :: x in old(operations) ==>
                x in operations
                && operations[x] == if id.Some? && error.Some? then CancelledIn(old(operations)[x], id.value, now)
                                    else old(operations)[x]
      ensures error.None? ==> forall x :: x in operations && x !in old(operations) ==> x in ops
    {
      hide TablesInv, E.Admit, E.Authorize, Fits, E.Accepted, ItemDone, BatchPosed, CancelledIn, E.IsRowOf, E.Item,
           E.PendingOf, Grows, UniqueKeys;
      BatchMeans(w, p, req, b);
      ops, id := [], None;
      error := E.BatchObjection(w, p, req, b);
      if error.Some? {
        return;
      }
      Protocol.Shape(w, p, req, b);
      hide E.BatchObjection;
      var batch := BatchId(p.user.id, req.key);
      OpenKeeps(View(), batch, b);
      RowOfBatch(View(), batch);
      if batch !in batches {
        batches := batches[batch := BatchRow(p.user.id, b.size, b.threshold, b.continueOnError, b, false)];
      }
      if batches[batch].request != b {
        return None, [], Some(Denied("batch idempotency collision"));
      }
      id := Some(batch);
      ghost var created := View();
      ops, error := Fill(p, req, batch, b, worlds, newIds, now);
      SameRowsPending(old(View()), created, batch);
      if error.None? {
        forall i | 0 <= i < |b.ids| ensures ItemDone(old(View()), View(), ops[i], worlds[i], p, req, batch, b, i, now) {
          SameRowsDone(created, View(), old(View()), View(), ops[i], worlds[i], p, req, batch, b, i, now);
        }
      }
      forall i | 0 <= i < |b.ids|
        ensures E.Accepted(created, worlds[i], p, E.Item(req, batch, b, i), now) <==>
                  E.Accepted(old(View()), worlds[i], p, E.Item(req, batch, b, i), now)
      {
        SameRowsAccept(created, old(View()), worlds[i], p, E.Item(req, batch, b, i), now);
      }
    }

    /** Submits the items of a batch whose row is there, and then lets the batch run or ends what is left of it. */
    method Fill(
        p: Principal, req: E.Request, batch: BatchId, b: BatchRequest, worlds: seq<E.World>, newIds: seq<string>,
        now: int)
        returns (ops: seq<string>, error: Option<Error>)
      requires Valid() && batch == BatchId(p.user.id, req.key) && batch in batches && batches[batch].request == b
      requires |worlds| == |b.ids| && |newIds| == |b.ids|
      modifies this
      ensures Valid() && leases == old(leases)
      ensures batches == old(batches)[batch := old(batches)[batch].(ready := error.None? || old(batches)[batch].ready)]
      ensures error.None? ==> |ops| == |b.ids|
      ensures error.None? ==> forall i :: 0 <= i < |b.ids| ==>
                E.IsRowOf(View(), ops[i], p.user.id, E.Item(req, batch, b, i))
                && ItemDone(old(View()), View(), ops[i], worlds[i], p, req, batch, b, i, now)
      ensures error.Some? ==> E.PendingOf(View(), batch) == {}
      ensures old(batches[batch].ready) ==>
                && operations.Keys == old(operations.Keys)
                && (error.None? <==> forall i :: 0 <= i < |b.ids| ==>
                    E.Accepted(old(View()), worlds[i], p, E.Item(req, batch, b, i), now))
                && (operations == old(operations) <==> error.None? || E.PendingOf(old(View()), batch) == {})
      ensures forall x :: x in old(operations) ==>
                x in operations
                && operations[x] == if error.Some? then CancelledIn(old(operations)[x], batch, now)
                    else old(operations)[x]
      ensures error.None? ==> forall x :: x in operations && x !in old(operations) ==> x in ops
    {
      hide TablesInv, Fits, E.Accepted, NewItem, ItemDone, E.Item, E.IsRowOf, CancelledIn, AbortEffect, Grows, Update,
           UniqueKeys;
      ops, error := SubmitItems(p, req, batch, b, worlds, newIds, now);
      ghost var submitted := View();
      if error.Some? {
        AbortKeeps(submitted, batch, now);
        NothingPending(submitted, batch, now);
        History.Aborted(submitted, batch, now);
        SameRowsPending(old(View()), submitted, batch);
        AbortCancels(submitted, batch, now);
        CloseAll(E.PendingOf(View(), batch), Cancelled, now);
        return;
      }
      AllTaken(View(), req, batch, b, ops);
      PublishKeeps(View(), batch);
      batches := batches[batch := batches[batch].(ready := true)];
      forall i | 0 <= i < |b.ids|
        ensures E.IsRowOf(View(), ops[i], p.user.id, E.Item(req, batch, b, i))
        ensures ItemDone(old(View()), View(), ops[i], worlds[i], p, req, batch, b, i, now)
      {
        ItemIsDone(old(View()), submitted, ops[i], worlds[i], p, req, batch, b, i, now);
        SameRowsDone(old(View()), submitted, old(View()), View(), ops[i], worlds[i], p, req, batch, b, i, now);
        SameRowsStand(submitted, View(), ops[i], p.user.id, E.Item(req, batch, b, i));
      }
    }

    /** Submits the items of a batch in order, up to the first that is refused. */
    method SubmitItems(
        p: Principal, req: E.Request, batch: BatchId, b: BatchRequest, worlds: seq<E.World>, newIds: seq<string>,
        now: int)
        returns (ops: seq<string>, error: Option<Error>)
      requires Valid() && batch == BatchId(p.user.id, req.key) && batch in batches && batches[batch].request == b
      requires |worlds| == |b.ids| && |newIds| == |b.ids|
      modifies this
      ensures Valid() && leases == old(leases) && batches == old(batches)
      ensures |ops| <= |b.ids| && (error.None? <==> |ops| == |b.ids|)
      ensures forall i :: 0 <= i < |ops| ==> E.IsRowOf(View(), ops[i], p.user.id, E.Item(req, batch, b, i))
      ensures forall i :: 0 <= i < |ops| ==>
                NewItem(old(View()), View(), ops[i], worlds[i], p, E.Item(req, batch, b, i), now)
      ensures forall x :: x in old(operations) ==> x in operations && operations[x] == old(operations)[x]
      ensures forall x :: x in operations && x !in old(operations) ==> x in ops
      ensures batches[batch].ready ==>
                && operations == old(operations)
                && (error.None? <==> forall i :: 0 <= i < |b.ids| ==>
                    E.Accepted(old(View()), worlds[i], p, E.Item(req, batch, b, i), now))
    {
      hide TablesInv, E.Admit, Fits, E.Submit, Grows, E.Accepted, UniqueKeys, SubmitEffect, NewItem, E.IsRowOf, E.Item;
      BatchIsShaped(View(), batch);
      Protocol.GrowsItself(View());
      ops, error := [], None;
      for i := 0 to |b.ids|
        invariant Valid() && leases == old(leases) && batches == old(batches) && |ops| == i
        invariant Grows(old(View()), View())
        invariant forall x :: x in old(operations) ==> x in operations && operations[x] == old(operations)[x]
        invariant forall j :: 0 <= j < i ==> E.IsRowOf(View(), ops[j], p.user.id, E.Item(req, batch, b, j))
        invariant forall j :: 0 <= j < i ==>
            NewItem(old(View()), View(), ops[j], worlds[j], p, E.Item(req, batch, b, j), now)
        invariant forall x :: x in operations && x !in old(operations) ==> x in ops
        invariant batches[batch].ready ==> operations == old(operations)
        invariant batches[batch].ready ==> forall j :: 0 <= j < i ==>
            E.Accepted(old(View()), worlds[j], p, E.Item(req, batch, b, j), now)
      {
        ghost var before := View();
        if batches[batch].ready {
          SameRowsAccept(old(View()), before, worlds[i], p, E.Item(req, batch, b, i), now);
        }
        ItemFitsBatch(before, p, req, batch, b, i, worlds[i], now);
        ItemSubmitted(before, p, req, batch, b, i, worlds[i], newIds[i], now);
        var r := Submit(worlds[i], p, E.Item(req, batch, b, i), newIds[i], now);
        OldRowsStay(before, View(), r, worlds[i], p, E.Item(req, batch, b, i), newIds[i], now);
        RowsPersist(before, View(), p.user.id, req, batch, b, ops);
        NewItemsPersist(old(View()), before, View(), p, req, batch, b, ops, worlds, now);
        if r.Err? {
          return ops, Some(r.error);
        }
        GrowsTwice(old(View()), before, View());
        NewItemAdded(old(View()), before, View(), p, req, batch, b, ops, r.value, worlds[i], newIds[i], now);
        ops := ops + [r.value];
      }
    }
  }

  // ------------------------------------------------------------------ facts the methods rely on

  lemma {:induction false} AllEligible(t: Tables)
    ensures forall id :: (W.Eligible(t, id) <==> MayRun(t, id)) && (MayRun(t, id) ==> id in t.operations)
  {
    hide W.Eligible;
    forall id: string ensures W.Eligible(t, id) <==> MayRun(t, id) {
      EligibleMeans(t, id);
    }
  }

  lemma {:induction false} UniqueRow(t: Tables, id: string, requester: string, key: string)
    requires UniqueKeys(t) && HasKey(t, id, requester, key)
    ensures Existing(t, requester, key) == Some(id)
  {
    var found := Existing(t, requester, key);
    assert SameKey(t.operations[id].spec, t.operations[found.value].spec);
  }

  lemma {:induction false} NoneRunning(t: Tables, resource: string)
    requires LeaseAgreement(t)
    ensures forall id, now :: W.Releasable(t, resource, now) ==>
              id in t.operations && t.operations[id].spec.resource == resource ==> !t.operations[id].state.Running?
  {
    forall id | id in t.operations && t.operations[id].state.Running? ensures LeaseOf(t, id) {}
  }

  /** The audit rows of operations whose lease ran out. */
  function Orphans(ids: set<string>): multiset<AuditEntry> {
    multiset(set id | id in ids :: AuditEntry(Orphaned, "", id))
  }

  lemma {:induction false} OneMoreOrphan(done: set<string>, id: string)
    requires id !in done
    ensures Orphans(done + {id}) == Orphans(done) + multiset{AuditEntry(Orphaned, "", id)}
  {
    var entries := set x | x in done :: AuditEntry(Orphaned, "", x);
    assert AuditEntry(Orphaned, "", id) !in entries;
    assert (set x | x in done + {id} :: AuditEntry(Orphaned, "", x)) == entries + {AuditEntry(Orphaned, "", id)};
  }

  lemma {:induction false} CloseNone(t: Tables, state: OpState, now: int)
    ensures Close(t, {}, state, now) == t
  {}

  lemma {:induction false} CloseOneMore(t: Tables, done: set<string>, id: string, state: OpState, now: int)
    requires id in t.operations && id !in done
    ensures var before, after := Close(t, done, state, now), Close(t, done + {id}, state, now);
            && id in before.operations && after.operations.Keys == t.operations.Keys
            && var closed := before.operations[id].(state := state, finishedAt := Some(now));
               after == before.(operations := before.operations[id := closed])
  {
    var before, after := Close(t, done, state, now), Close(t, done + {id}, state, now);
    assert after.operations == before.operations[id := before.operations[id].(state := state, finishedAt := Some(now))];
  }

  lemma {:induction false} InsertFinds(t: Tables, id: string, spec: OpSpec, approval: bool)
    ensures var (n, r) := E.Insert(t, id, spec, approval);
            r.Ok? ==>
              HasKey(n, r.value, spec.requester, spec.key)
              && n.operations[r.value].spec.requestHash == spec.requestHash
  {}

  lemma {:induction false} KeysAreUnique(t: Tables)
    requires TablesInv(t)
    ensures UniqueKeys(t)
  {}

  lemma {:induction false} SubmitChanges(t: Tables, w: E.World, p: Principal, req: E.Request, id: string, now: int)
    requires UniqueKeys(t)
    ensures var (n, r) := E.Submit(t, w, p, req, id, now); SubmitEffect(t, n, r, w, p, req, id, now)
  {
    forall x, y | HasKey(t, x, p.user.id, req.key) && HasKey(t, y, p.user.id, req.key) ensures x == y {
      assert SameKey(t.operations[x].spec, t.operations[y].spec);
    }
    hide E.Submit, SubmitEffect;
    SubmitMeans(t, w, p, req, id, now);
  }

  /** What a submission keeps: rows go forward and keys stay unique, and an item of its batch keeps everything. */
  lemma {:induction false} SubmitTables(t: Tables, w: E.World, p: Principal, req: E.Request, id: string, now: int)
    requires TablesInv(t)
    ensures var (n, r) := E.Submit(t, w, p, req, id, now);
            && UniqueKeys(n) && Grows(t, n) && n.leases == t.leases && n.batches == t.batches
            && (r.Ok? ==> E.IsRowOf(n, r.value, p.user.id, req))
            && ((E.Admit(w, p, req, now).Admitted? ==> Fits(t, E.Admit(w, p, req, now).spec)) ==> TablesInv(n))
  {
    assert UniqueKeys(t);
    hide TablesInv, Grows, Fits, E.Admit, E.Insert, E.RecordRefusal, UniqueKeys, Protocol.OriginOk, E.Body;
    match E.Admit(w, p, req, now)
    case Refused(e, recorded) =>
      RefusalTables(t, p, req);
    case Admitted(spec, approval) =>
      Protocol.AdmittedSpec(w, p, req, now);
      InsertTables(t, id, spec, approval);
  }

  lemma {:induction false} InsertTables(t: Tables, id: string, spec: OpSpec, approval: bool)
    requires TablesInv(t) && UniqueKeys(t)
    ensures var (n, r) := E.Insert(t, id, spec, approval);
            && UniqueKeys(n) && Grows(t, n) && n.leases == t.leases && n.batches == t.batches
            && (r.Ok? ==>
                  HasKey(n, r.value, spec.requester, spec.key)
                  && n.operations[r.value].spec.requestHash == spec.requestHash)
            && (Fits(t, spec) ==> TablesInv(n))
  {
    hide TablesInv, Grows, Fits, E.Insert, UniqueKeys, KeyTaken;
    InsertGrows(t, id, spec, approval);
    if Fits(t, spec) {
      InsertKeeps(t, id, spec, approval);
    }
    InsertFinds(t, id, spec, approval);
  }

  lemma {:induction false} InsertGrows(t: Tables, id: string, spec: OpSpec, approval: bool)
    requires UniqueKeys(t)
    ensures var n := E.Insert(t, id, spec, approval).0;
            UniqueKeys(n) && Grows(t, n) && n.leases == t.leases && n.batches == t.batches
  {
    hide UniqueKeys, Grows;
    var n := E.Insert(t, id, spec, approval).0;
    if Existing(t, spec.requester, spec.key).None? && id !in t.operations {
      NewRowKeys(t, n, id);
      RowAdded(t, n, id);
    } else {
      Protocol.GrowsItself(t);
    }
  }

  lemma {:induction false} RowAdded(t: Tables, n: Tables, id: string)
    requires id !in t.operations && id in n.operations && n.operations == t.operations[id := n.operations[id]]
        && n.batches == t.batches
    ensures Grows(t, n)
  {
  }

  lemma {:induction false} SameRowsAccept(t: Tables, n: Tables, w: E.World, p: Principal, req: E.Request, now: int)
    requires n.operations == t.operations
    ensures E.Accepted(n, w, p, req, now) <==> E.Accepted(t, w, p, req, now)
  {
    hide E.Admit;
    assert forall id :: HasKey(n, id, p.user.id, req.key) <==> HasKey(t, id, p.user.id, req.key);
  }

  lemma {:induction false} SameRowsPending(t: Tables, n: Tables, b: BatchId)
    ensures n.operations == t.operations ==> E.PendingOf(n, b) == E.PendingOf(t, b)
  {
    assert n.operations == t.operations ==> forall id :: InBatch(n, id, b) <==> InBatch(t, id, b);
  }

  lemma {:induction false} RefusalTables(t: Tables, p: Principal, req: E.Request)
    requires TablesInv(t)
    ensures Grows(t, t) && TablesInv(E.RecordRefusal(t, p, req)) && UniqueKeys(E.RecordRefusal(t, p, req))
        && Grows(t, E.RecordRefusal(t, p, req))
    ensures E.RecordRefusal(t, p, req).leases == t.leases && E.RecordRefusal(t, p, req).batches == t.batches
  {
    RefusalKeeps(t, p, req);
  }

  lemma {:induction false} ItemFitsBatch(
      t: Tables, p: Principal, req: E.Request, batch: BatchId, b: BatchRequest, i: nat, w: E.World, now: int)
    requires i < |b.ids| && batch == BatchId(p.user.id, req.key) && batch in t.batches && t.batches[batch].request == b
    ensures var a := E.Admit(w, p, E.Item(req, batch, b, i), now); a.Admitted? ==> Fits(t, a.spec)
  {
    var item := E.Item(req, batch, b, i);
    if E.Admit(w, p, item, now).Admitted? {
      Protocol.AdmittedSpec(w, p, item, now);
    }
    hide E.Admit;
  }

  /** Submitting an item touches neither leases nor batches, and inserts nothing into a ready batch. */
  lemma {:induction false} ItemSubmitted(
      t: Tables, p: Principal, req: E.Request, batch: BatchId, b: BatchRequest, i: nat, w: E.World, id: string,
      now: int)
    requires TablesInv(t) && i < |b.ids| && batch == BatchId(p.user.id, req.key) && batch in t.batches
        && t.batches[batch].request == b
    ensures var n := E.Submit(t, w, p, E.Item(req, batch, b, i), id, now).0;
            && n.leases == t.leases && n.batches == t.batches
            && (t.batches[batch].ready ==>
                  n.operations == t.operations
                  && (E.Submit(t, w, p, E.Item(req, batch, b, i), id, now).1.Ok? <==>
                      E.Accepted(t, w, p, E.Item(req, batch, b, i), now)))
  {
    assert BatchRowOk(t, batch);
    assert UniqueKeys(t);
    hide TablesInv, E.Admit, E.Accepted, E.Submit, UniqueKeys;
    var item := E.Item(req, batch, b, i);
    ItemFitsBatch(t, p, req, batch, b, i, w, now);
    SubmitTables(t, w, p, item, id, now);
    if t.batches[batch].ready {
      assert KeyTaken(t, p.user.id, item.key, item.resource);
      History.TakenKey(t, w, p, item, id, now);
    }
  }

  lemma {:induction false} RowsPersist(
      t: Tables, n: Tables, requester: string, req: E.Request, batch: BatchId, b: BatchRequest, ops: seq<string>)
    requires Grows(t, n) && |ops| <= |b.ids|
    requires forall j :: 0 <= j < |ops| ==> E.IsRowOf(t, ops[j], requester, E.Item(req, batch, b, j))
    ensures forall j :: 0 <= j < |ops| ==> E.IsRowOf(n, ops[j], requester, E.Item(req, batch, b, j))
  {}

  /**
   * The operation of an item: it has the item's key and is bound to the request, for the item's
   * resource; if it is new it is the member of the item's index, with the columns of its submission.
   */
  ghost predicate ItemDone(
      t: Tables, n: Tables, x: string, w: E.World, p: Principal, req: E.Request, batch: BatchId, b: BatchRequest,
      i: nat, now: int)
    requires i < |b.ids|
  {
    var item := req.(resource := b.ids[i], key := req.key + ":" + b.ids[i], batch := Some(batch), index := i);
    && HasKey(n, x, p.user.id, item.key)
    && SameRequest(n.operations[x].spec.requestHash, item)
    && NewItem(t, n, x, w, p, item, now)
  }

  lemma {:induction false} ItemIsDone(
      t: Tables, n: Tables, x: string, w: E.World, p: Principal, req: E.Request, batch: BatchId, b: BatchRequest,
      i: nat, now: int)
    requires i < |b.ids| && E.IsRowOf(n, x, p.user.id, E.Item(req, batch, b, i))
    requires NewItem(t, n, x, w, p, E.Item(req, batch, b, i), now)
    ensures ItemDone(t, n, x, w, p, req, batch, b, i, now)
  {
    hide NewItem, SameRequest;
    ItemMeans(req, batch, b, i);
    var item := req.(resource := b.ids[i], key := req.key + ":" + b.ids[i], batch := Some(batch), index := i);
    assert item == E.Item(req, batch, b, i);
    BodyMeans(n.operations[x].spec.requestHash, item);
  }

  lemma {:induction false} SameRowsStand(t: Tables, n: Tables, x: string, requester: string, req: E.Request)
    requires n.operations == t.operations
    ensures E.IsRowOf(n, x, requester, req) <==> E.IsRowOf(t, x, requester, req)
  {}

  lemma {:induction false} SameRowsDone(
      t: Tables, n: Tables, t': Tables, n': Tables, x: string, w: E.World, p: Principal, req: E.Request,
      batch: BatchId, b: BatchRequest, i: nat, now: int)
    requires i < |b.ids| && t'.operations == t.operations && n'.operations == n.operations
    ensures ItemDone(t, n, x, w, p, req, batch, b, i, now) ==> ItemDone(t', n', x, w, p, req, batch, b, i, now)
  {
    hide WellPosed, Columns, SameRequest;
    assert forall y, key :: HasKey(t, y, p.user.id, key) <==> HasKey(t', y, p.user.id, key);
  }

  /** An item whose key was not used got a new operation, with the columns of its submission. */
  ghost predicate NewItem(t: Tables, n: Tables, x: string, w: E.World, p: Principal, item: E.Request, now: int) {
    !KeyUsed(t, p, item) ==> x in n.operations && WellPosed(w, item) && Columns(n.operations[x].spec, w, p, item, now)
  }

  lemma {:induction false} OldRowsStay(
      t: Tables, n: Tables, r: Result<string>, w: E.World, p: Principal, req: E.Request, id: string, now: int)
    requires SubmitEffect(t, n, r, w, p, req, id, now)
    ensures forall x :: x in t.operations ==> x in n.operations && n.operations[x] == t.operations[x]
    ensures r.Err? ==> n.operations == t.operations
  {
    hide WellPosed, Columns, Admissible, ApprovalAsked, SameRequest;
    AdmissibleIsPosed(w, p, req);
  }

  lemma {:induction false} NewItemsPersist(
      t: Tables, m: Tables, n: Tables, p: Principal, req: E.Request, batch: BatchId, b: BatchRequest,
      ops: seq<string>, worlds: seq<E.World>, now: int)
    requires Grows(m, n) && |ops| <= |b.ids| == |worlds|
    requires forall j :: 0 <= j < |ops| ==> NewItem(t, m, ops[j], worlds[j], p, E.Item(req, batch, b, j), now)
    ensures forall j :: 0 <= j < |ops| ==> NewItem(t, n, ops[j], worlds[j], p, E.Item(req, batch, b, j), now)
  {
    hide WellPosed, Columns, KeyUsed, E.Item;
    forall j | 0 <= j < |ops| ensures NewItem(t, n, ops[j], worlds[j], p, E.Item(req, batch, b, j), now) {
      assert NewItem(t, m, ops[j], worlds[j], p, E.Item(req, batch, b, j), now);
      if !KeyUsed(t, p, E.Item(req, batch, b, j)) {
        assert Forward(m.operations[ops[j]], n.operations[ops[j]]);
      }
    }
  }

  /** What a successful submission of item |ops| adds. */
  lemma {:induction false} NewItemAdded(
      t: Tables, m: Tables, n: Tables, p: Principal, req: E.Request, batch: BatchId, b: BatchRequest,
      ops: seq<string>, x: string, w: E.World, id: string, now: int)
    requires |ops| < |b.ids| && E.WellShaped(b)
    requires forall y :: y in m.operations && y !in t.operations ==> y in ops
    requires forall j :: 0 <= j < |ops| ==> E.IsRowOf(m, ops[j], p.user.id, E.Item(req, batch, b, j))
    requires Grows(t, m) && SubmitEffect(m, n, Ok(x), w, p, E.Item(req, batch, b, |ops|), id, now)
    ensures NewItem(t, n, x, w, p, E.Item(req, batch, b, |ops|), now)
    ensures forall y :: y in n.operations && y !in t.operations ==> y in ops + [x]
  {
    var item := E.Item(req, batch, b, |ops|);
    hide WellPosed, Columns, Admissible, E.Item, ApprovalAsked, SameRequest;
    forall j | 0 <= j < |ops| ensures !HasKey(m, ops[j], p.user.id, item.key) {
      assert E.IsRowOf(m, ops[j], p.user.id, E.Item(req, batch, b, j));
      ItemKeysDiffer(req, batch, b, j, |ops|);
    }
    forall y | HasKey(m, y, p.user.id, item.key) ensures HasKey(t, y, p.user.id, item.key) {
      assert y in t.operations;
      assert Forward(t.operations[y], m.operations[y]);
    }
    assert KeyUsed(m, p, item) ==> KeyUsed(t, p, item);
    AdmissibleIsPosed(w, p, item);
  }

  lemma {:induction false} GrowsTwice(t: Tables, m: Tables, n: Tables)
    requires Grows(t, m) && Grows(m, n)
    ensures Grows(t, n)
  {
    forall id | id in t.operations ensures id in n.operations && Forward(t.operations[id], n.operations[id]) {
      assert Forward(t.operations[id], m.operations[id]) && Forward(m.operations[id], n.operations[id]);
    }
  }

  lemma {:induction false} AdmissibleIsPosed(w: E.World, p: Principal, item: E.Request)
    ensures Admissible(w, p, item) ==> WellPosed(w, item)
  {}

  lemma {:induction false} ItemKeysDiffer(req: E.Request, batch: BatchId, b: BatchRequest, i: nat, j: nat)
    requires E.WellShaped(b) && i < j < |b.ids|
    ensures E.Item(req, batch, b, i).key != E.Item(req, batch, b, j).key
  {
    var prefix := req.key + ":";
    assert (prefix + b.ids[i])[|prefix|..] == b.ids[i] && (prefix + b.ids[j])[|prefix|..] == b.ids[j];
  }

  /** A batch's row repeats what its request says. */
  lemma {:induction false} RowOfBatch(t: Tables, batch: BatchId)
    requires TablesInv(t)
    ensures batch in t.batches ==>
              var row := t.batches[batch];
              row == BatchRow(batch.requester, row.request.size, row.request.threshold, row.request.continueOnError,
                              row.request, row.ready)
  {
    assert batch in t.batches ==> BatchRowOk(t, batch);
  }

  /** A row after the failure of its batch: cancelled if it waited or was queued. */
  ghost function CancelledIn(o: Operation, batch: BatchId, now: int): Operation {
    if o.spec.batch == Some(batch) && o.state in {WaitingApproval, Queued}
    then Operation(o.spec, OpState.Cancelled, o.approvalBy, o.worker, o.startedAt, Some(now), o.leaseUntil) else o
  }

  lemma {:induction false} AbortCancels(t: Tables, batch: BatchId, now: int)
    ensures var n := E.AbortBatch(t, batch, now);
            forall x :: x in t.operations ==>
              x in n.operations && n.operations[x] == CancelledIn(t.operations[x], batch, now)
  {
    AbortMeans(t, batch, now);
  }

  lemma {:induction false} BatchIsShaped(t: Tables, batch: BatchId)
    requires TablesInv(t) && batch in t.batches
    ensures E.WellShaped(t.batches[batch].request)
  {
    assert BatchRowOk(t, batch);
  }

  lemma {:induction false} AllTaken(t: Tables, req: E.Request, batch: BatchId, b: BatchRequest, ops: seq<string>)
    requires TablesInv(t) && |ops| == |b.ids| && batch.key == req.key
    requires forall j :: 0 <= j < |ops| ==> E.IsRowOf(t, ops[j], batch.requester, E.Item(req, batch, b, j))
    ensures forall j :: 0 <= j < |b.ids| ==> ItemTaken(t, batch, b.ids[j])
  {
    assert Rows(t);
    hide TablesInv;
    forall j | 0 <= j < |b.ids| ensures ItemTaken(t, batch, b.ids[j]) {
      assert E.IsRowOf(t, ops[j], batch.requester, E.Item(req, batch, b, j));
      assert Lifecycle(t.operations[ops[j]]);
      assert HasKey(t, ops[j], batch.requester, E.ItemKey(batch.key, b.ids[j]));
    }
  }

  lemma {:induction false} NothingPending(t: Tables, b: BatchId, now: int)
    ensures E.PendingOf(E.AbortBatch(t, b, now), b) == {}
  {
    var n := E.AbortBatch(t, b, now);
    forall id | id in n.operations ensures id !in E.PendingOf(n, b) {
      assert InBatch(n, id, b) ==> InBatch(t, id, b);
    }
  }
}
