/** What every transaction on the queue's tables keeps. */
module Invariants {
  import opened Results
  import opened Tables
  import opened Engine
  import opened Worker
  import opened Finite
  import Rbac

  // ------------------------------------------------------------------ the invariants

  ghost predicate SameKey(a: OpSpec, b: OpSpec) {
    a.requester == b.requester && a.key == b.key
  }

  /** A requester's key names at most one operation. */
  ghost predicate UniqueKeys(t: Tables) {
    forall i, j :: i in t.operations && j in t.operations && SameKey(t.operations[i].spec, t.operations[j].spec) ==>
        i == j
  }

  /** What the columns of one row say about each other. */
  ghost predicate Lifecycle(o: Operation) {
    && (o.state.Running? ==> Started(o) && o.leaseUntil.Some?)
    && (Pending(o.state) ==> !Started(o))
    && (Terminal(o.state) <==> o.finishedAt.Some?)
    && (o.state.WaitingApproval? ==> o.approvalBy == "")
    && o.spec.target.Some?
    && o.spec.requestHash.resource == o.spec.resource
  }

  ghost predicate Rows(t: Tables) {
    forall id :: id in t.operations ==> Lifecycle(t.operations[id])
  }

  ghost predicate LeaseOf(t: Tables, id: string)
    requires id in t.operations
  {
    var o := t.operations[id];
    && o.leaseUntil.Some?
    && o.spec.resource in t.leases
    && t.leases[o.spec.resource] == Lease(id, o.worker, o.leaseUntil.value)
  }

  /** Every running row has the lease on its resource, naming it, its worker and its expiry. */
  ghost predicate LeaseAgreement(t: Tables) {
    forall id :: id in t.operations && t.operations[id].state.Running? ==> LeaseOf(t, id)
  }

  /** Every lease was taken by an operation on that resource. */
  ghost predicate LeaseOrigin(t: Tables) {
    forall r :: r in t.leases ==>
      var l := t.leases[r];
      && l.operation in t.operations
      && Started(t.operations[l.operation])
      && t.operations[l.operation].spec.resource == r
      && t.operations[l.operation].worker == l.worker
  }

  /** A requester's key names an operation, on the given resource. */
  ghost predicate KeyTaken(t: Tables, requester: string, key: string, resource: string) {
    exists id :: HasKey(t, id, requester, key) && t.operations[id].spec.resource == resource
  }

  /** An operation exists under the item's key, for the item's resource. */
  ghost predicate ItemTaken(t: Tables, b: BatchId, resource: string) {
    KeyTaken(t, b.requester, ItemKey(b.key, resource), resource)
  }

  /** A batch's columns are those of its request; once ready, all its items exist. */
  ghost predicate BatchRowOk(t: Tables, b: BatchId)
    requires b in t.batches
  {
    var row := t.batches[b];
    && WellShaped(row.request)
    && row.requester == b.requester
    && row.size == row.request.size
    && row.failureThreshold == row.request.threshold
    && row.continueOnError == row.request.continueOnError
    && (row.ready ==> forall i :: 0 <= i < |row.request.ids| ==> ItemTaken(t, b, row.request.ids[i]))
  }

  ghost predicate BatchRows(t: Tables) {
    forall b :: b in t.batches ==> BatchRowOk(t, b)
  }

  /** An operation of a batch is the item of its index, and starts only once the batch is ready. */
  ghost predicate MemberOk(t: Tables, o: Operation) {
    o.spec.batch.Some? ==>
      var b := o.spec.batch.value;
      && b in t.batches
      && o.spec.requester == b.requester
      && o.spec.batchIndex < |t.batches[b].request.ids|
      && o.spec.resource == t.batches[b].request.ids[o.spec.batchIndex]
      && o.spec.key == ItemKey(b.key, t.batches[b].request.ids[o.spec.batchIndex])
      && (Started(o) ==> t.batches[b].ready)
  }

  ghost predicate Members(t: Tables) {
    forall id :: id in t.operations ==> MemberOk(t, t.operations[id])
  }

  ghost predicate Before(t: Tables, x: string, id: string, b: BatchId)
    requires b in t.batches
  {
    && InBatch(t, x, b) && InBatch(t, id, b)
    && var size := t.batches[b].size;
       Wave(t.operations[x].spec.batchIndex, size) < Wave(t.operations[id].spec.batchIndex, size)
  }

  /** Once an operation of a batch has started, every operation of a lower wave is over. */
  ghost predicate Rolling(t: Tables) {
    forall b, id, x :: b in t.batches && Before(t, x, id, b) && Started(t.operations[id]) ==>
        Terminal(t.operations[x].state)
  }

  /** The started operations of a batch that are running or have failed. */
  ghost function Exposed(t: Tables, b: BatchId): set<string> {
    set id | id in t.operations && InBatch(t, id, b) && Started(t.operations[id])
             && (t.operations[id].state.Running? || Failing(t.operations[id].state))
  }

  ghost function Bound(row: BatchRow): nat {
    row.size + if row.continueOnError then row.failureThreshold else 0
  }

  /** The blast radius of every batch. */
  ghost predicate Radius(t: Tables) {
    forall b :: b in t.batches ==> |Exposed(t, b)| <= Bound(t.batches[b])
  }

  ghost function Starts(t: Tables, id: string, worker: string): nat {
    t.audit[AuditEntry(ExecutionStarted, worker, id)]
  }

  /** The audit trail holds one start for each started operation, by its worker, and no other. */
  ghost predicate StartAudit(t: Tables) {
    forall id, worker :: Starts(t, id, worker) ==
      if id in t.operations && Started(t.operations[id]) && t.operations[id].worker == worker then 1 else 0
  }

  ghost predicate TablesInv(t: Tables) {
    && UniqueKeys(t) && Rows(t) && LeaseAgreement(t) && LeaseOrigin(t) && BatchRows(t) && Members(t)
    && Rolling(t) && Radius(t) && StartAudit(t)
  }

  // ------------------------------------------------------------------ how rows change

  /** The changes a row undergoes: only forward, and none once it is over. */
  ghost predicate Forward(o: Operation, n: Operation) {
    && n.spec == o.spec
    && (Terminal(o.state) ==> n == o)
    && (n.state != o.state ==> Rank(n.state) < Rank(o.state))
    && (n.state == o.state ==> n == o.(leaseUntil := n.leaseUntil))
    && (Started(o) ==> n.startedAt == o.startedAt && n.worker == o.worker && n.approvalBy == o.approvalBy)
    && (!Started(o) && Started(n) ==> Pending(o.state))
    && (n.approvalBy != o.approvalBy ==> o.state.WaitingApproval?)
  }

  /** Rows go forward, new ones may appear, batches only become ready. */
  ghost predicate Grows(t: Tables, n: Tables) {
    && (forall id :: id in t.operations ==> id in n.operations && Forward(t.operations[id], n.operations[id]))
    && (forall b :: b in t.batches ==> b in n.batches && n.batches[b] == t.batches[b].(ready := n.batches[b].ready)
                                       && (t.batches[b].ready ==> n.batches[b].ready))
  }

  /** A change to existing rows that starts nothing. */
  ghost predicate Update(t: Tables, n: Tables) {
    && Grows(t, n)
    && n.operations.Keys == t.operations.Keys
    && n.batches == t.batches
    && (forall id :: id in t.operations && Started(n.operations[id]) ==> Started(t.operations[id]))
    && SameStarts(t, n)
  }

  ghost predicate SameStarts(t: Tables, n: Tables) {
    forall id, worker :: Starts(n, id, worker) == Starts(t, id, worker)
  }

  lemma {:induction false} ExposedShrinks(t: Tables, n: Tables, b: BatchId)
    requires Rows(t)
    requires forall id :: InBatch(n, id, b) && Started(n.operations[id]) ==>
               id in t.operations && Started(t.operations[id]) && Forward(t.operations[id], n.operations[id])
    ensures |Exposed(n, b)| <= |Exposed(t, b)|
  {
    forall id | id in Exposed(n, b) ensures id in Exposed(t, b) {
      var o, m := t.operations[id], n.operations[id];
      assert Lifecycle(o);
      assert InBatch(t, id, b);
    }
    SubsetSize(Exposed(n, b), Exposed(t, b));
  }

  /** A change to existing rows keeps everything about keys, batches and starts. */
  lemma {:induction false} UpdateKeeps(t: Tables, n: Tables)
    requires TablesInv(t) && Update(t, n)
    requires Rows(n) && LeaseAgreement(n) && LeaseOrigin(n)
    ensures TablesInv(n)
  {
    forall b | b in n.batches ensures BatchRowOk(n, b) {
      assert BatchRowOk(t, b);
      KeysStay(t, n, b);
    }
    forall id | id in n.operations ensures MemberOk(n, n.operations[id]) {
      assert MemberOk(t, t.operations[id]);
    }
    forall b, id, x | b in n.batches && Before(n, x, id, b) && Started(n.operations[id])
        ensures Terminal(n.operations[x].state) {
      assert Before(t, x, id, b);
    }
    forall b | b in n.batches ensures |Exposed(n, b)| <= Bound(n.batches[b]) {
      ExposedShrinks(t, n, b);
    }
    forall id, worker ensures Starts(n, id, worker) ==
      if id in n.operations && Started(n.operations[id]) && n.operations[id].worker == worker then 1 else 0
    {
      assert Starts(n, id, worker) == Starts(t, id, worker);
    }
  }

  lemma {:induction false} KeysStay(t: Tables, n: Tables, b: BatchId)
    requires Grows(t, n) && b in t.batches
    requires BatchRowOk(t, b)
    ensures n.batches[b].ready == t.batches[b].ready ==> BatchRowOk(n, b)
  {
    forall r | ItemTaken(t, b, r) ensures ItemTaken(n, b, r) {
      ItemStays(t, n, b, r);
    }
  }

  lemma {:induction false} ItemStays(t: Tables, n: Tables, b: BatchId, resource: string)
    requires Grows(t, n) && ItemTaken(t, b, resource)
    ensures ItemTaken(n, b, resource)
  {
    var id :| HasKey(t, id, b.requester, ItemKey(b.key, resource)) && t.operations[id].spec.resource == resource;
    assert HasKey(n, id, b.requester, ItemKey(b.key, resource));
  }

  // ------------------------------------------------------------------ each transaction

  /** A forward change of one row, with nothing started and no lease touched. */
  lemma {:induction false} OneRow(t: Tables, n: Tables, id: string)
    requires Rows(t) && id in t.operations && id in n.operations
    requires n.operations == t.operations[id := n.operations[id]] && n.batches == t.batches
    requires Forward(t.operations[id], n.operations[id]) && Lifecycle(n.operations[id])
    requires Started(n.operations[id]) ==> Started(t.operations[id])
    requires SameStarts(t, n)
    ensures Update(t, n) && Rows(n)
  {
    assert n.operations.Keys == t.operations.Keys;
  }

  lemma {:induction false} DecidedUpdates(t: Tables, id: string, approver: string, approve: bool, now: int)
    requires Rows(t) && id in t.operations && t.operations[id].state.WaitingApproval?
    ensures var n := Decided(t, id, approver, approve, now); Update(t, n) && Rows(n)
  {
    assert Lifecycle(t.operations[id]);
    OneRow(t, Decided(t, id, approver, approve, now), id);
  }

  lemma {:induction false} DecidedKeeps(t: Tables, id: string, approver: string, approve: bool, now: int)
    requires TablesInv(t) && id in t.operations && t.operations[id].state.WaitingApproval?
    ensures var n := Decided(t, id, approver, approve, now); TablesInv(n) && Update(t, n)
  {
    var n := Decided(t, id, approver, approve, now);
    DecidedUpdates(t, id, approver, approve, now);
    RunningKept(t, n);
    UpdateKeeps(t, n);
  }

  lemma {:induction false} CancelUpdates(t: Tables, id: string, actor: string, now: int)
    requires Rows(t) && id in t.operations && !Terminal(t.operations[id].state)
    ensures var n := CancelEffect(t, id, actor, now); Update(t, n) && Rows(n)
  {
    assert Lifecycle(t.operations[id]);
    OneRow(t, CancelEffect(t, id, actor, now), id);
  }

  lemma {:induction false} CancelKeeps(t: Tables, id: string, actor: string, now: int)
    requires TablesInv(t) && id in t.operations && !Terminal(t.operations[id].state)
    ensures var n := CancelEffect(t, id, actor, now); TablesInv(n) && Update(t, n)
  {
    var n := CancelEffect(t, id, actor, now);
    CancelUpdates(t, id, actor, now);
    RunningKept(t, n);
    UpdateKeeps(t, n);
  }

  lemma {:induction false} CloseRows(t: Tables, n: Tables, which: set<string>, state: OpState, now: int)
    requires Rows(t) && Terminal(state)
    requires forall id :: id in which ==> id in t.operations && !Terminal(t.operations[id].state)
    requires n.operations == Close(t, which, state, now).operations && n.batches == t.batches && SameStarts(t, n)
    ensures Update(t, n) && Rows(n)
    ensures forall id :: id in n.operations && n.operations[id].state.Running? ==> n.operations[id] == t.operations[id]
  {
    assert n.operations.Keys == t.operations.Keys;
    forall id | id in t.operations
      ensures Forward(t.operations[id], n.operations[id]) && Lifecycle(n.operations[id])
      ensures Started(n.operations[id]) == Started(t.operations[id])
    {
      assert Lifecycle(t.operations[id]);
    }
  }

  lemma {:induction false} CloseUpdates(t: Tables, n: Tables, which: set<string>, state: OpState, now: int)
    requires Rows(t) && LeaseAgreement(t) && LeaseOrigin(t) && Terminal(state)
    requires forall id :: id in which ==> id in t.operations && !Terminal(t.operations[id].state)
    requires n == Close(t, which, state, now).(audit := n.audit) && SameStarts(t, n)
    ensures Update(t, n) && Rows(n) && LeaseAgreement(n) && LeaseOrigin(n)
  {
    CloseRows(t, n, which, state, now);
    assert n.leases == t.leases;
    RunningKept(t, n);
  }

  /** Leases stay in agreement when the rows that still run are untouched. */
  lemma {:induction false} RunningKept(t: Tables, n: Tables)
    requires LeaseAgreement(t) && LeaseOrigin(t) && Update(t, n) && n.leases == t.leases
    requires forall id :: id in n.operations && n.operations[id].state.Running? ==> n.operations[id] == t.operations[id]
    ensures LeaseAgreement(n) && LeaseOrigin(n)
  {
    forall x | x in n.operations && n.operations[x].state.Running? ensures LeaseOf(n, x) {
      assert LeaseOf(t, x);
    }
  }

  lemma {:induction false} CloseKeeps(t: Tables, n: Tables, which: set<string>, state: OpState, now: int)
    requires TablesInv(t) && Terminal(state)
    requires forall id :: id in which ==> id in t.operations && !Terminal(t.operations[id].state)
    requires n == Close(t, which, state, now).(audit := n.audit) && SameStarts(t, n)
    ensures TablesInv(n) && Update(t, n)
  {
    CloseUpdates(t, n, which, state, now);
    UpdateKeeps(t, n);
  }

  lemma {:induction false} ExpireKeeps(t: Tables, now: int)
    requires TablesInv(t)
    ensures TablesInv(Expire(t, now)) && Update(t, Expire(t, now))
  {
    var orphans := Expired(t, now);
    var entries := set id | id in orphans :: AuditEntry(Orphaned, "", id);
    var n := Expire(t, now);
    forall id, worker ensures Starts(n, id, worker) == Starts(t, id, worker) {
      assert AuditEntry(ExecutionStarted, worker, id) !in entries;
    }
    CloseKeeps(t, n, orphans, TimedOut, now);
  }

  lemma {:induction false} UpdatesCompose(t: Tables, m: Tables, n: Tables)
    requires Update(t, m) && Update(m, n)
    requires forall id :: id in t.operations ==>
               m.operations[id].state == t.operations[id].state && n.operations[id].state == m.operations[id].state ==>
                 n.operations[id] == t.operations[id].(leaseUntil := n.operations[id].leaseUntil)
    ensures Update(t, n)
  {
    forall id | id in t.operations ensures id in n.operations && Forward(t.operations[id], n.operations[id]) {
      var o, p, q := t.operations[id], m.operations[id], n.operations[id];
      assert Forward(o, p) && Forward(p, q);
    }
    forall id, worker ensures Starts(n, id, worker) == Starts(t, id, worker) {
      assert Starts(m, id, worker) == Starts(t, id, worker);
    }
  }

  lemma {:induction false} RecoverKeeps(t: Tables, now: int)
    requires TablesInv(t)
    ensures TablesInv(Recover(t, now)) && Update(t, Recover(t, now))
  {
    ExpireKeeps(t, now);
    var m := Expire(t, now);
    var n := Recover(t, now);
    CloseKeeps(m, n, Doomed(m), Cancelled, now);
    UpdatesCompose(t, m, n);
  }

  lemma {:induction false} AbortKeeps(t: Tables, b: BatchId, now: int)
    requires TablesInv(t)
    ensures TablesInv(AbortBatch(t, b, now)) && Update(t, AbortBatch(t, b, now))
  {
    CloseKeeps(t, AbortBatch(t, b, now), PendingOf(t, b), Cancelled, now);
  }

  lemma {:induction false} RenewUpdates(t: Tables, id: string, worker: string, now: int)
    requires Rows(t) && LeaseAgreement(t) && LeaseOrigin(t) && id in t.operations
    ensures RenewsRow(t, id, worker, now) ==> RenewsLease(t, id, t.operations[id].spec.resource, worker, now)
    ensures var n := Renew(t, id, t.operations[id].spec.resource, worker, now).0;
            Update(t, n) && Rows(n) && LeaseAgreement(n) && LeaseOrigin(n)
  {
    var o := t.operations[id];
    var n := Renew(t, id, o.spec.resource, worker, now).0;
    if RenewsRow(t, id, worker, now) {
      assert LeaseOf(t, id);
      assert Lifecycle(o);
      OneRow(t, n, id);
      forall x | x in n.operations && n.operations[x].state.Running? ensures LeaseOf(n, x) {
        assert LeaseOf(t, x);
      }
    }
  }

  /** A renewal whose first statement hit its row also hits its lease, and it keeps them in step. */
  lemma {:induction false} RenewKeeps(t: Tables, id: string, worker: string, now: int)
    requires TablesInv(t) && id in t.operations
    ensures RenewsRow(t, id, worker, now) ==> RenewsLease(t, id, t.operations[id].spec.resource, worker, now)
    ensures Renew(t, id, t.operations[id].spec.resource, worker, now).1.None? <==> RenewsRow(t, id, worker, now)
    ensures var n := Renew(t, id, t.operations[id].spec.resource, worker, now).0; TablesInv(n) && Update(t, n)
  {
    RenewUpdates(t, id, worker, now);
    UpdateKeeps(t, Renew(t, id, t.operations[id].spec.resource, worker, now).0);
  }

  lemma {:induction false} FinishRows(t: Tables, id: string, worker: string, outcome: OpState, now: int)
    requires Rows(t) && id in t.operations && Outcome(outcome)
    ensures var n := Finish(t, id, t.operations[id].spec.resource, worker, outcome, now); Update(t, n) && Rows(n)
  {
    var n := Finish(t, id, t.operations[id].spec.resource, worker, outcome, now);
    assert Lifecycle(t.operations[id]);
    assert n.operations == t.operations[id := n.operations[id]];
    OneRow(t, n, id);
  }

  lemma {:induction false} FinishLeases(t: Tables, id: string, worker: string, outcome: OpState, now: int)
    requires LeaseAgreement(t) && LeaseOrigin(t) && id in t.operations && Outcome(outcome)
    ensures var n := Finish(t, id, t.operations[id].spec.resource, worker, outcome, now);
            LeaseAgreement(n) && LeaseOrigin(n)
  {
    var n := Finish(t, id, t.operations[id].spec.resource, worker, outcome, now);
    FinishRow(t, id, worker, outcome, now);
    forall x | x in n.operations && n.operations[x].state.Running? ensures LeaseOf(n, x) {
      assert LeaseOf(t, x);
      hide Finish;
    }
    hide Finish, LeaseAgreement;
  }

  /** A report touches its own row and, at most, the lease that names it. */
  lemma {:induction false} FinishRow(t: Tables, id: string, worker: string, outcome: OpState, now: int)
    requires id in t.operations && Outcome(outcome)
    ensures var n := Finish(t, id, t.operations[id].spec.resource, worker, outcome, now);
            var o, r := t.operations[id], t.operations[id].spec.resource;
            && id in n.operations && n.operations == t.operations[id := n.operations[id]]
            && (n.operations[id] == o || (!n.operations[id].state.Running? && n.operations[id].spec == o.spec
                                          && n.operations[id].worker == o.worker
                                          && n.operations[id].startedAt == o.startedAt))
            && (n.leases == t.leases || (HoldsLease(t, id, r, worker) && n.leases == t.leases - {r}))
            && (o.state.Running? && o.worker == worker ==> !n.operations[id].state.Running?)
  {}

  lemma {:induction false} FinishKeeps(t: Tables, id: string, worker: string, outcome: OpState, now: int)
    requires TablesInv(t) && id in t.operations && Outcome(outcome)
    ensures var n := Finish(t, id, t.operations[id].spec.resource, worker, outcome, now); TablesInv(n) && Update(t, n)
  {
    FinishRows(t, id, worker, outcome, now);
    FinishLeases(t, id, worker, outcome, now);
    UpdateKeeps(t, Finish(t, id, t.operations[id].spec.resource, worker, outcome, now));
  }

  lemma {:induction false} ReleaseKeeps(t: Tables, resource: string, actor: string, now: int)
    requires TablesInv(t)
    ensures var n := Release(t, resource, actor, now); TablesInv(n) && Update(t, n)
  {
    var n := Release(t, resource, actor, now);
    assert Update(t, n);
    forall x | x in n.operations && n.operations[x].state.Running? ensures LeaseOf(n, x) {
      assert LeaseOf(t, x);
    }
    UpdateKeeps(t, n);
  }

  lemma {:induction false} RefusalKeeps(t: Tables, p: Rbac.Principal, req: Request)
    requires TablesInv(t)
    ensures TablesInv(RecordRefusal(t, p, req)) && Update(t, RecordRefusal(t, p, req))
  {
    var n := RecordRefusal(t, p, req);
    assert Update(t, n);
    forall x | x in n.operations && n.operations[x].state.Running? ensures LeaseOf(n, x) {
      assert LeaseOf(t, x);
    }
    UpdateKeeps(t, n);
  }

  // ------------------------------------------------------------------ insertion

  /** What a specification must satisfy to be inserted into its batch. */
  ghost predicate Fits(t: Tables, spec: OpSpec) {
    && spec.target.Some?
    && spec.requestHash.resource == spec.resource
    && MemberOk(t, NewOperation(spec, false))
  }

  /** A ready batch has no room: the key of an operation that would join it is taken. */
  lemma {:induction false} ReadyIsFull(t: Tables, spec: OpSpec)
    requires BatchRows(t) && Fits(t, spec) && spec.batch.Some? && t.batches[spec.batch.value].ready
    ensures Existing(t, spec.requester, spec.key).Some?
  {
    var b := spec.batch.value;
    assert BatchRowOk(t, b);
    assert ItemTaken(t, b, t.batches[b].request.ids[spec.batchIndex]);
    var id :| HasKey(t, id, spec.requester, spec.key);
  }

  lemma {:induction false} NewRowGrows(t: Tables, n: Tables, id: string, spec: OpSpec, approval: bool)
    requires BatchRows(t) && Members(t) && Rows(t) && Fits(t, spec)
    requires id !in t.operations && n.batches == t.batches
    requires n.operations == t.operations[id := NewOperation(spec, approval)]
    ensures Grows(t, n) && BatchRows(n) && Members(n) && Rows(n)
  {
    assert Grows(t, n);
    forall b | b in n.batches ensures BatchRowOk(n, b) {
      assert BatchRowOk(t, b);
      KeysStay(t, n, b);
    }
    forall x | x in n.operations ensures MemberOk(n, n.operations[x]) && Lifecycle(n.operations[x]) {
      if x != id {
        assert MemberOk(t, t.operations[x]) && Lifecycle(t.operations[x]);
      }
    }
  }

  lemma {:induction false} NewRowLeases(t: Tables, n: Tables, id: string)
    requires LeaseAgreement(t) && LeaseOrigin(t) && StartAudit(t)
    requires id !in t.operations && id in n.operations && n.leases == t.leases && SameStarts(t, n)
    requires n.operations == t.operations[id := n.operations[id]] && !Started(n.operations[id])
    requires !n.operations[id].state.Running?
    ensures LeaseAgreement(n) && LeaseOrigin(n) && StartAudit(n)
  {
    forall x | x in n.operations && n.operations[x].state.Running? ensures LeaseOf(n, x) {
      assert LeaseOf(t, x);
    }
    forall x, worker ensures Starts(n, x, worker) ==
      if x in n.operations && Started(n.operations[x]) && n.operations[x].worker == worker then 1 else 0
    {
      assert Starts(n, x, worker) == Starts(t, x, worker);
    }
  }

  lemma {:induction false} FreshInsertKeeps(t: Tables, id: string, spec: OpSpec, approval: bool)
    requires TablesInv(t) && Fits(t, spec)
    requires Existing(t, spec.requester, spec.key).None? && id !in t.operations
    ensures var n := Insert(t, id, spec, approval).0;
            TablesInv(n) && Grows(t, n) && KeyTaken(n, spec.requester, spec.key, spec.resource)
    ensures spec.batch.Some? ==> !t.batches[spec.batch.value].ready
  {
    var n := Insert(t, id, spec, approval).0;
    if spec.batch.Some? && t.batches[spec.batch.value].ready {
      ReadyIsFull(t, spec);
    }
    NewRowGrows(t, n, id, spec, approval);
    NewRowKeys(t, n, id);
    NewRowLeases(t, n, id);
    NewRowBatches(t, n, id);
    assert HasKey(n, id, spec.requester, spec.key);
  }

  /** Inserting an operation keeps everything; a batch that is ready already holds all its items. */
  lemma {:induction false} InsertKeeps(t: Tables, id: string, spec: OpSpec, approval: bool)
    requires TablesInv(t) && Fits(t, spec)
    ensures var n := Insert(t, id, spec, approval).0; TablesInv(n) && Grows(t, n)
    ensures var n := Insert(t, id, spec, approval).0;
            n != t ==> id !in t.operations && n.operations == t.operations[id := NewOperation(spec, approval)]
                       && n.leases == t.leases && n.batches == t.batches
                       && (spec.batch.Some? ==> !t.batches[spec.batch.value].ready)
    ensures var (n, r) := Insert(t, id, spec, approval); r.Ok? ==> KeyTaken(n, spec.requester, spec.key, spec.resource)
  {
    var existing := Existing(t, spec.requester, spec.key);
    if existing.None? && id !in t.operations {
      FreshInsertKeeps(t, id, spec, approval);
    } else {
      assert Grows(t, t);
      assert existing.Some? ==>
        HasKey(t, existing.value, spec.requester, spec.key) && Lifecycle(t.operations[existing.value]);
    }
  }

  lemma {:induction false} NewRowKeys(t: Tables, n: Tables, id: string)
    requires UniqueKeys(t) && id !in t.operations && id in n.operations
    requires n.operations == t.operations[id := n.operations[id]]
    requires Existing(t, n.operations[id].spec.requester, n.operations[id].spec.key).None?
    ensures UniqueKeys(n)
  {
    var spec := n.operations[id].spec;
    forall i, j | i in n.operations && j in n.operations && SameKey(n.operations[i].spec, n.operations[j].spec)
        ensures i == j {
      assert !HasKey(t, i, spec.requester, spec.key) && !HasKey(t, j, spec.requester, spec.key);
    }
  }

  lemma {:induction false} NewRowBatches(t: Tables, n: Tables, id: string)
    requires Rows(t) && Members(t) && Rolling(t) && Radius(t)
    requires id !in t.operations && id in n.operations && n.batches == t.batches
    requires n.operations == t.operations[id := n.operations[id]]
    requires !Started(n.operations[id])
    requires n.operations[id].spec.batch.Some? ==>
        n.operations[id].spec.batch.value in t.batches && !t.batches[n.operations[id].spec.batch.value].ready
    ensures Rolling(n) && Radius(n)
  {
    forall b, i, x | b in n.batches && Before(n, x, i, b) && Started(n.operations[i])
        ensures Terminal(n.operations[x].state) {
      assert MemberOk(t, t.operations[i]);
      assert Before(t, x, i, b);
    }
    forall b | b in n.batches ensures |Exposed(n, b)| <= Bound(n.batches[b]) {
      ExposedShrinks(t, n, b);
    }
  }

  // ------------------------------------------------------------------ batch rows

  lemma {:induction false} OpenRows(t: Tables, id: BatchId, b: BatchRequest)
    requires BatchRows(t) && WellShaped(b)
    ensures var n := OpenBatch(t, id, b).0; BatchRows(n) && Grows(t, n)
  {
    if id !in t.batches {
      var n := OpenBatch(t, id, b).0;
      assert Grows(t, n);
      assert BatchRowOk(n, id);
      forall x | x in t.batches ensures BatchRowOk(n, x) {
        assert BatchRowOk(t, x);
        KeysStay(t, n, x);
      }
    }
  }

  lemma {:induction false} OpenKeeps(t: Tables, id: BatchId, b: BatchRequest)
    requires TablesInv(t) && WellShaped(b)
    ensures var n := OpenBatch(t, id, b).0;
            TablesInv(n) && Grows(t, n) && n.operations == t.operations && n.leases == t.leases
    ensures OpenBatch(t, id, b).1.Ok? ==>
        id in OpenBatch(t, id, b).0.batches && OpenBatch(t, id, b).0.batches[id].request == b
  {
    OpenRows(t, id, b);
    BatchRowsChange(t, OpenBatch(t, id, b).0);
  }

  lemma {:induction false} PublishKeeps(t: Tables, b: BatchId)
    requires TablesInv(t) && b in t.batches
    requires forall i :: 0 <= i < |t.batches[b].request.ids| ==> ItemTaken(t, b, t.batches[b].request.ids[i])
    ensures var n := PublishBatch(t, b);
            TablesInv(n) && Grows(t, n) && n.operations == t.operations && n.leases == t.leases
  {
    var n := PublishBatch(t, b);
    assert Grows(t, n);
    BatchRowsChange(t, n);
    forall x | x in n.batches ensures BatchRowOk(n, x) {
      assert BatchRowOk(t, x);
      KeysStay(t, n, x);
      forall r | ItemTaken(t, x, r) ensures ItemTaken(n, x, r) {
        ItemStays(t, n, x, r);
      }
    }
  }

  /** New or newly ready batch rows disturb nothing else. */
  lemma {:induction false} BatchRowsChange(t: Tables, n: Tables)
    requires TablesInv(t) && Grows(t, n)
    requires n.operations == t.operations && n.leases == t.leases && n.audit == t.audit
    ensures UniqueKeys(n) && Rows(n) && LeaseAgreement(n) && LeaseOrigin(n) && Members(n) && Rolling(n) && Radius(n)
        && StartAudit(n)
  {
    forall x | x in n.operations ensures MemberOk(n, n.operations[x]) {
      assert MemberOk(t, t.operations[x]);
    }
    forall x | x in n.operations && n.operations[x].state.Running? ensures LeaseOf(n, x) {
      assert LeaseOf(t, x);
    }
    forall b, i, x | b in n.batches && Before(n, x, i, b) && Started(n.operations[i])
        ensures Terminal(n.operations[x].state) {
      assert MemberOk(t, t.operations[i]);
      assert Before(t, x, i, b);
    }
    forall b | b in n.batches ensures |Exposed(n, b)| <= Bound(n.batches[b]) {
      assert Exposed(n, b) == Exposed(t, b);
      if b !in t.batches {
        forall id ensures id !in Exposed(t, b) {
          assert id in t.operations ==> MemberOk(t, t.operations[id]);
        }
        assert Exposed(n, b) == {};
      }
    }
    forall id, worker ensures Starts(n, id, worker) ==
      if id in n.operations && Started(n.operations[id]) && n.operations[id].worker == worker then 1 else 0
    {
      assert Starts(n, id, worker) == Starts(t, id, worker);
    }
  }

  // ------------------------------------------------------------------ claiming

  ghost function RunningOf(t: Tables, b: BatchId): set<string> {
    set id | id in t.operations && InBatch(t, id, b) && t.operations[id].state.Running?
  }

  lemma {:induction false} WaveBounds(index: nat, size: Positive)
    ensures Wave(index, size) * size <= index < Wave(index, size) * size + size
  {}

  lemma {:induction false} NextMultiple(a: nat, b: nat, size: Positive)
    requires a < b
    ensures a * size + size <= b * size
  {
    assert b * size == (b - 1) * size + size;
    if a + 1 < b {
      NextMultiple(a, b - 1, size);
    }
  }

  lemma {:induction false} WaveOrder(i: nat, j: nat, size: Positive)
    requires Wave(i, size) < Wave(j, size)
    ensures i < j
  {
    WaveBounds(i, size);
    WaveBounds(j, size);
    NextMultiple(Wave(i, size), Wave(j, size), size);
    hide Wave;
  }

  /** The running operations of a batch share one wave, so at most `size` of them run at once. */
  lemma {:induction false} RunningShareWave(t: Tables, b: BatchId)
    requires UniqueKeys(t) && Rows(t) && Members(t) && Rolling(t) && b in t.batches
    ensures forall x, y :: x in RunningOf(t, b) && y in RunningOf(t, b) ==>
              Wave(t.operations[x].spec.batchIndex, t.batches[b].size) ==
                  Wave(t.operations[y].spec.batchIndex, t.batches[b].size)
    ensures |RunningOf(t, b)| <= t.batches[b].size
  {
    var running, size := RunningOf(t, b), t.batches[b].size;
    forall x, y | x in running && y in running
      ensures Wave(t.operations[x].spec.batchIndex, size) == Wave(t.operations[y].spec.batchIndex, size)
    {
      assert Lifecycle(t.operations[x]) && Lifecycle(t.operations[y]);
      assert !Before(t, x, y, b) && !Before(t, y, x, b);
    }
    if first :| first in running {
      var w := Wave(t.operations[first].spec.batchIndex, size);
      var code := map id | id in running :: t.operations[id].spec.batchIndex as int;
      forall id | id in code ensures w * size <= code[id] < w * size + size {
        WaveBounds(t.operations[id].spec.batchIndex, size);
      }
      forall x, y | x in code && y in code && code[x] == code[y] ensures x == y {
        assert MemberOk(t, t.operations[x]) && MemberOk(t, t.operations[y]);
        assert SameKey(t.operations[x].spec, t.operations[y].spec);
      }
      assert code.Keys == running;
      InjectiveSize(code, w * size, w * size + size);
    } else {
      assert running == {};
    }
  }

  lemma {:induction false} ClaimRows(t: Tables, id: string, worker: string, now: int)
    requires Rows(t) && Members(t) && BatchRows(t) && Eligible(t, id)
    ensures var n := Claim(t, id, worker, now); Grows(t, n) && Rows(n) && Members(n) && BatchRows(n)
  {
    var n := Claim(t, id, worker, now);
    assert Lifecycle(t.operations[id]);
    assert Grows(t, n);
    forall b | b in n.batches ensures BatchRowOk(n, b) {
      assert BatchRowOk(t, b);
      KeysStay(t, n, b);
    }
    forall x | x in n.operations ensures MemberOk(n, n.operations[x]) && Lifecycle(n.operations[x]) {
      assert MemberOk(t, t.operations[x]) && Lifecycle(t.operations[x]);
    }
  }

  lemma {:induction false} ClaimLeases(t: Tables, id: string, worker: string, now: int)
    requires Rows(t) && LeaseAgreement(t) && LeaseOrigin(t) && StartAudit(t) && Eligible(t, id)
    ensures var n := Claim(t, id, worker, now); LeaseAgreement(n) && LeaseOrigin(n) && StartAudit(n)
  {
    var n := Claim(t, id, worker, now);
    assert Lifecycle(t.operations[id]);
    forall x | x in n.operations && n.operations[x].state.Running? ensures LeaseOf(n, x) {
      assert x != id ==> LeaseOf(t, x);
    }
    forall x, w ensures Starts(n, x, w) ==
      if x in n.operations && Started(n.operations[x]) && n.operations[x].worker == w then 1 else 0
    {
      assert Starts(t, x, w) ==
        if x in t.operations && Started(t.operations[x]) && t.operations[x].worker == w then 1 else 0;
    }
  }

  lemma {:induction false} ClaimForward(t: Tables, id: string, worker: string, now: int)
    requires TablesInv(t) && Eligible(t, id)
    ensures var n := Claim(t, id, worker, now);
            Grows(t, n) && UniqueKeys(n) && Rows(n) && Members(n) && BatchRows(n) && StartAudit(n) && LeaseAgreement(n)
                && LeaseOrigin(n)
  {
    ClaimRows(t, id, worker, now);
    ClaimLeases(t, id, worker, now);
  }

  lemma {:induction false} LowerWaveOver(t: Tables, id: string, b: BatchId, x: string, i: string)
    requires Rolling(t) && Eligible(t, id) && b in t.batches && Before(t, x, i, b)
    requires i == id || Started(t.operations[i])
    ensures Terminal(t.operations[x].state)
  {
    hide Wave, BatchFailures;
  }

  lemma {:induction false} ClaimRolls(t: Tables, id: string, worker: string, now: int)
    requires Rolling(t) && Eligible(t, id)
    ensures Rolling(Claim(t, id, worker, now))
  {
    hide TablesInv, Wave, BatchAdmits;
    var n := Claim(t, id, worker, now);
    forall b, i, x | b in n.batches && Before(n, x, i, b) && Started(n.operations[i])
        ensures Terminal(n.operations[x].state) {
      assert Before(t, x, i, b);
      LowerWaveOver(t, id, b, x, i);
    }
  }

  /** A claim keeps the radius: it needs few failures, and what runs fits one wave. */
  lemma {:induction false} ClaimRadius(t: Tables, id: string, worker: string, now: int)
    requires TablesInv(t) && Eligible(t, id)
    ensures Radius(Claim(t, id, worker, now))
  {
    var n := Claim(t, id, worker, now);
    ClaimForward(t, id, worker, now);
    ClaimRolls(t, id, worker, now);
    forall b | b in n.batches ensures |Exposed(n, b)| <= Bound(n.batches[b]) {
      if InBatch(n, id, b) {
        RunningShareWave(n, b);
        ClaimedExposure(t, id, worker, now, b);
      } else {
        ExposedShrinks(t, n, b);
      }
    }
  }

  /** What a claim exposes in its batch: the failures so far, which are few, and one wave. */
  lemma {:induction false} ClaimedExposure(t: Tables, id: string, worker: string, now: int, b: BatchId)
    requires Eligible(t, id) && InBatch(t, id, b) && |RunningOf(Claim(t, id, worker, now), b)| <= t.batches[b].size
    ensures |Exposed(Claim(t, id, worker, now), b)| <= Bound(t.batches[b])
  {
    var n := Claim(t, id, worker, now);
    forall x | x in Exposed(n, b) ensures x in BatchFailures(t, b) + RunningOf(n, b) {
      assert x != id ==> InBatch(t, x, b);
    }
    SubsetSize(Exposed(n, b), BatchFailures(t, b) + RunningOf(n, b));
    UnionSize(BatchFailures(t, b), RunningOf(n, b));
    hide Exposed, RunningOf, LowerWavesOver;
  }

  lemma {:induction false} ClaimKeeps(t: Tables, id: string, worker: string, now: int)
    requires TablesInv(t) && Eligible(t, id)
    ensures TablesInv(Claim(t, id, worker, now)) && Grows(t, Claim(t, id, worker, now))
  {
    ClaimForward(t, id, worker, now);
    ClaimRolls(t, id, worker, now);
    ClaimRadius(t, id, worker, now);
  }
}
