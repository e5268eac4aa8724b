/** What holds of every run: of each state it reaches, and between the steps it takes. */
module Runs {
  import opened Tables
  import opened Engine
  import opened Worker
  import opened Invariants
  import opened Protocol
  import opened Finite

  /** The state a run reaches. */
  ghost function Run(steps: seq<Step>): State {
    if steps == [] then INITIAL else Apply(Run(steps[..|steps| - 1]), steps[|steps| - 1])
  }

  /** The state before step k. */
  ghost function At(steps: seq<Step>, k: nat): State
    requires k <= |steps|
  {
    Run(steps[..k])
  }

  lemma {:induction false} StartsEmpty(steps: seq<Step>)
    ensures At(steps, 0) == INITIAL
  {
    assert steps[..0] == [];
  }

  lemma {:induction false} Initially()
    ensures Inv(INITIAL)
  {
    assert forall b :: Exposed(INITIAL.t, b) == {};
  }

  /** Every reachable state satisfies the invariant. */
  lemma {:induction false} Reachable(steps: seq<Step>)
    ensures Inv(Run(steps))
    decreases |steps|
  {
    hide Inv, Apply;
    if steps == [] {
      Initially();
    } else {
      Reachable(steps[..|steps| - 1]);
      StepKeeps(Run(steps[..|steps| - 1]), steps[|steps| - 1]);
    }
  }

  lemma {:induction false} OneStep(steps: seq<Step>, k: nat)
    requires k < |steps|
    ensures Inv(At(steps, k)) && At(steps, k + 1) == Apply(At(steps, k), steps[k])
    ensures Grows(At(steps, k).t, At(steps, k + 1).t) && NobodyJoins(At(steps, k).t, At(steps, k + 1).t)
  {
    hide Inv, Apply, Grows, NobodyJoins;
    assert steps[..k + 1][..k] == steps[..k];
    Reachable(steps[..k]);
    StepKeeps(At(steps, k), steps[k]);
  }

  // ------------------------------------------------------------------ batches

  ghost function StartedFailures(t: Tables, b: BatchId): set<string> {
    set id | id in t.operations && InBatch(t, id, b) && Started(t.operations[id]) && Failing(t.operations[id].state)
  }

  /**
   * Blast radius: in every reachable state, the operations of a batch that started and failed, plus
   * those that run, number at most the batch size plus the failures it tolerates.
   */
  lemma {:induction false} BlastRadius(steps: seq<Step>, b: BatchId)
    requires b in Run(steps).t.batches
    ensures var t := Run(steps).t;
            var row := t.batches[b];
            && |StartedFailures(t, b)| + |RunningOf(t, b)| <= row.failureThreshold + row.size
            && (!row.continueOnError ==> |StartedFailures(t, b)| + |RunningOf(t, b)| <= row.size)
  {
    Reachable(steps);
    hide Run, Rest;
    ExposedParts(Run(steps).t, b);
  }

  lemma {:induction false} ExposedParts(t: Tables, b: BatchId)
    requires Rows(t)
    ensures |Exposed(t, b)| == |StartedFailures(t, b)| + |RunningOf(t, b)|
  {
    forall id | id in RunningOf(t, b) ensures Started(t.operations[id]) {
      assert Lifecycle(t.operations[id]);
    }
    assert StartedFailures(t, b) !! RunningOf(t, b);
    assert Exposed(t, b) == StartedFailures(t, b) + RunningOf(t, b);
  }

  /** Rolling order: a started operation has every lower wave behind it, and one wave runs at a time. */
  lemma {:induction false} RollingOrder(steps: seq<Step>, b: BatchId)
    requires b in Run(steps).t.batches
    ensures var t := Run(steps).t;
            && (forall x, id :: Before(t, x, id, b) && Started(t.operations[id]) ==> Terminal(t.operations[x].state))
            && (forall x, y :: x in RunningOf(t, b) && y in RunningOf(t, b) ==>
                  Wave(t.operations[x].spec.batchIndex, t.batches[b].size) ==
                      Wave(t.operations[y].spec.batchIndex, t.batches[b].size))
            && |RunningOf(t, b)| <= t.batches[b].size
  {
    Reachable(steps);
    RunningShareWave(Run(steps).t, b);
  }

  /** A batch that is ready never gains an operation, under any replay. */
  lemma {:induction false} ReadyBatchIsClosed(steps: seq<Step>, i: nat, j: nat, b: BatchId)
    requires i <= j <= |steps| && b in At(steps, i).t.batches && At(steps, i).t.batches[b].ready
    ensures b in At(steps, j).t.batches && At(steps, j).t.batches[b].ready
    ensures forall id :: InBatch(At(steps, j).t, id, b) <==> InBatch(At(steps, i).t, id, b)
    decreases j
  {
    hide Inv, Run, Apply, Forward;
    if i < j {
      ReadyBatchIsClosed(steps, i, j - 1, b);
      OneStep(steps, j - 1);
      var t, n := At(steps, j - 1).t, At(steps, j).t;
      MembersStay(t, n, b);
    }
  }

  lemma {:induction false} MembersStay(t: Tables, n: Tables, b: BatchId)
    requires Grows(t, n)
    ensures forall id :: InBatch(t, id, b) ==> InBatch(n, id, b)
  {
    forall id | InBatch(t, id, b) ensures InBatch(n, id, b) {
      assert Forward(t.operations[id], n.operations[id]);
    }
  }

  /**
   * The items of a ready batch: each has exactly one operation under its key, on its resource, and
   * that operation is the member of its index if and only if it was submitted with a batch.
   */
  lemma {:induction false} ItemsOfReadyBatch(steps: seq<Step>, b: BatchId, i: nat)
    requires b in Run(steps).t.batches && Run(steps).t.batches[b].ready && i < |Run(steps).t.batches[b].request.ids|
    ensures var t := Run(steps).t;
            var resource := t.batches[b].request.ids[i];
            exists id :: HasKey(t, id, b.requester, ItemKey(b.key, resource))
              && t.operations[id].spec.resource == resource
              && (forall x :: HasKey(t, x, b.requester, ItemKey(b.key, resource)) ==> x == id)
              && (t.operations[id].spec.batch.Some? <==> InBatch(t, id, b))
              && (InBatch(t, id, b) ==> t.operations[id].spec.batchIndex == i)
  {
    Reachable(steps);
    hide Run, Rest;
    ItemOperation(Run(steps).t, b, i);
  }

  lemma {:induction false} ItemOperation(t: Tables, b: BatchId, i: nat)
    requires TablesInv(t) && b in t.batches && t.batches[b].ready && i < |t.batches[b].request.ids|
    ensures var resource := t.batches[b].request.ids[i];
            exists id :: HasKey(t, id, b.requester, ItemKey(b.key, resource))
              && t.operations[id].spec.resource == resource
              && (forall x :: HasKey(t, x, b.requester, ItemKey(b.key, resource)) ==> x == id)
              && (t.operations[id].spec.batch.Some? <==> InBatch(t, id, b))
              && (InBatch(t, id, b) ==> t.operations[id].spec.batchIndex == i)
  {
    var resource := t.batches[b].request.ids[i];
    assert BatchRowOk(t, b);
    assert ItemTaken(t, b, resource);
    hide ItemKey, Rows, LeaseAgreement, LeaseOrigin, Rolling, Radius, StartAudit;
    var id :| HasKey(t, id, b.requester, ItemKey(b.key, resource)) && t.operations[id].spec.resource == resource;
    assert MemberOk(t, t.operations[id]);
    forall x | HasKey(t, x, b.requester, ItemKey(b.key, resource)) ensures x == id {
      assert SameKey(t.operations[x].spec, t.operations[id].spec);
    }
    hide TablesInv;
    if t.operations[id].spec.batch.Some? {
      ItemKeysTell(t.operations[id].spec.batch.value.key, b.key, resource);
    }
  }

  /** The key of an item tells the key of its batch, given its resource. */
  lemma {:induction false} ItemKeysTell(a: string, b: string, resource: string)
    requires ItemKey(a, resource) == ItemKey(b, resource)
    ensures a == b
  {
    assert ItemKey(a, resource)[..|a|] == a && ItemKey(b, resource)[..|b|] == b;
  }

  /**
   * Batches never strand work: in a ready batch with nothing running or awaiting approval, either
   * recovery cancels all that is left, or it changes nothing of the batch and the queued operation of
   * lowest index may run as soon as its resource is free.
   */
  lemma {:induction false} NeverStranded(steps: seq<Step>, b: BatchId, id: string, now: int)
    requires var t := Run(steps).t;
             && b in t.batches && t.batches[b].ready
             && InBatch(t, id, b) && t.operations[id].state.Queued?
             && (forall x :: InBatch(t, x, b) ==> Terminal(t.operations[x].state) || t.operations[x].state.Queued?)
             && (forall x :: InBatch(t, x, b) && t.operations[x].state.Queued? ==>
                 t.operations[id].spec.batchIndex <= t.operations[x].spec.batchIndex)
    ensures var t := Run(steps).t;
            if TooManyFailures(t, b)
            then forall x :: InBatch(t, x, b) && t.operations[x].state.Queued? ==>
                Recover(t, now).operations[x].state.Cancelled?
            else
              && (Eligible(t, id) <==> t.operations[id].spec.resource !in t.leases)
              && (forall x :: InBatch(t, x, b) ==>
                    x in Recover(t, now).operations && Recover(t, now).operations[x] == t.operations[x])
  {
    hide Run;
    var t := Run(steps).t;
    if TooManyFailures(t, b) {
      RecoveryStops(t, b, now);
    } else {
      LowestMayRun(t, b, id);
      RecoverySpares(t, b, now);
    }
  }

  lemma {:induction false} RecoveryStops(t: Tables, b: BatchId, now: int)
    requires b in t.batches && TooManyFailures(t, b)
    ensures forall x :: InBatch(t, x, b) && t.operations[x].state.Queued? ==>
              x in Recover(t, now).operations && Recover(t, now).operations[x].state.Cancelled?
  {
    var m := Expire(t, now);
    forall x | x in BatchFailures(t, b) ensures x in BatchFailures(m, b) {
      assert InBatch(m, x, b) && m.operations[x] == t.operations[x];
    }
    SubsetSize(BatchFailures(t, b), BatchFailures(m, b));
    assert TooManyFailures(m, b);
    hide TooManyFailures;
    forall x | InBatch(t, x, b) && t.operations[x].state.Queued?
        ensures x in Recover(t, now).operations && Recover(t, now).operations[x].state.Cancelled? {
      assert m.operations[x] == t.operations[x];
      assert x in Doomed(m);
    }
  }

  /** A batch within its threshold with nothing running is left alone by recovery. */
  lemma {:induction false} RecoverySpares(t: Tables, b: BatchId, now: int)
    requires b in t.batches && !TooManyFailures(t, b)
    requires forall x :: InBatch(t, x, b) ==> Terminal(t.operations[x].state) || t.operations[x].state.Queued?
    ensures forall x :: InBatch(t, x, b) ==>
              x in Recover(t, now).operations && Recover(t, now).operations[x] == t.operations[x]
  {
    var m := Expire(t, now);
    assert BatchFailures(m, b) == BatchFailures(t, b);
    assert !TooManyFailures(m, b);
    hide TooManyFailures, BatchFailures;
  }

  lemma {:induction false} LowestMayRun(t: Tables, b: BatchId, id: string)
    requires b in t.batches && t.batches[b].ready && !TooManyFailures(t, b) && InBatch(t, id, b)
        && t.operations[id].state.Queued?
    requires forall x :: InBatch(t, x, b) ==> Terminal(t.operations[x].state) || t.operations[x].state.Queued?
    requires forall x :: InBatch(t, x, b) && t.operations[x].state.Queued? ==>
        t.operations[id].spec.batchIndex <= t.operations[x].spec.batchIndex
    ensures Eligible(t, id) <==> t.operations[id].spec.resource !in t.leases
  {
    hide Wave;
    var size, index := t.batches[b].size, t.operations[id].spec.batchIndex;
    forall x | InBatch(t, x, b) && Wave(t.operations[x].spec.batchIndex, size) < Wave(index, size)
      ensures Terminal(t.operations[x].state)
    {
      WaveOrder(t.operations[x].spec.batchIndex, index, size);
    }
  }

  // ------------------------------------------------------------------ the life of one operation

  lemma {:induction false} ForwardTwice(o: Operation, p: Operation, q: Operation)
    requires Forward(o, p) && Forward(p, q)
    ensures Forward(o, q)
  {}

  /** Rows only move forward through a run: their request never changes, and neither does one that is over. */
  lemma {:induction false} RowsMoveForward(steps: seq<Step>, i: nat, j: nat, id: string)
    requires i <= j <= |steps| && id in At(steps, i).t.operations
    ensures id in At(steps, j).t.operations
    ensures Forward(At(steps, i).t.operations[id], At(steps, j).t.operations[id])
    decreases j
  {
    hide Inv, Run, Apply, NobodyJoins;
    if i < j {
      RowsMoveForward(steps, i, j - 1, id);
      OneStep(steps, j - 1);
      ForwardTwice(At(steps, i).t.operations[id], At(steps, j - 1).t.operations[id], At(steps, j).t.operations[id]);
    }
  }

  /** How often the state of an operation changes in a run. */
  ghost function Changes(steps: seq<Step>, id: string): nat {
    if steps == [] then 0 else
      var before := steps[..|steps| - 1];
      Changes(before, id)
        + if id in Run(before).t.operations && id in Run(steps).t.operations
             && Run(before).t.operations[id].state != Run(steps).t.operations[id].state then 1 else 0
  }

  /** An operation changes state at most three times, and its remaining rank bounds what is left. */
  lemma {:induction false} FewChanges(steps: seq<Step>, id: string)
    ensures if id in Run(steps).t.operations then Changes(steps, id) + Rank(Run(steps).t.operations[id].state) <= 3
            else Changes(steps, id) == 0
    decreases |steps|
  {
    hide Inv, Apply;
    if steps != [] {
      var n := |steps| - 1;
      FewChanges(steps[..n], id);
      OneStep(steps, n);
      assert steps[..n + 1] == steps;
    }
  }

  /** The claim at step k takes effect for operation id. */
  ghost predicate ClaimsAt(steps: seq<Step>, k: nat, id: string)
    requires k < |steps|
  {
    steps[k].StepClaim? && steps[k].id == id && Claimable(At(steps, k).t, steps[k].locked, id)
  }

  /** At most once: a run claims an operation at most once. */
  lemma {:induction false} ClaimedAtMostOnce(steps: seq<Step>, i: nat, j: nat, id: string)
    requires i < |steps| && j < |steps| && ClaimsAt(steps, i, id) && ClaimsAt(steps, j, id)
    ensures i == j
  {
    hide ClaimsAt;
    if i < j {
      ClaimedBefore(steps, i, j, id);
    } else if j < i {
      ClaimedBefore(steps, j, i, id);
    }
  }

  /** An operation that was claimed is not claimable again. */
  lemma {:induction false} ClaimedBefore(steps: seq<Step>, i: nat, j: nat, id: string)
    requires i < j < |steps| && ClaimsAt(steps, i, id)
    ensures !ClaimsAt(steps, j, id)
  {
    hide Inv, Apply, Run, Claimable;
    OneStep(steps, i);
    ClaimStarts(At(steps, i), steps[i]);
    RowsMoveForward(steps, i + 1, j, id);
    OneStep(steps, j);
    if steps[j].StepClaim? {
      NotYetStarted(At(steps, j), steps[j].locked, id);
    }
  }

  lemma {:induction false} ClaimStarts(s: State, step: Step)
    requires step.StepClaim? && Claimable(s.t, step.locked, step.id)
    ensures var n := Apply(s, step);
            step.id in n.inFlight && step.id in n.t.operations && Started(n.t.operations[step.id])
  {}

  lemma {:induction false} NotYetStarted(s: State, locked: set<string>, id: string)
    requires Inv(s)
    ensures Claimable(s.t, locked, id) ==> id in s.t.operations && !Started(s.t.operations[id])
  {
    hide Rest;
    if Claimable(s.t, locked, id) {
      assert Lifecycle(s.t.operations[id]);
    }
  }

  lemma {:induction false} StartIsAuditedOnce(steps: seq<Step>, id: string, worker: string)
    ensures var t := Run(steps).t;
            Starts(t, id, worker) ==
              if id in t.operations && Started(t.operations[id]) && t.operations[id].worker == worker then 1 else 0
  {
    Reachable(steps);
  }

  // ------------------------------------------------------------------ leases

  /**
   * Lease agreement: a running row holds the lease on its resource, with the same expiry, so at most
   * one row runs per resource; a renewal that finds its row finds its lease; and reconciliation
   * releases no running operation's lease.
   */
  lemma {:induction false} LeasesAgree(steps: seq<Step>, id: string, now: int, actor: string)
    requires id in Run(steps).t.operations && Run(steps).t.operations[id].state.Running?
    ensures var t := Run(steps).t;
            var o := t.operations[id];
            && LeaseOf(t, id)
            && (forall x :: x in t.operations && t.operations[x].state.Running? ==>
                  t.operations[x].spec.resource == o.spec.resource ==> x == id)
            && (Renew(t, id, o.spec.resource, o.worker, now).1.None? <==> o.leaseUntil.value > now)
            && Release(t, o.spec.resource, actor, now).leases == t.leases
  {
    Reachable(steps);
    hide Run, Rest;
    var t := Run(steps).t;
    RenewKeeps(t, id, t.operations[id].worker, now);
    hide UniqueKeys, Rows, BatchRows, Members, Rolling, Radius, StartAudit, LeaseOrigin;
    assert LeaseOf(t, id);
    forall x | x in t.operations && t.operations[x].state.Running?
        && t.operations[x].spec.resource == t.operations[id].spec.resource ensures x == id {
      assert LeaseOf(t, x);
    }
  }

  /**
   * A running operation's lease decides between its worker and recovery: while it lasts the worker
   * can renew and recovery leaves the row alone, once it ran out it is the other way round, and at
   * the instant it ends neither happens.
   */
  lemma {:induction false} LeaseDecides(steps: seq<Step>, id: string, now: int)
    requires id in Run(steps).t.operations && Run(steps).t.operations[id].state.Running?
    ensures var t := Run(steps).t;
            var o := t.operations[id];
            && o.leaseUntil.Some? && id in Recover(t, now).operations
            && (Renew(t, id, o.spec.resource, o.worker, now).1.None? <==> now < o.leaseUntil.value)
            && (Recover(t, now).operations[id].state.TimedOut? <==> o.leaseUntil.value < now)
            && (o.leaseUntil.value >= now ==> Recover(t, now).operations[id] == o)
  {
    hide Run, Renew, Recover, LeaseOf;
    LeasesAgree(steps, id, now, "");
    var t := Run(steps).t;
    LeaseHasEnd(t, id);
    RecoveryDecides(t, id, now);
  }

  lemma {:induction false} LeaseHasEnd(t: Tables, id: string)
    requires id in t.operations
    ensures LeaseOf(t, id) ==> t.operations[id].leaseUntil.Some?
  {}

  lemma {:induction false} RecoveryDecides(t: Tables, id: string, now: int)
    requires id in t.operations && t.operations[id].state.Running? && t.operations[id].leaseUntil.Some?
    ensures id in Recover(t, now).operations
    ensures Recover(t, now).operations[id].state.TimedOut? <==> t.operations[id].leaseUntil.value < now
    ensures t.operations[id].leaseUntil.value >= now ==> Recover(t, now).operations[id] == t.operations[id]
  {
    hide TooManyFailures;
  }
}
