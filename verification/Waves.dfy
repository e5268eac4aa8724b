/**
 * A run in which two waves of a batch are worked on at once. The first operation is cancelled while
 * its worker is at work, which closes its row, and the second wave is claimed before that worker
 * reports.
 */
module Waves {
  import opened Results
  import opened Rbac
  import opened Tables
  import opened Engine
  import opened Worker
  import opened Invariants
  import opened Protocol
  import opened Runs
  import opened Scenario

  const IDS: seq<string> := ["r", "q"]

  function Steps(): seq<Step> {
    [ Create(IDS, "rolling restart"),
      StepSubmitNext(0, WORLD, "1", 0),
      StepSubmitNext(0, WORLD, "2", 1),
      StepPublishBatch(0),
      StepClaim("1", "w1", {}, 10),
      StepCancel(ADMIN, "1", 20),
      StepClaim("2", "w2", {}, 30) ]
  }

  function First(): Operation {
    NewOperation(Spec(ItemOf(IDS, 0), 0), false)
  }

  function Second(): Operation {
    NewOperation(Spec(ItemOf(IDS, 1), 1), false)
  }

  lemma {:induction false} Columns()
    ensures var a, b := First().spec, Second().spec;
            && a.batch == Some(BATCH) && a.batchIndex == 0 && a.resource == "r" && a.createdAt == 0
            && a.requester == "alice" && a.environment == "development"
            && b.batch == Some(BATCH) && b.batchIndex == 1 && b.resource == "q" && b.createdAt == 1 && a.key != b.key
    ensures First().state.Queued? && Second().state.Queued?
  {
    ItemColumns(IDS, 0, 0);
    ItemColumns(IDS, 1, 1);
    hide Spec, ItemOf;
    assert ("k:" + IDS[0])[2] == 'r' && ("k:" + IDS[1])[2] == 'q';
  }

  /** The first operation is as given, the second waits, and the batch is ready. */
  ghost predicate Staged(s: State, first: Operation, leases: map<string, Lease>) {
    && s.t.operations == map["1" := first, "2" := Second()] && s.t.leases == leases
    && s.t.batches == map[BATCH := Row(IDS, true)]
  }

  lemma {:induction false} ReadyToRun()
    ensures var s := At(Steps(), 4); Staged(s, First(), map[]) && s.inFlight == map[]
  {
    Columns();
    hide Run, Apply, Inv, Grows, NobodyJoins, Spec, Restart, ItemOf, Row, Creation;
    StartsEmpty(Steps());
    OneStep(Steps(), 0);
    OneStep(Steps(), 1);
    OneStep(Steps(), 2);
    OneStep(Steps(), 3);
    Opens(At(Steps(), 0), IDS);
    Submits(At(Steps(), 1), IDS, 0, "1", 0);
    Submits(At(Steps(), 2), IDS, 1, "2", 1);
    Publishes(At(Steps(), 3), IDS);
  }

  lemma {:induction false} NoFailures(t: Tables, first: Operation)
    requires t.operations == map["1" := first, "2" := Second()] && !Failing(first.state)
    ensures BatchFailures(t, BATCH) == {}
  {
    Columns();
    hide Second;
  }

  lemma {:induction false} FirstEligible(s: State)
    requires Staged(s, First(), map[])
    ensures Claimable(s.t, {}, "1")
  {
    Columns();
    NoFailures(s.t, First());
    hide First, Second, BatchFailures;
  }

  function Started1(): Operation {
    First().(state := Running, worker := "w1", leaseUntil := Some(55), startedAt := Some(10))
  }

  lemma {:induction false} ClaimApplies(s: State, id: string, worker: string, now: int)
    requires Claimable(s.t, {}, id)
    ensures Apply(s, StepClaim(id, worker, {}, now)) ==
        s.(t := Claim(s.t, id, worker, now), inFlight := s.inFlight[id := Claimed])
  {
    hide Claim, BatchAdmits;
  }

  lemma {:induction false} FirstClaim(s: State)
    requires Staged(s, First(), map[]) && s.inFlight == map[]
    ensures var n := Apply(s, StepClaim("1", "w1", {}, 10));
            Staged(n, Started1(), map["r" := Lease("1", "w1", 55)]) && "1" in n.inFlight
  {
    FirstEligible(s);
    Columns();
    hide First, Second, Claimable, Apply;
    ClaimApplies(s, "1", "w1", 10);
  }

  lemma {:induction false} MayCancel()
    ensures CancelObjection(Started1(), ADMIN).None?
  {
    Columns();
    hide First;
    assert "*" in Permissions("ADMIN");
  }

  lemma {:induction false} Cancellation(s: State)
    requires Staged(s, Started1(), map["r" := Lease("1", "w1", 55)]) && "1" in s.inFlight
    ensures var n := Apply(s, StepCancel(ADMIN, "1", 20));
            Staged(n, Started1().(state := Cancelled, finishedAt := Some(20)), map["r" := Lease("1", "w1", 55)])
                && "1" in n.inFlight
  {
    MayCancel();
    hide Started1, Second, CancelObjection;
  }

  lemma {:induction false} SecondEligible(s: State, first: Operation)
    requires Staged(s, first, map["r" := Lease("1", "w1", 55)]) && first.state.Cancelled?
    ensures Claimable(s.t, {}, "2")
  {
    Columns();
    NoFailures(s.t, first);
    hide First, Second, BatchFailures;
  }

  lemma {:induction false} SecondClaim(s: State, first: Operation)
    requires Staged(s, first, map["r" := Lease("1", "w1", 55)]) && first.state.Cancelled? && first.spec == First().spec
        && "1" in s.inFlight
    ensures var n := Apply(s, StepClaim("2", "w2", {}, 30));
            "1" in n.inFlight && "2" in n.inFlight && BATCH in n.t.batches && Before(n.t, "1", "2", BATCH)
  {
    SecondEligible(s, first);
    Columns();
    hide First, Second, Claimable, Apply;
    ClaimApplies(s, "2", "w2", 30);
  }

  /** Two claimers that have not reported, in two waves of one batch. */
  lemma {:induction false} CancellationCanOverlapWaves()
    ensures var s := Run(Steps());
            "1" in s.inFlight && "2" in s.inFlight && BATCH in s.t.batches && Before(s.t, "1", "2", BATCH)
  {
    hide Run, Apply, Inv, Grows, NobodyJoins, Staged, First, Second, Before;
    ReadyToRun();
    OneStep(Steps(), 4);
    FirstClaim(At(Steps(), 4));
    OneStep(Steps(), 5);
    Cancellation(At(Steps(), 5));
    OneStep(Steps(), 6);
    SecondClaim(At(Steps(), 6), Started1().(state := Cancelled, finishedAt := Some(20)));
    assert Steps()[..7] == Steps();
  }
}
