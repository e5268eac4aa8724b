/**
 * A run in which repeating the creation of a batch destroys it. A batch of one operation is created
 * and published; its creation is repeated with an empty reason, is refused when it submits the item,
 * and cancels the operation that was waiting to run.
 */
module Replay {
  import opened Tables
  import opened Engine
  import opened Invariants
  import opened Protocol
  import opened Runs
  import opened History
  import opened Scenario

  function Steps(): seq<Step> {
    [ Create(["r"], "rolling restart"),
      StepSubmitNext(0, WORLD, "1", 0),
      StepPublishBatch(0),
      Create(["r"], ""),
      StepSubmitNext(0, WORLD, "2", 1),
      StepAbortBatch(0, 1) ]
  }

  /** The batch is ready and its operation is queued. */
  lemma {:induction false} ReadyToRun()
    ensures var s := At(Steps(), 3);
            && s.t.operations == map["1" := NewOperation(Spec(ItemOf(["r"], 0), 0), false)]
            && s.t.batches == map[BATCH := Row(["r"], true)] && s.calls == map[]
  {
    hide Run, Apply, Inv, Grows, NobodyJoins, Spec, Restart, ItemOf, Row, Creation;
    StartsEmpty(Steps());
    OneStep(Steps(), 0);
    OneStep(Steps(), 1);
    OneStep(Steps(), 2);
    Opens(At(Steps(), 0), ["r"]);
    Submits(At(Steps(), 1), ["r"], 0, "1", 0);
    Publishes(At(Steps(), 2), ["r"]);
  }

  lemma {:induction false} IsReplay(s: State)
    requires s.t.batches == map[BATCH := Row(["r"], true)] && s.calls == map[]
    ensures Replays(s, Create(["r"], "")) && !ReasonFits(Create(["r"], "").req.reason)
  {
    NoObjection(["r"], "");
    hide BatchObjection;
  }

  lemma {:induction false} Destroyed(s: State)
    requires s.t.batches == map[BATCH := Row(["r"], true)] && s.calls == map[] && "1" in PendingOf(s.t, BATCH)
    ensures var n := Apply(Apply(Apply(s, Create(["r"], "")), StepSubmitNext(0, WORLD, "2", 1)),
        StepAbortBatch(0, 1)).t;
            n.batches == s.t.batches && "1" in n.operations && n.operations["1"].state.Cancelled?
  {
    IsReplay(s);
    Aborted(s.t, BATCH, 1);
    hide Apply, Replays, ReasonFits, PendingOf, AbortBatch;
    BadReasonCancelsBatch(s, Create(["r"], ""), WORLD, "2", 1);
  }

  lemma {:induction false} Waiting(t: Tables)
    requires t.operations == map["1" := NewOperation(Spec(ItemOf(["r"], 0), 0), false)]
    ensures "1" in PendingOf(t, BATCH) && InBatch(t, "1", BATCH) && t.operations["1"].state.Queued?
  {}

  /** The replay cancels an operation of a batch that was ready to run. */
  lemma {:induction false} ReplayCanCancel()
    ensures var before, after := At(Steps(), 3).t, Run(Steps()).t;
            && BATCH in before.batches && before.batches[BATCH].ready && BATCH in after.batches
            && after.batches[BATCH].ready
            && InBatch(before, "1", BATCH) && before.operations["1"].state.Queued?
            && "1" in after.operations && after.operations["1"].state.Cancelled?
  {
    ReadyToRun();
    hide Run, Apply, Inv, Grows, NobodyJoins, Spec, ItemOf, PendingOf, InBatch;
    Waiting(At(Steps(), 3).t);
    Destroyed(At(Steps(), 3));
    hide Restart;
    OneStep(Steps(), 3);
    OneStep(Steps(), 4);
    OneStep(Steps(), 5);
    assert Steps()[..6] == Steps();
  }
}
