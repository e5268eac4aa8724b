/**
 * A run in which a ready batch takes over an operation that is not its own. An operation is submitted
 * on its own under the key an item of a batch would have; creating the batch then finds it there, and
 * neither the waves nor the failure threshold of the batch apply to it.
 */
module Adoption {
  import opened Results
  import opened Tables
  import opened Engine
  import opened Invariants
  import opened Protocol
  import opened Runs
  import opened Scenario

  function Steps(): seq<Step> {
    [ StepSubmit(WORLD, ADMIN, Restart("k:r"), "1", 0),
      Create(["r"], "rolling restart"),
      StepSubmitNext(0, WORLD, "2", 1),
      StepPublishBatch(0) ]
  }

  function Alone(): Operation {
    NewOperation(Spec(Restart("k:r"), 0), false)
  }

  lemma {:induction false} Columns()
    ensures Alone().spec.requester == "alice" && Alone().spec.key == ItemOf(["r"], 0).key && Alone().spec.batch == None
    ensures Alone().spec.requestHash == Body(ItemOf(["r"], 0))
  {}

  lemma {:induction false} SubmitsAlone(s: State)
    requires s == INITIAL
    ensures var n := Apply(s, Steps()[0]);
            n.t.operations == map["1" := Alone()] && n.t.batches == map[] && n.calls == map[]
  {
    Admits(Restart("k:r"), 0);
    assert Restart("k:r") == Restart("k:r").(batch := None, index := 0);
    hide Admit, Spec, Restart, Submit;
    NewRow(s.t, Restart("k:r"), "1", 0, Spec(Restart("k:r"), 0));
  }

  /** The item's key is taken, so its submission returns the operation that has it. */
  lemma {:induction false} FindsIt(t: Tables)
    requires t.operations == map["1" := Alone()]
    ensures Submit(t, WORLD, ADMIN, ItemOf(["r"], 0), "2", 1) == (t, Ok("1"))
  {
    hide Admit, Alone, Spec, ItemOf, Submit, Body, Restart;
    ItemAdmitted(["r"], 0, 1);
    ItemColumns(["r"], 0, 1);
    Columns();
    SpecOf();
    OldRow(t, ItemOf(["r"], 0), "2", 1, Spec(ItemOf(["r"], 0), 1), "1");
  }

  lemma {:induction false} SpecOf()
    ensures Spec(ItemOf(["r"], 0), 1).requestHash == Body(ItemOf(["r"], 0)) && Spec(ItemOf(["r"], 0), 1).key == "k:r"
    ensures Alone().spec.key == "k:r"
  {}

  lemma {:induction false} SubmitsItem(s: State)
    requires s.t.operations == map["1" := Alone()] && s.calls == map[0 := Creation(["r"], 0)]
    ensures var n := Apply(s, StepSubmitNext(0, WORLD, "2", 1));
            n.t == s.t && n.calls == map[0 := Creation(["r"], 1)]
  {
    hide Admit, Submit, Apply, Item, ItemOf, Creation, Rollout, Alone;
    NextOf(["r"], 0);
    FindsIt(s.t);
    Advances(s, 0, WORLD, "2", 1);
    assert s.calls[0 := Creation(["r"], 1)] == map[0 := Creation(["r"], 1)];
  }

  /** The batch is ready, its only item has its operation, and the batch has no member. */
  lemma {:induction false} ReadyBatchCanBeEmpty()
    ensures var t := Run(Steps()).t;
            && BATCH in t.batches && t.batches[BATCH].ready && t.batches[BATCH].request.ids == ["r"]
            && HasKey(t, "1", "alice", ItemKey("k", "r"))
            && forall id :: !InBatch(t, id, BATCH)
  {
    Columns();
    SpecOf();
    hide Run, Apply, Inv, Grows, NobodyJoins, Spec, Restart, ItemOf, Alone;
    StartsEmpty(Steps());
    OneStep(Steps(), 0);
    OneStep(Steps(), 1);
    OneStep(Steps(), 2);
    OneStep(Steps(), 3);
    SubmitsAlone(At(Steps(), 0));
    Opens(At(Steps(), 1), ["r"]);
    SubmitsItem(At(Steps(), 2));
    Publishes(At(Steps(), 3), ["r"]);
    assert Steps()[..4] == Steps();
  }
}
