/**
 * A run in which reconciliation lets two operations work on one resource at once. The first worker
 * stalls past its lease, recovery times its operation out, an administrator releases the lease, and
 * a second operation is claimed before the first worker reports.
 */
module Overlap {
  import opened Results
  import opened Rbac
  import opened Tables
  import opened Engine
  import opened Worker
  import opened Invariants
  import opened Protocol
  import opened Runs
  import opened Scenario

  function Steps(): seq<Step> {
    [ StepSubmit(WORLD, ADMIN, Restart("a"), "1", 0),
      StepSubmit(WORLD, ADMIN, Restart("b"), "2", 1),
      StepClaim("1", "w1", {}, 10),
      StepRecover(100),
      StepReconcile(WORLD, ADMIN, "r", true, "host inspected", 100),
      StepClaim("2", "w2", {}, 101) ]
  }

  /** The tables just before the first claim. */
  function Queued2(): Tables {
    Tables(map["1" := NewOperation(Spec(Restart("a"), 0), false), "2" := NewOperation(Spec(Restart("b"), 1), false)],
        map[], map[],
           multiset{AuditEntry(Created, "alice", "1"), AuditEntry(Created, "alice", "2")})
  }

  lemma {:induction false} SpecColumns(key: string, now: int)
    ensures var spec := Spec(Restart(key), now);
            spec.requester == "alice" && spec.key == key && spec.resource == "r" && spec.batch == None
  {}

  /** A submission under a new key adds its row and nothing else. */
  lemma {:induction false} Submission(s: State, key: string, id: string, now: int)
    requires (key == "a" || key == "b") && id !in s.t.operations
    requires forall x :: x in s.t.operations ==> s.t.operations[x].spec.key != key
    ensures var n := Apply(s, StepSubmit(WORLD, ADMIN, Restart(key), id, now));
            && n.t == s.t.(operations := s.t.operations[id := NewOperation(Spec(Restart(key), now), false)],
                           audit := s.t.audit + multiset{AuditEntry(Created, "alice", id)})
            && n.inFlight == s.inFlight
  {
    Admits(Restart(key), now);
    SpecColumns(key, now);
    assert Restart(key) == Restart(key).(batch := None, index := 0);
    hide Admit, Spec, Restart, NewOperation, Submit;
    NewRow(s.t, Restart(key), id, now, Spec(Restart(key), now));
  }

  lemma {:induction false} FirstTwo(s: State)
    requires s == INITIAL
    ensures var n := Apply(Apply(s, StepSubmit(WORLD, ADMIN, Restart("a"), "1", 0)),
        StepSubmit(WORLD, ADMIN, Restart("b"), "2", 1));
            n.t == Queued2() && n.inFlight == map[]
  {
    SpecColumns("a", 0);
    SpecColumns("b", 1);
    hide Apply, Spec, Restart;
    Submission(s, "a", "1", 0);
    Submission(Apply(s, StepSubmit(WORLD, ADMIN, Restart("a"), "1", 0)), "b", "2", 1);
  }

  lemma {:induction false} TwoSubmissions()
    ensures At(Steps(), 2).t == Queued2() && At(Steps(), 2).inFlight == map[]
  {
    hide Run, Apply, Inv, Grows, NobodyJoins, Spec, Restart, Queued2;
    StartsEmpty(Steps());
    FirstTwo(At(Steps(), 0));
    OneStep(Steps(), 0);
    OneStep(Steps(), 1);
  }

  lemma {:induction false} ClaimableFirst()
    ensures Claimable(Queued2(), {}, "1")
  {}

  /** Operation 2 waits, operation 1 is in flight in the given state, and the leases are as given. */
  ghost predicate Between(s: State, state: OpState, leases: map<string, Lease>) {
    && s.inFlight == map["1" := Claimed] && s.t.batches == map[] && s.t.leases == leases
    && s.t.operations.Keys == {"1", "2"}
    && s.t.operations["1"].state == state && s.t.operations["1"].worker == "w1"
    && s.t.operations["1"].leaseUntil == Some(55)
    && s.t.operations["1"].spec == Spec(Restart("a"), 0)
    && s.t.operations["2"] == NewOperation(Spec(Restart("b"), 1), false)
  }

  lemma {:induction false} FirstClaim(s: State)
    requires s.t == Queued2() && s.inFlight == map[]
    ensures Between(Apply(s, StepClaim("1", "w1", {}, 10)), Running, map["r" := Lease("1", "w1", 55)])
  {
    ClaimableFirst();
    SpecColumns("a", 0);
    hide Spec, Claimable;
  }

  lemma {:induction false} Recovery(s: State)
    requires Between(s, Running, map["r" := Lease("1", "w1", 55)])
    ensures Between(Apply(s, StepRecover(100)), TimedOut, map["r" := Lease("1", "w1", 55)])
  {
    hide Spec, NewOperation, Apply;
    assert Apply(s, StepRecover(100)) == s.(t := Recover(s.t, 100)) by { RecoveryApplies(s, 100); }
    NewIsQueued(Spec(Restart("b"), 1));
    assert Expired(s.t, 100) == {"1"};
    hide Expired;
    assert Doomed(Expire(s.t, 100)) == {};
  }

  lemma {:induction false} RecoveryApplies(s: State, now: int)
    ensures Apply(s, StepRecover(now)) == s.(t := Recover(s.t, now))
  {}

  lemma {:induction false} NewIsQueued(spec: OpSpec)
    ensures NewOperation(spec, false).state.Queued?
  {}

  lemma {:induction false} MayReconcileHere()
    ensures MayReconcile(WORLD, ADMIN, "r", true, "host inspected")
  {
    assert "*" in Permissions("ADMIN");
  }

  lemma {:induction false} Reconciliation(s: State)
    requires Between(s, TimedOut, map["r" := Lease("1", "w1", 55)])
    ensures Between(Apply(s, StepReconcile(WORLD, ADMIN, "r", true, "host inspected", 100)), TimedOut, map[])
  {
    MayReconcileHere();
    hide Spec, MayReconcile;
  }

  lemma {:induction false} SecondClaim(s: State)
    requires Between(s, TimedOut, map[])
    ensures var n := Apply(s, StepClaim("2", "w2", {}, 101));
            && "1" in n.inFlight && "2" in n.inFlight && "1" in n.t.operations && "2" in n.t.operations
            && n.t.operations["1"].spec.resource == n.t.operations["2"].spec.resource
  {
    SpecColumns("a", 0);
    SpecColumns("b", 1);
    hide Spec;
    assert Claimable(s.t, {}, "2");
  }

  lemma {:induction false} TimedOutAtFour()
    ensures Between(At(Steps(), 4), TimedOut, map["r" := Lease("1", "w1", 55)])
  {
    hide Run, Apply, Inv, Grows, NobodyJoins, Between, Spec, Queued2;
    TwoSubmissions();
    OneStep(Steps(), 2);
    FirstClaim(At(Steps(), 2));
    OneStep(Steps(), 3);
    Recovery(At(Steps(), 3));
  }

  /** The same run up to the recovery, with a late report of the first worker instead. */
  function LateReport(): seq<Step> {
    Steps()[..4] + [StepFinish("1", Failed, 101)]
  }

  lemma {:induction false} Report(s: State)
    requires Between(s, TimedOut, map["r" := Lease("1", "w1", 55)])
    ensures var n := Apply(s, StepFinish("1", Failed, 101)).t;
            n.leases == map[] && "1" in n.operations && n.operations["1"].state.TimedOut?
    ensures "1" in s.t.operations && s.t.operations["1"].state.TimedOut? && "r" in s.t.leases
  {
    SpecColumns("a", 0);
    hide Spec;
  }

  /** A timed-out operation's lease is gone without anybody having reconciled it. */
  lemma {:induction false} LateReportFreesLease()
    ensures var before, after := At(LateReport(), 4).t, Run(LateReport()).t;
            && "1" in before.operations && before.operations["1"].state.TimedOut? && "r" in before.leases
            && "1" in after.operations && after.operations["1"].state.TimedOut? && "r" !in after.leases
  {
    hide Run, Apply, Inv, Grows, NobodyJoins, Between;
    TimedOutAtFour();
    SamePrefix();
    hide Steps, LateReport;
    OneStep(LateReport(), 4);
    Report(At(LateReport(), 4));
    assert LateReport()[..5] == LateReport();
  }

  lemma {:induction false} SamePrefix()
    ensures |LateReport()| == 5 && LateReport()[4] == StepFinish("1", Failed, 101) && LateReport()[..4] == Steps()[..4]
  {
    assert |Steps()| == 6;
  }

  /** Two claimers that have not reported, on one resource. */
  lemma {:induction false} ReconciliationCanOverlap()
    ensures var s := Run(Steps());
            && "1" in s.inFlight && "2" in s.inFlight && "1" in s.t.operations && "2" in s.t.operations
            && s.t.operations["1"].spec.resource == s.t.operations["2"].spec.resource
  {
    hide Run, Apply, Inv, Grows, NobodyJoins, Between, Spec, Queued2;
    TimedOutAtFour();
    OneStep(Steps(), 4);
    Reconciliation(At(Steps(), 4));
    OneStep(Steps(), 5);
    SecondClaim(At(Steps(), 5));
    assert Steps()[..6] == Steps();
  }
}
