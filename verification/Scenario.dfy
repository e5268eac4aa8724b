/** One administrator, one host and two containers: the world of the concrete runs, and how a batch is created in it. */
module Scenario {
  import opened Results
  import opened Rbac
  import opened Policy
  import opened Tables
  import opened Engine
  import opened Protocol

  const ADMIN := Principal(User("alice", "ADMIN", true, [], false, false, false), "", [], false)

  const HOST := Host("h", "web-1", 22, "ops", "key", "s1", "fp", "development", [], true, "")

  function Container(id: string): Resource {
    Resource(id, "h", "container", "docker", id, "", "running", "", "")
  }

  predicate Known(id: string) {
    id == "r" || id == "q"
  }

  const WORLD := World(
    map["alice" := ADMIN.user], map[], map["h" := HOST], map["r" := Container("r"), "q" := Container("q")], [],
    map["docker" := Adapter(map["r" := ["restart"], "q" := ["restart"]], map[])], map[])

  function Restart(key: string): Request {
    Request("r", "restart", map[], "rolling restart", key, false, "", None, 0)
  }

  /** The operation a restart becomes. */
  function Spec(req: Request, now: int): OpSpec {
    var target := Target(ConnectionOf(HOST), req.resource, "", "docker", "container", "", "", None);
    OpSpec("alice", req.resource, "h", "restart", req.parameters, "development", "medium", false, "", false, "",
        req.key,
           Body(req), Some(target), req.batch, req.index, now)
  }

  lemma {:induction false} Authorized(id: string)
    requires Known(id)
    ensures Authorize(WORLD, ADMIN, Container(id), HOST, "restart", false, "") ==
        Ok(Decision(true, false, "medium", "authorized"))
  {
    var input := Input(ADMIN, Container(id), HOST, "restart", false, "", map[]);
    Decides(input);
    hide Decide;
  }

  lemma {:induction false} Decides(input: Input)
    requires input.principal == ADMIN && input.host == HOST && input.action == "restart" && !input.agent
        && input.mode == ""
    ensures Decide(input, []) == Decision(true, false, "medium", "authorized")
  {
    assert "*" in Permissions("ADMIN");
    assert BaseObjection(input).None?;
    assert !ReadOnly("restart");
    assert Risk("restart") == "medium";
  }

  lemma {:induction false} Admits(req: Request, now: int)
    requires Known(req.resource) && req.action == "restart" && !req.agent && req.mode == ""
    requires 0 < |req.key| <= 32 && 3 <= |req.reason| <= 500
    ensures Admit(WORLD, ADMIN, req, now) == Admitted(Spec(req, now), false)
  {
    Authorized(req.resource);
    hide Authorize;
    assert !ReadOnly("restart");
  }

  /** A submission under a new key adds its row and nothing else. */
  lemma {:induction false} NewRow(t: Tables, req: Request, id: string, now: int, spec: OpSpec)
    requires Admit(WORLD, ADMIN, req, now) == Admitted(spec, false) && id !in t.operations
    requires forall x :: x in t.operations ==> t.operations[x].spec.key != spec.key
    ensures Submit(t, WORLD, ADMIN, req, id, now) ==
              (t.(operations := t.operations[id := NewOperation(spec, false)],
                  audit := t.audit + multiset{AuditEntry(Created, spec.requester, id)}), Ok(id))
  {
    hide Admit;
    assert Existing(t, spec.requester, spec.key).None?;
  }

  /** A submission under a key that was bound to the same body returns the operation it names. */
  lemma {:induction false} OldRow(t: Tables, req: Request, id: string, now: int, spec: OpSpec, found: string)
    requires Admit(WORLD, ADMIN, req, now) == Admitted(spec, false) && HasKey(t, found, spec.requester, spec.key)
    requires forall x :: HasKey(t, x, spec.requester, spec.key) ==> x == found
    requires t.operations[found].spec.requestHash == spec.requestHash
    ensures Submit(t, WORLD, ADMIN, req, id, now) == (t, Ok(found))
  {
    hide Admit;
    assert Existing(t, spec.requester, spec.key) == Some(found);
  }

  // ------------------------------------------------------------------ creating a batch

  const BATCH := BatchId("alice", "k")

  /** Restarts one at a time, stopping at the first failure. */
  function Rollout(ids: seq<string>): BatchRequest {
    BatchRequest(ids, "restart", map[], 1, 0, false)
  }

  function Row(ids: seq<string>, ready: bool): BatchRow {
    BatchRow("alice", 1, 0, false, Rollout(ids), ready)
  }

  function Create(ids: seq<string>, reason: string): Step {
    StepOpenBatch(0, WORLD, ADMIN, Restart("k").(reason := reason), ids, 1, 0, false)
  }

  function Creation(ids: seq<string>, next: nat): BatchCall {
    BatchCall(ADMIN, BATCH, Rollout(ids), Restart("k"), next, false)
  }

  function ItemOf(ids: seq<string>, i: nat): Request
    requires i < |ids|
  {
    Item(Restart("k"), BATCH, Rollout(ids), i)
  }

  predicate Distinct(ids: seq<string>) {
    && 0 < |ids| <= 500 && (forall i :: 0 <= i < |ids| ==> Known(ids[i]))
    && forall i, j :: 0 <= i < j < |ids| ==> ids[i] != ids[j]
  }

  lemma {:induction false} NoObjection(ids: seq<string>, reason: string)
    requires Distinct(ids)
    ensures BatchObjection(WORLD, ADMIN, Restart("k").(reason := reason), Rollout(ids)).None?
  {
    Authorized("r");
    Authorized("q");
    hide Authorize, ItemObjection;
    NoObjectionMeans(WORLD, ADMIN, Restart("k").(reason := reason), ids, |ids|);
  }

  lemma {:induction false} Opens(s: State, ids: seq<string>)
    requires Distinct(ids) && s.calls == map[] && s.t.batches == map[]
    ensures Apply(s, Create(ids, "rolling restart")) ==
              s.(t := s.t.(batches := map[BATCH := Row(ids, false)]), calls := map[0 := Creation(ids, 0)])
  {
    NoObjection(ids, "rolling restart");
    Shape(WORLD, ADMIN, Restart("k"), Rollout(ids));
    hide BatchObjection, WellShaped, Distinct;
    assert Restart("k") == Restart("k").(reason := "rolling restart");
  }

  lemma {:induction false} ItemColumns(ids: seq<string>, i: nat, now: int)
    requires i < |ids|
    ensures var spec := Spec(ItemOf(ids, i), now);
            && spec.key == "k:" + ids[i] && spec.resource == ids[i] && spec.requester == "alice"
            && spec.batch == Some(BATCH)
            && spec.batchIndex == i && spec.createdAt == now && spec.environment == "development"
  {}

  lemma {:induction false} ItemAdmitted(ids: seq<string>, i: nat, now: int)
    requires i < |ids| && Known(ids[i])
    ensures Admit(WORLD, ADMIN, ItemOf(ids, i), now) == Admitted(Spec(ItemOf(ids, i), now), false)
  {
    assert ItemOf(ids, i).key == "k:" + ids[i];
    Admits(ItemOf(ids, i), now);
  }

  lemma {:induction false} Submits(s: State, ids: seq<string>, i: nat, id: string, now: int)
    requires i < |ids| && Known(ids[i]) && s.calls == map[0 := Creation(ids, i)] && id !in s.t.operations
    requires forall x :: x in s.t.operations ==> s.t.operations[x].spec.key != Spec(ItemOf(ids, i), now).key
    ensures var n := Apply(s, StepSubmitNext(0, WORLD, id, now));
            && n.t.operations == s.t.operations[id := NewOperation(Spec(ItemOf(ids, i), now), false)]
            && n.t.batches == s.t.batches && n.t.leases == s.t.leases && n.inFlight == s.inFlight
            && n.calls == map[0 := Creation(ids, i + 1)]
  {
    hide Admit, Spec, Submit, Restart, NewOperation, Apply, Item, ItemOf, Creation, Rollout;
    ItemAdmitted(ids, i, now);
    NextOf(ids, i);
    NewRow(s.t, ItemOf(ids, i), id, now, Spec(ItemOf(ids, i), now));
    Advances(s, 0, WORLD, id, now);
    assert s.calls[0 := Creation(ids, i + 1)] == map[0 := Creation(ids, i + 1)];
  }

  lemma {:induction false} NextOf(ids: seq<string>, i: nat)
    requires i < |ids|
    ensures var c := Creation(ids, i);
            && c.principal == ADMIN && !c.failing && c.next == i && c.request.ids == ids
            && c.(next := i + 1) == Creation(ids, i + 1)
            && Item(c.template, c.batch, c.request, c.next) == ItemOf(ids, i)
  {}

  /** An item that is submitted brings its creation one item further. */
  lemma {:induction false} Advances(s: State, call: nat, w: World, id: string, now: int)
    requires call in s.calls && !s.calls[call].failing && s.calls[call].next < |s.calls[call].request.ids|
    requires var c := s.calls[call];
             Submit(s.t, w, c.principal, Item(c.template, c.batch, c.request, c.next), id, now).1.Ok?
    ensures var c, n := s.calls[call], Apply(s, StepSubmitNext(call, w, id, now));
            && n.t == Submit(s.t, w, c.principal, Item(c.template, c.batch, c.request, c.next), id, now).0
            && n.inFlight == s.inFlight && n.calls == s.calls[call := c.(next := c.next + 1)]
  {
    hide Submit, Item;
  }

  lemma {:induction false} Publishes(s: State, ids: seq<string>)
    requires s.t.batches == map[BATCH := Row(ids, false)] && s.calls == map[0 := Creation(ids, |ids|)]
    ensures Apply(s, StepPublishBatch(0)) == s.(t := s.t.(batches := map[BATCH := Row(ids, true)]), calls := map[])
  {}
}
