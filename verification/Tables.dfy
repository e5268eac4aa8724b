/** The rows of the operation queue: operations, resource leases, batches and the audit trail. */
module Tables {
  import opened Results

  datatype OpState = WaitingApproval | Queued | Running | Succeeded | Failed | TimedOut | Rejected | Cancelled

  predicate Terminal(s: OpState) {
    !s.WaitingApproval? && !s.Queued? && !s.Running?
  }

  /** The states a rolling batch counts as failures. */
  predicate Failing(s: OpState) {
    s.Failed? || s.TimedOut? || s.Rejected?
  }

  predicate Pending(s: OpState) {
    s.WaitingApproval? || s.Queued?
  }

  /** How far an operation still is from being over. */
  function Rank(s: OpState): nat {
    match s
    case WaitingApproval => 3
    case Queued => 2
    case Running => 1
    case _ => 0
  }

  /** The part of a request its idempotency key is bound to; the hash of it is taken as injective. */
  datatype RequestBody = RequestBody(resource: string, action: string, parameters: map<string, string>, agent: bool,
      mode: string)

  datatype Connection = Connection(
    id: string, hostname: string, port: int, username: string, authMethod: string, secretId: string,
    fingerprint: string, environment: string, bastionId: string)

  /** What an approval is bound to: the identity behind the target hash, taken as injective. */
  datatype Target = Target(
    host: Connection, externalId: string, namespace: string, provider: string, kind: string,
    project: string, service: string, bastion: Option<Connection>)

  /** A batch id is a hash of its requester and key, taken as injective. */
  datatype BatchId = BatchId(requester: string, key: string)

  /** The columns of an operation that no statement ever updates once it is inserted. */
  datatype OpSpec = OpSpec(
    requester: string, resource: string, host: string, action: string, parameters: map<string, string>,
    environment: string, risk: string, agent: bool, mode: string, authMfa: bool, tokenId: string, key: string,
    requestHash: RequestBody, target: Option<Target>, batch: Option<BatchId>, batchIndex: nat, createdAt: int)

  datatype Operation = Operation(
    spec: OpSpec, state: OpState, approvalBy: string, worker: string,
    startedAt: Option<int>, finishedAt: Option<int>, leaseUntil: Option<int>)

  predicate Started(o: Operation) {
    o.startedAt.Some?
  }

  datatype Lease = Lease(operation: string, worker: string, expiresAt: int)

  /** The request behind a batch, which its stored hash stands for. */
  datatype BatchRequest = BatchRequest(
    ids: seq<string>, action: string, parameters: map<string, string>, size: int, threshold: int, continueOnError: bool)

  type Positive = n: int | n > 0 witness 1

  datatype BatchRow = BatchRow(
    requester: string, size: Positive, failureThreshold: nat, continueOnError: bool, request: BatchRequest, ready: bool)

  datatype Event =
    | PolicyDenied | Created | ApprovalRequested | ApprovalGranted | ApprovalRejected | CancelledByUser
    | ExecutionStarted | Completed(outcome: OpState) | Orphaned | Reconciled

  /** One audit row; the subject is an operation, or a resource where no operation exists. */
  datatype AuditEntry = AuditEntry(event: Event, actor: string, subject: string)

  datatype Tables = Tables(
    operations: map<string, Operation>, leases: map<string, Lease>, batches: map<BatchId, BatchRow>,
    audit: multiset<AuditEntry>)

  predicate InBatch(t: Tables, id: string, b: BatchId) {
    id in t.operations && t.operations[id].spec.batch == Some(b)
  }

  /** The group of a batch an index belongs to; groups run one after another. */
  function Wave(index: nat, size: Positive): nat {
    index / size
  }

  /** The operations of a batch that count as failures. */
  function BatchFailures(t: Tables, b: BatchId): set<string> {
    set id | id in t.operations && InBatch(t, id, b) && Failing(t.operations[id].state)
  }

  predicate TooManyFailures(t: Tables, b: BatchId)
    requires b in t.batches
  {
    var row := t.batches[b];
    (!row.continueOnError && BatchFailures(t, b) != {}) || |BatchFailures(t, b)| > row.failureThreshold
  }

  /** Ends the given operations in a terminal state. */
  function Close(t: Tables, which: set<string>, state: OpState, now: int): Tables {
    t.(operations := map id | id in t.operations ::
      if id in which then t.operations[id].(state := state, finishedAt := Some(now)) else t.operations[id])
  }

  predicate HasKey(t: Tables, id: string, requester: string, key: string) {
    id in t.operations && t.operations[id].spec.requester == requester && t.operations[id].spec.key == key
  }

  /** The operation a requester already submitted under a key. */
  ghost function Existing(t: Tables, requester: string, key: string): (r: Option<string>)
    ensures r.Some? ==> HasKey(t, r.value, requester, key)
    ensures r.None? ==> forall id :: !HasKey(t, id, requester, key)
  {
    if id :| HasKey(t, id, requester, key) then Some(id) else None
  }
}
