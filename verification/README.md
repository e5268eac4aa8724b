# Operation queue, policy, streaming and shell rendering: a verified model

infra-orchestrator runs commands on remote hosts. A request becomes a row of `operations`, is
authorized by policy, possibly approved by a second person, claimed by a worker under a lease on its
resource, re-checked and executed. This project models that protocol and four smaller algorithms
around it in Dafny 4.11, and proves what they guarantee. `dafny verify dfyconfig.toml` checks all of
it.

## Layout

| file | models |
|---|---|
| `Results.dfy`, `Finite.dfy` | result types; counting facts about finite sets |
| `Rbac.dfy`, `Policy.dfy` | permissions of roles; maintenance windows and the policy decision |
| `Tables.dfy` | the rows of `operations`, `resource_leases`, `batches` and `audit` |
| `Engine.dfy`, `Worker.dfy` | each transaction as a function from tables to tables |
| `Database.dfy` | the same transactions as methods of a class that updates the tables in place, proved against those functions |
| `Effects.dfy` | what each of those transactions does, told in rows and columns; who may, what changes, what is recorded, what refuses |
| `Invariants.dfy` | the table invariants, and that every transaction keeps them |
| `Protocol.dfy`, `Machine.dfy` | the machine over atomic steps, its state and its invariant; that each step does what its transaction does |
| `Runs.dfy` | theorems about every reachable state and every run: batches, the life of a row, lease agreement |
| `Exclusion.dfy` | how a lease is lost, exactly when two claimers share a resource, quarantine |
| `InFlight.dfy` | the rows behind unreported work, waves counted over workers, the moment of the adapter call |
| `History.dfy` | who was let through; what repeating a submission or a batch does |
| `Scenario.dfy`, `Overlap.dfy`, `Replay.dfy`, `Waves.dfy`, `Adoption.dfy` | concrete runs: reconciliation lets two claimers overlap, a late report frees a lease, a replay cancels a ready batch, a cancellation lets two waves overlap, a ready batch has no member |
| `Utf8.dfy`, `Stream.dfy` | UTF-8 validity; the incremental JSON field reader and its stream |
| `Shell.dfy` | quoting of a command line and its reading by a POSIX shell |
| `RateLimiter.dfy` | the fixed-window limiter |

## How to read the queue

A run is any sequence of `Protocol.Step`. Each transaction is one atomic step. A step names the clock
it reads, which may jump either way, and the world it sees (users, live tokens, hosts, resources,
rules, adapters), which may be different at every step. Workers are not obliged to renew, to report,
or to report in time; a crashed worker is one that takes no further step. Creating a batch is not
atomic: opening its row, submitting each item, aborting and publishing are separate steps, and any
number of such calls may interleave, also on the same batch. A step that is not enabled changes
nothing. `Runs.Run(steps)` is the state a run reaches and `Runs.At(steps, k)` the state before step
k, so a statement about `Run(steps)` for all `steps` is a statement about every reachable state.

`State.inFlight` holds the operations whose claimer has not reported yet and how far it is: it
claimed, it passed the gate and renewed, it called the adapter. These are separate steps, so anything
may happen between them. `executions`, `origins` and `approvals` record the past (adapter calls, the
circumstances of each submission, who approved) so that theorems can speak of it.

`Effects.dfy` says what each transaction does in rows and columns, without the functions of `Engine.dfy`
and `Worker.dfy`; the methods of `Database.Queue` and, by `Machine.StepMeans`, the steps of the machine
are proved to do exactly that.

Hashes (`request_hash`, `target_hash`, batch ids) are taken as injective: the model keeps what is
hashed. `Operation.spec` groups the columns no statement updates after the insert.

Five properties one might expect are false of the code. Each has a concrete run or input that shows it,
and its exact condition as a theorem:

- Two claimers can share a resource. Reconciliation releases an expired lease whenever the row is not
  running, even if the worker behind it has not reported. `Overlap.ReconciliationCanOverlap` is a
  reachable run that ends so. `Exclusion.OverlapExactly` says, of every run: at a second claim on a
  resource the first claimer has yet to report if and only if its own lease was released this way
  before, and it has not reported since. `Exclusion.SharedResource` is the same about every reachable
  state. Exclusion (`Exclusion.SpansDoNotOverlap`, `Exclusion.OneInFlight`) follows wherever no such
  release of that lease, or on that resource, took place.
- Replaying a ready batch is not always harmless. The reason is checked when an item is submitted and
  is not part of what the batch is bound to, so a replay whose reason is shorter than 3 or longer than
  2000 bytes cancels every operation of the batch that has not started
  (`History.BadReasonCancelsBatch`); `Replay.ReplayCanCancel` is a reachable run that ends with a ready
  batch cancelled. `Database.Queue.Batch` states when: a replay succeeds if and only if every item is
  admitted now and its key was bound to the same request, and it leaves all rows as they were if and
  only if it succeeds or nothing of the batch was pending. `History.ReplayExactly` says it step by step
  for replays that interleave with anything else.
- Waves are counted over rows, not over workers. Recovery and cancellation close a row over its
  worker's head, and the next wave may start while that worker still works, as it does in
  `Waves.CancellationCanOverlapWaves`. `InFlight.WavesOverlapExactly`: a claimer of a lower wave has yet
  to report at a claim if and only if its row was closed this way and it has not reported since.
  `InFlight.WorkerRadius` says by how much the blast radius, counted over workers, can be exceeded: by
  those cancelled under their worker.
- The items of a ready batch need not belong to it. An operation submitted on its own under the key of
  an item is taken for the item, and neither waves nor thresholds bind it
  (`Adoption.ReadyBatchCanBeEmpty`). By `Runs.ItemsOfReadyBatch` that is the only way: an item's
  operation is a member if and only if it was submitted with a batch.
- A whole document does not always show its field. The decoder looks for the first occurrence of the
  quoted name, also inside or as another value (`Stream.EchoHidesField`); by
  `Stream.ReadsMemberExactly` it reads a member if and only if no occurrence precedes it.

Two places differ from what the comments or the documentation say, and the code is followed:

- A timed-out operation's lease is not held only until an administrator acts
  (`internal/operations/worker.go:137`): its own worker's late report of another outcome releases it
  too, as in `Overlap.LateReportFreesLease`. `Exclusion.Quarantine` and `Exclusion.LeaseStays` state both
  ways out.
- The decoder drops `\b` and `\f` and turns a surrogate pair into two replacement characters
  (`internal/agent/stream.go:105-115`). `Stream.JsonRoundTrip` is therefore an if-and-only-if.

The limiter admits at most `2 * max - 1` calls in any closed interval of one window length, one fewer
than two full windows; `RateLimiter.SlidingBoundIsReached` shows that this is exact.

## Model

| member | source | states |
|---|---|---|
| `Exclusion.OverlapExactly` | internal/operations/worker.go:26-143 | in any run, with no assumption on it: at a second claim on a resource the first claimer has yet to report if and only if, since it claimed, a reconciliation released its lease and it has not reported after that |
| `Exclusion.SpansDoNotOverlap` | internal/operations/worker.go:26-143 | between two claims on one resource the first claimer has effectively reported, unless a reconciliation in between released that claimer's own lease; clocks, missed renewals, recovery, cancellation and late reports are arbitrary |
| `Exclusion.SharedResource` | internal/operations/worker.go:26-143 | two operations on one resource are unreported in the same reachable state if and only if one of them was claimed, lost its lease to reconciliation, the other was claimed after, and neither has reported since |
| `Exclusion.OneInFlight` | internal/operations/worker.go:26-143 | at most one claimer per resource has yet to report, provided no reconciliation of that same resource released an unreported claimer's lease |
| `Exclusion.SpanIsSilence` | internal/operations/worker.go:26-109 | a claimed operation is unreported at a later moment if and only if no report of an outcome came in between |
| `Exclusion.ExclusionStep` | internal/api/infrastructure.go:476 | that every unreported claimer still holds its lease survives a step if and only if the step is not a reconciliation that releases the lease of one of them |
| `Exclusion.DisturbanceAdmitsOverlap` | internal/api/infrastructure.go:476 | after any such release, which only an enabled administrator can make, a claim on that resource leaves two claimers unreported |
| `Overlap.ReconciliationCanOverlap` | internal/api/infrastructure.go:458-485 | a concrete run of submissions, claim, recovery, reconciliation and claim that ends with two claimers on one resource |
| `Exclusion.LeaseStays` | internal/operations/worker.go:87-109 | a held lease is lost in exactly two ways: its claimer reports an outcome other than timeout, or it is reconciled |
| `Exclusion.Quarantine` | internal/operations/worker.go:87-137 | from the step that times out or cancels a running operation, nothing on its resource is claimed until one of those two happens |
| `Overlap.LateReportFreesLease` | internal/operations/worker.go:87-109 | a concrete run in which recovery times an operation out and its worker's late report of a failure removes the lease, the row staying timed out |
| `Exclusion.QuarantineBegins` | internal/operations/engine.go:288 | a running operation that is timed out or cancelled keeps its lease |
| `Runs.LeasesAgree` | internal/operations/worker.go:46-85 | in every reachable state a running row has the lease naming it, its worker and its expiry; at most one row runs per resource; a renewal succeeds exactly while the row's lease lasts; reconciliation never frees a running row's lease |
| `Runs.LeaseDecides` | internal/operations/worker.go:71-116 | a running row's worker can renew exactly before its lease ends, and recovery times it out exactly after; at the instant it ends neither happens |
| `Invariants.RenewKeeps` | internal/operations/worker.go:65-86 | once the first update of a renewal hits, the second cannot miss |
| `Runs.BlastRadius` | internal/operations/worker.go:33-39 | in every reachable state, started failures plus running operations of a batch are at most failure_threshold + batch_size, and at most batch_size without continue_on_error |
| `Invariants.ClaimRadius` | internal/operations/worker.go:33-64 | a claim keeps the radius of every batch |
| `Runs.RollingOrder` | internal/operations/worker.go:35-38 | once an operation of a batch has started every lower wave is over; the running ones share one wave and number at most batch_size |
| `InFlight.WavesOverlapExactly` | internal/operations/worker.go:33-39 | when an operation of a batch is claimed, a claimer of a lower wave has yet to report if and only if recovery or a cancellation closed its row while it ran and it has not reported since |
| `InFlight.WorkerRadius` | internal/operations/worker.go:33-39 | in every reachable state the operations of a batch that started and failed or have an unreported claimer number exactly as many as the blast radius counts plus those cancelled under their worker, and the former are within the bound |
| `Waves.CancellationCanOverlapWaves` | internal/operations/engine.go:272-299 | a concrete run of a batch of two, a claim, a cancellation and a second claim that ends with two waves unreported at once |
| `InFlight.WavesInFlight` | internal/operations/worker.go:33-39 | of two unreported claimers of one batch in different waves, the lower one's row was timed out or cancelled |
| `InFlight.InFlightRows` | internal/operations/worker.go:46-116 | in every reachable state an unreported claimer's row is running, timed out or cancelled, and every running row has an unreported claimer |
| `InFlight.CutShortExactly` | internal/operations/worker.go:87-116 | the row of an unreported claimer stopped running if and only if a recovery or a cancellation closed it since |
| `Runs.ReadyBatchIsClosed` | internal/operations/engine.go:335-364 | a batch that is ready stays ready and has the same operations in every later state, under any replay |
| `Runs.NeverStranded` | internal/operations/worker.go:138 | in a ready batch with nothing running or awaiting approval, either recovery cancels all that is queued, or it leaves every row of the batch as it is and the queued operation of lowest index is eligible exactly when its resource is free |
| `Runs.RowsMoveForward` | internal/operations/worker.go:53-116 | through any run a row's request never changes, its rank only falls, and a row that is over never changes again |
| `Runs.FewChanges` | internal/operations/engine.go:260-288 | an operation changes state at most three times in any run |
| `Runs.ClaimedAtMostOnce` | internal/operations/worker.go:26-64 | no run claims an operation twice |
| `Runs.StartIsAuditedOnce` | internal/operations/worker.go:59-61 | in every reachable state the audit holds exactly one start for each started operation, by its worker, and none for others |
| `Protocol.StepKeeps` | internal/operations/worker.go:26-143 | every step keeps the whole invariant, moves rows only forward and lets nobody join a ready batch |
| `Machine.StepMeans` | internal/operations/worker.go:26-143 | every step does to the state exactly what its transaction does, told in rows and columns: the condition under which it takes effect, each column it changes, each audit entry, what it records, and nothing otherwise |
| `Runs.Reachable` | internal/operations/engine.go:114-366 | every reachable state satisfies the invariant |
| `History.ExecutionsAreAuthorized` | internal/operations/worker.go:220-285 | every adapter call in any history was for the request and the target (bastion included) captured at submission; in the world its gate saw the requester existed, acting with the scopes of their token, which was live, and the action was offered and permitted; if the rules there needed an approval, as they always do on production, an administrator or approver other than the requester had granted it, was entitled to, and still was |
| `Effects.GateMeans` | internal/operations/worker.go:220-276 | the gate opens if and only if the requester exists with a live token if one was used, environment and target are unchanged, the action is offered and permitted anew, and an approval that is needed was given by somebody who may still approve |
| `Effects.GateRefuses` | internal/operations/worker.go:220-276 | which error the gate gives for the first of these conditions that fails |
| `History.ExecutedAtMostOnce` | internal/operations/worker.go:191-346 | no operation reaches the adapter twice |
| `InFlight.CalledAfterClearing` | internal/operations/worker.go:220-285 | before every adapter call its worker passed the gate, in the world the call is recorded with, and renewed: then the row ran under a lease good for 45 seconds; by the call it no longer runs if and only if recovery or a cancellation struck in between |
| `History.ResubmissionIsIdempotent` | internal/operations/engine.go:141-184 | after a successful submission, made on its own or as an item of a batch, and any further steps, an admitted one under the same key, of either kind, changes no table; it returns the same operation for the same request and is refused for another |
| `History.OneOperationPerKey` | migrations/001_core.sql:39 | in every reachable state a requester's key names at most one operation |
| `History.ReplayExactly` | internal/operations/engine.go:348-366 | each step of a replay of a ready batch, under any interleaving: no row appears; rows change if and only if it is aborted with something pending; it turns to failing exactly at an item that is not admitted now or whose key was bound to another request |
| `History.BadReasonCancelsBatch` | internal/operations/engine.go:300-366 | a replay of a ready batch whose reason is too short or too long passes the checks and cancels all its pending operations |
| `Replay.ReplayCanCancel` | internal/operations/engine.go:300-366 | a concrete run that creates and publishes a batch, repeats the request with an empty reason, and ends with the queued operation of the ready batch cancelled |
| `Database.Queue.Claim` | internal/operations/worker.go:26-64 | claims the oldest unlocked row that may run (queued, resource free, batch ready, lower groups over, few enough failures), writing row, lease of 45 seconds and audit entry; or changes nothing because every row that may run is locked |
| `Database.Queue.Oldest` | internal/operations/worker.go:33-39 | the selected row may run, is unlocked and oldest; none is returned only if every row that may run is locked |
| `Effects.EligibleMeans` | internal/operations/worker.go:33-39 | the conditions of the claim query, with the groups and failures of the batch spelled out over its rows |
| `Database.Queue.Renew` | internal/operations/worker.go:65-86 | both tables are extended or neither is, with the source's two errors |
| `Database.Queue.Finish` | internal/operations/worker.go:87-109 | the row ends with the outcome, and that is recorded, only if it runs under this worker; the worker's lease goes for every outcome but timeout; nothing else changes |
| `Database.Queue.Recover` | internal/operations/worker.go:110-143 | exactly the running rows whose lease ran out time out and are recorded, keeping their leases; then exactly the waiting or queued rows of batches that have failed, timed out or rejected members (any at all without continue_on_error, or more than the threshold) are cancelled; every other row stays as it was |
| `Effects.RecoverMeans` | internal/operations/worker.go:110-143 | the same of the transaction itself |
| `Database.Queue.Execute` | internal/operations/worker.go:191-346 | the adapter is called exactly if the gate, the renewal and the resolution of parameters pass; one report follows, of the state the first error maps to |
| `Database.Queue.Submit` | internal/operations/engine.go:114-197 | one of five things: refused, with an audit entry exactly if it was the authorization that failed; the operation its key names, for the same request; refused for another; refused for a duplicate id; or a new row with the columns of the request, waiting for approval exactly if one is needed, and its audit entry. Keys stay unique and rows only go forward for any request, and the whole invariant holds unless the request names a batch it is not an item of |
| `Effects.AdmitMeans` | internal/operations/engine.go:114-167 | who is admitted, with each column of the operation, whether an approval is needed, and which refusals are recorded |
| `Effects.NotAdmittedBecause` | internal/operations/engine.go:114-167 | a refusal says the first thing that is wrong with the request |
| `Effects.BodyMeans` | internal/operations/engine.go:142-156 | what a key is bound to: resource, action, agent, mode and all parameters but the two secret references |
| `Effects.AuthorizeMeans` | internal/operations/engine.go:84-113 | authorized if and only if the resource is present, the adapter offers the action and can build it, and the rules permit it; with the approval the rules ask for |
| `Effects.TargetMeans` | internal/operations/target.go:11-37 | two targets have one identity if and only if they are reached alike: connection, coordinates and bastion |
| `Database.Queue.Approve` | internal/operations/engine.go:232-271 | decided if and only if the row waits and the caller may approve there, is somebody else, has MFA if required and gives a reason; an approval queues the row, a rejection rejects it with its end; both record who decided and which; nothing else changes; refusals come in the source's order |
| `Database.Queue.Cancel` | internal/operations/engine.go:272-299 | takes effect if and only if the row is not over and the caller is its requester or an administrator who may read there; the row ends as cancelled, which is recorded; nothing else changes |
| `Database.Queue.Batch` | internal/operations/engine.go:300-366 | goes ahead exactly for a request within its bounds, on distinct authorized resources, whose key names no other batch; success leaves the batch ready and returns, for every item, an operation under key:resource bound to the item's request, new ones with the columns of their submission; failure cancels exactly what waits or is queued in the batch; a replay of a ready batch adds no row, succeeds if and only if every item is admitted and bound to the same request, and changes no row if and only if it succeeds or nothing was pending |
| `Effects.BatchMeans` | internal/operations/engine.go:300-324 | the bounds, the resources and the key of a batch request that meets no objection |
| `Runs.ItemsOfReadyBatch` | internal/operations/engine.go:341-364 | in every reachable state each item of a ready batch has exactly one operation under its key, on its resource, and that operation belongs to the batch, at the item's index, if and only if it was submitted with some batch |
| `Adoption.ReadyBatchCanBeEmpty` | internal/operations/engine.go:341-364 | a concrete run in which an operation submitted on its own is taken for an item, and the batch is ready without a member |
| `Database.Queue.Reconcile` | internal/api/infrastructure.go:458-485 | goes through exactly for a caller with both permissions who confirmed and gave at least 10 bytes of evidence, and otherwise changes nothing; it releases only an expired lease, and then no operation on that resource is running |
| `Effects.FinalStateMeans` | internal/operations/worker.go:328-336 | success exactly without an error, rejected for a denial or a text that mentions permission, timeout for another ended context, failed otherwise |
| `Engine.NoObjectionMeans` | internal/operations/engine.go:304-321 | the resources of a batch meet no objection if and only if they are pairwise distinct and each exists, has its host and is authorized |
| `Policy.Contains` | internal/policy/policy.go:18-51 | the minute comparison decides membership in weekly intervals modulo 10080 minutes |
| `Policy.WindowMeans` | internal/policy/policy.go:18-51 | a window is open if and only if on one of its days, less than a week ago, the clock showed its start and has not shown its end since |
| `Policy.Evaluate` | internal/policy/policy.go:97-163 | the early-return loop computes the first objection in reading order, or the sum of all matching rules |
| `Policy.DecisionMeaning` | internal/policy/policy.go:97-163 | allowed if and only if permission, host, password, second factor and agent mode are in order, no rule that concerns the request denies it, lacks MFA or is outside its window, and automated agents have a rule that admits them; approval when allowed is asked for by production, by assisted agents or by some rule |
| `Policy.NotEntitledBecause` | internal/policy/policy.go:97-118 | the reason of a refusal before any rule is read, by the first condition that fails |
| `Policy.RefusedBecause` | internal/policy/policy.go:119-163 | the reason and the approval of a refusal by rules: those of the first rule that refuses and of the rules before it |
| `Rbac.AllowedMeans` | internal/rbac/rbac.go:28-43 | allowed if and only if the user is enabled, the environment is theirs, their role is granted the permission and their token has it in scope |
| `Rbac.PermissionMeans` | internal/rbac/rbac.go:44-66 | the permission an action needs, by the family of its provider |
| `Policy.OrderDoesNotMatter` | internal/policy/policy.go:119-156 | permission, and approval when allowed, are the same for every permutation of the rules |
| `Policy.RulesOnlyTighten` | internal/policy/policy.go:119-156 | inserting anywhere a rule without allow_agent loosens neither permission nor approval |
| `Stream.JsonStringField` | internal/agent/stream.go:68-125 | the index loops compute the field's reading |
| `Stream.PrefixMonotone` | internal/agent/stream.go:68-125 | the decoded value of a buffer is a prefix of that of any extension, and a complete one never changes |
| `Stream.JsonRoundTrip` | internal/agent/stream.go:68-124 | a whole document in which the quoted field name first occurs as the member's name decodes as complete, and to the value of section 7 of RFC 8259 if and only if it is written without \b, \f and surrogate pairs |
| `Stream.SpellingIsRead` | internal/agent/stream.go:107-114 | the four hexadecimal digits of a code unit, in either letter case, read back as that code unit |
| `Stream.BrokenEnds` | internal/agent/stream.go:97-113 | a text that breaks off, also inside an escape, or has digits that are none, decodes to what was whole before and is unfinished |
| `Stream.ReadsMemberExactly` | internal/agent/stream.go:71-87 | the decoder starts at the value of a given member if and only if the quoted name occurs nowhere before that member |
| `Stream.FirstOccurrenceDecides` | internal/agent/stream.go:71-87 | reading starts behind a quote if and only if the first occurrence of the quoted name is followed by a colon and that quote, with only blanks between |
| `Stream.NotAName` | internal/agent/stream.go:71-87 | if what follows the first occurrence is not a colon, nothing is decoded, whatever comes later |
| `Stream.EchoHidesField` | internal/agent/stream.go:71-87 | nothing is decoded of the field reply in a whole document in which an earlier value is "reply" |
| `Stream.HoldFrom` | internal/agent/stream.go:23-40 | returns the least position where a trigger occurs or the rest is an unfinished one, else the length |
| `Stream.HoldMeans` | internal/agent/stream.go:23-40 | the cut is the first position where a trigger occurs or the text breaks off inside one |
| `Stream.HoldMonotone` | internal/agent/stream.go:20-40 | the cut never moves left as text grows, and no extension completes a trigger before it |
| `Stream.FieldStream.Next` | internal/agent/stream.go:137-159 | the emitted text is exactly what the sent text grew by, and it never rewinds |
| `Stream.LosslessExactly` | internal/agent/stream.go:137-159 | once the field is complete and not empty, the emissions concatenate to its redacted value if and only if what was sent before is a prefix of it; for an empty field, if and only if it is all of it |
| `Stream.RedactedLossless` | internal/agent/stream.go:137-159 | if no earlier look showed anything but a prefix of the redacted value of the complete field, the emissions concatenate to exactly that value |
| `Stream.Lossless` | internal/agent/stream.go:137-159 | for any growing buffers ending in a complete field whose value redaction leaves alone at every look, the emissions concatenate to exactly the value |
| `Stream.SentExactly` | internal/agent/stream.go:137-159 | after every look exactly the whole characters before the first trigger have been sent, and all of the value once it is complete, when redaction leaves it alone |
| `Stream.RedactedHeldBack` | internal/agent/stream.go:134-149 | while the field is open and its redacted text at every look is a prefix of some text, what was sent is a prefix of that text and ends before its first trigger |
| `Stream.HeldBack` | internal/agent/stream.go:134-149 | while the field is open and redaction has left its value alone at every look, nothing at or after the first trigger of whatever it becomes has been sent |
| `Stream.IncrementsAreValid` | internal/agent/stream.go:143-149 | every increment is valid UTF-8, whatever redaction does, if the redacted final text is |
| `Utf8.TrimToValid` | internal/agent/stream.go:146-148 | trimming yields the longest valid prefix |
| `Utf8.ValidExactly` | internal/agent/stream.go:146-148 | text is valid if and only if it is what some sequence of scalar values is encoded as |
| `Utf8.EncodeRoundTrip` | internal/agent/stream.go:114 | the bytes written for a \u escape stand for its code point, or for the replacement character if that is half of a surrogate pair |
| `Shell.Render` | internal/executor/ssh.go:41-53 | succeeds exactly for allowed programs whose arguments have no NUL and at most 8192 bytes, with the source's errors, and the line reads back as the command |
| `Shell.RoundTrip` | internal/executor/ssh.go:40-53 | by the quoting rules of sections 2.2.2 and 2.2.3 of the POSIX.1-2017 Shell Command Language, a rendered line reads as the program and exactly its arguments |
| `Shell.RenderIsInjective` | internal/executor/ssh.go:40-53 | commands that render alike are the same |
| `RateLimiter.AuthLimits.RateLimit` | internal/store/store.go:306-310 | the upserted row and whether the call is admitted |
| `RateLimiter.CountsExactly` | internal/store/store.go:306-310 | for any calls whatever, the row of a call counts exactly the calls of its key in its window so far, and ends when the window its opener opened ends |
| `RateLimiter.OpensExactly` | internal/store/store.go:306-310 | a call opens a window, and is counted 1, if and only if it is its key's first or comes after the end of the window before |
| `RateLimiter.AdmittedExactly` | internal/store/store.go:306-310 | a call is admitted if and only if fewer calls of its key than its allowance precede it in its window |
| `RateLimiter.WindowBound` | internal/store/store.go:306-310 | a window admits at most max calls |
| `RateLimiter.Progress` | internal/store/store.go:306-310 | later calls of a key are numbered higher in the same window or belong to one that ends more than a window length later |
| `RateLimiter.SlidingBound` | internal/store/store.go:306-310 | any closed interval of one window length admits at most 2 * max - 1 calls, over any interleaving of keys |
| `RateLimiter.SlidingBoundIsReached` | internal/store/store.go:306-310 | for every allowance some call sequence reaches that bound |

## Left out

- Stream.HoldFrom: lower-casing is ASCII only; Unicode case mapping, which can change the length of text, is not modelled.
- Database.Queue.Execute: runs without interruption and without heartbeats, which are steps of the machine in `Protocol.dfy` and may come anywhere between its parts there; the gate reads one snapshot of the world instead of reading table by table, and the health polling after the call is part of the adapter's answer.
- Database.Queue.Reconcile: releasing the lease and recording it are one step here and two transactions in the source.
- The resolution of manifest secrets in parameters, and the adapters' command builders: what they answer is a parameter or a table of each adapter, not code.
- The advisory lock around batch creation is not used: the theorems hold for overlapping creations of one batch.
- The retry of a claim that loses the race for the lease's primary key: a claim that changes nothing.
- The text columns `result`, `error` and `reason`, their redaction and bounding, and the metadata and outbox rows written next to each audit row.
- Time zones and the parsing of window times: a window takes what each zone's clock shows, and times that parsed or did not.
- Redaction is an arbitrary function; its regular expressions are not modelled.
- Texts are sequences of Unicode characters measured in UTF-8 bytes; a Go string that is not valid UTF-8 is not modelled outside the stream decoder.
- Widths of integers: batch indices, counters and times are unbounded.
- HTTP handlers other than reconciliation, scheduling, discovery, SSH, provider clients, cryptography and the web front end.
