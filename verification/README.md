# Replication protocol: model and proofs

This project models the offline-first replication protocol of the repository in Dafny and proves
what it promises. Clients keep a confirmed prefix of a canonical log and an outbox of their own
operations. An authority judges proposals, appends what it accepts to the log, and remembers every
decision for ever. Between them is a network that may lose, repeat, delay and reorder anything.

`dafny verify dfyconfig.toml` checks everything.

## How the model is laid out

| module | what it models |
|---|---|
| `Protocol`, `Validators`, `Refusals` | the vocabulary of protocol v1, the validators of `src/invariants.ts` and `src/limits.ts`, and which error they raise |
| `LogServer`, `InMemoryServer`, `Snapshots` | the authority of `src/server.ts`: as a value, as the mutable object, and its snapshots |
| `AuthorityAnswers`, `PossibleResponses` | which requests the authority answers, and how; which responses any authority could send |
| `Replicas`, `MergeLaws`, `MergeOutcomes` | the reducers of `src/replica.ts`, and what holds of a merge whatever the response: when it succeeds and what it leaves |
| `Knowledge` | the central idea: an honest replica is determined by what its client knows, and a merge is a join |
| `DurableRecords`, `RecordLaws` | the durable record of `src/indexeddb`, and its operations on any record the validator accepts |
| `Clients`, `ClientSteps` | the events of one client |
| `ProtocolRuns`, `Guarantees`, `SingleWriter` | the step system with any number of clients, and what every run keeps |
| `OptimisticViews`, `ClientStatus` | what the view and the status of a client show in every reachable state |
| `Sessions` | the drain loop of `src/client/sync-session.ts` and its bound |
| `D1Tables`, `D1Authority`, `D1Runs`, `D1Calls`, `D1Alone`, `D1Retries` | the durable authority of `src/next/d1.ts` with the guard of `src/next/d1-correctness.ts` |
| `DurableRuns` | the step system of `ProtocolRuns` served by interleaved calls of the durable authority |
| `CanonicalJson`, `JsonText`, `JsonObjects`, `JsonParser` | the canonical text of `src/fingerprint.ts`, which text it is, and its parsing |
| `Wire`, `WireDecoding` | the envelopes of `src/wire.ts`: round trips, and which JSON is decoded |
| `Rows`, `RowLaws`, `RowTypes` | row operations, keys and replay of `src/client/row`, and which values are accepted and stored |

Three ideas carry the proofs.

*Knowledge.* What a client has learned is a cursor into the canonical log and a set of operations
whose decisions it has received. Given the proposals it has issued, that determines its confirmed
state, its retained log and its outbox. Merging an honest response takes the greater cursor and the
union of the decisions (`Knowledge.HonestMergeIsJoin`). Loss, repetition, delay and order cannot
matter to such a join, and no conflict that the code guards against can arise.

*Honest responses.* A response is honest if its page is the canonical slice after its base, its head
has been reached, and its decisions are the permanent ones within that head. Both authorities only
return honest responses. `ProtocolRuns` and `Guarantees` draw the consequences for clients of the
in-memory authority, `DurableRuns` for clients of any number of interleaved durable calls.

*Plans.* A call of the durable authority reads the stream, the decisions and the positions at
different moments. Its invariant (`D1Authority.Plan`) says what the in-memory server would decide on
every authority that the present one may become and on which the batch would still commit. The
guard on the head and the unique constraints say that the batch has met one of these.

## Modelling decisions

- `State`, `Intent`, `Operation` and `Rejection` are the application's own, and abstract. `decide`
  and `apply` are total and deterministic. In `ProtocolRuns` the replica applies operations as the
  authority does and compares them exactly (`Protocol.Lawful`); `RowLaws.OperationTextIsEquality`
  proves the latter of row operations.
- A thrown error is an `Error` value; fields of errors that only serve their message are dropped.
- Sequences are integers, and the limit of 2^53 - 1 is explicit. Runs stay within it: that is the
  one assumption besides fresh operation identities, known clients, batches and pages within the
  authority's limits, and compaction up to the cursor (`ProtocolRuns.Allowed`, `D1Runs.Fits`).
- Client positions are pairs; `CanonicalJson.PositionKeyIsInjective` justifies that.
- A JavaScript loop over arrays is a method proved equal to a function on values; the function is
  what the lemmas speak of. An update of the stored client record is one transaction.
- Each `await` on the database is a step of its own, with any steps of other calls in between. The
  tables of one stream are maps from their primary keys, with their other constraints spelled out.
  An update whose head is stale violates NOT NULL and aborts the batch. A batch may also fail
  because the database is locked. A batch that finds no stream row writes its decisions and then
  reports a conflict, as the code does; the proofs show that this does not happen.
- The codecs of the durable authority are taken to be exact, so that a stored value is the value.
- JSON strings are sequences of UTF-16 code units and JSON numbers are integers, printed in decimal.
  The text of a value is what `JSON.stringify` would print with sorted keys.
- `JSON.parse` is modelled as far as canonical text needs it: no white space, integer numbers.
- Rows and keys are lists of an object's fields, built by assignment as the code builds them. A schema
  is well formed if it passes the row schema check; its columns are an object's, so they differ.

## Findings

- The row schema check accepts schemas with nullable key columns, and primary keys that name a column
  twice. For either an operation can be accepted that cannot be applied.
  `RowLaws.AcceptedAppliesIffKeysAreSound` gives the exact condition over all schemas the check accepts,
  and `RowLaws.UnsoundKeyHasWitness` builds the operation otherwise. Schema discovery makes key columns
  that are not nullable.
- A call of the durable authority that finds an operation already accepted beyond the head it has
  read fails its own response check, with an error that is not retried, although the operation is
  safely decided. `D1Calls.RefusedExactlyBeyondHead` gives the exact condition and
  `D1Calls.AnAnswerCanBeRefused` an interleaving. A call that reads the newer head is
  answered.
- A restored snapshot is not checked for agreement of committed and decided operations, nor for a
  state that is the fold of its log. `Snapshots.RestoredIsCoherentExactly` says that these two are all
  that is missing; `Snapshots.AcceptedStateMayDiffer` and `Snapshots.AcceptedOperationsMayDiffer` are
  accepted snapshots without them.
- The response validator accepts some responses that no authority can send.
  `PossibleResponses.PossibleExactly` says which: those with two acceptances at one sequence, or with an
  acceptance at a sequence of the page that is not of the page's operation there.
  `PossibleResponses.AcceptedThoughImpossible` is one.
- The in-memory server checks its response before it publishes; the durable one checks after its
  commit. Both checks can fail on a fresh decision only when the log outgrows the safe integers
  (`LogServer.SelfCheckFailsOnlyOnOverflow`).

## Model

| member | source | states |
|---|---|---|
| ProtocolRuns.NoErrorIsRaised | src/replica.ts:236-380 | In every reachable state every step that the environment allows succeeds, whatever was lost, repeated, delayed or reordered before: no enqueue, send, handled copy of a request, merged copy of a response, compaction or acknowledgement raises an error |
| ProtocolRuns.StepIsSafe | src/replica.ts:133-380 | From any state that meets the invariant, an allowed step succeeds, keeps the invariant and undoes nothing: this is the induction step behind all runs |
| ProtocolRuns.RunsAreSafe | src/server.ts:154-206 | Every state of every run meets the invariant, every allowed next step succeeds, decisions stay permanent and histories only grow |
| ProtocolRuns.HandledRequest | src/server.ts:171-206 | Any copy of any request ever sent is decided without conflict, in order, and answered honestly |
| Guarantees.EveryRunIsSafe | src/replica.ts:302-340 | In every state of every run a replica's cursor, retained log and confirmed state are a prefix of the canonical log, the matching end of it, and its fold; the canonical log only grows, cursors never move back, and at the head the states are equal |
| Guarantees.DecidedIsGapFreePrefix | src/replica.ts:211-227 | The client sequences decided for a client are exactly the first n it allocated, and its entries stand in the canonical log in increasing client sequence |
| Guarantees.EverythingIsSomewhere | src/replica.ts:257-300 | Every allocated client sequence is in exactly one of pending, accepted in the outbox, confirmed, rejected; its outcome has been reported, once, exactly when it is not pending |
| Guarantees.ResolvedExactlyOnce | src/replica.ts:485-493 | Between any two moments of a run an operation is reported if and only if it leaves pending between them; reports are the permanent decisions and none is repeated |
| Guarantees.InboxIsDurable | src/indexeddb/store.ts:145-214 | A report stays in the durable inbox until it is acknowledged and never returns after that; in every reachable state the validator accepts the record |
| Guarantees.EveryDecisionIsJudged | src/server.ts:241-287 | In every reachable state whatever is decided was issued by some client under that identity, and the decision is what the interpreter says of it on the canonical state: just before its entry for an acceptance, after some prefix of the log for a rejection |
| OptimisticViews.ViewIsLogThenIntents | src/replica.ts:383-397 | In every reachable state with any number of writers: if the outbox is accepted entries at the n sequences after the cursor and then pending ones, the view is the canonical state after those entries with the pending intents applied on top in order; with nothing pending it is the authority's own state there |
| OptimisticViews.ViewIsBuiltUp | src/replica.ts:388-394 | In every reachable state, whatever the outbox holds: each accepted entry contributes the operation that the authority decided, each pending one its intent, in outbox order |
| ClientStatus.StatusCounts | src/indexeddb/record.ts:12-31 | In every reachable state confirmed is the cursor, pending the number of issued operations whose decision has not reached the client, awaiting the number it knows to be accepted beyond its cursor, unacknowledged the number reported and not acknowledged |
| SingleWriter.WriterOwnsTheLog | src/server.ts:258-287 | With one writer and nothing rejected the canonical log is, position by position, the decided prefix of what the writer issued |
| SingleWriter.ViewNeverFlickers | src/replica.ts:383-397 | With one writer, nothing rejected and faithful intents, the optimistic view equals the fold of everything enqueued, however much of it is confirmed |
| SingleWriter.MergeKeepsView | src/replica.ts:236-380 | Under the same conditions merging any response that was sent leaves the view exactly as it was |
| Knowledge.HonestMergeIsJoin | src/replica.ts:236-380 | Merging an honest response always succeeds and leaves exactly the replica of a client that knows, besides what it knew, what the response says: the greater cursor, the union of the decisions |
| Knowledge.ReconciliationRemovesNothing | src/replica.ts:342-366 | On honest responses the last pass of a merge never finds a stale receipt |
| Knowledge.DeliveryOrderIsIrrelevant | src/replica.ts:251-379 | Two honest responses merged in either order leave the same replica and the same set of newly resolved decisions |
| Knowledge.OnlyTheSetMatters | src/replica.ts:251-379 | Two sequences of honest responses with the same members leave the same replica |
| Guarantees.ArrivalOrderIsIrrelevant | src/replica.ts:251-379 | In every reachable state two responses sent to a client may arrive in either order: the same replica, the same newly resolved decisions |
| Guarantees.OnlyWhatArrivesMatters | src/replica.ts:251-379 | In every reachable state any responses sent to a client can be merged in any order and number, and the result depends only on their set |
| Guarantees.LastPassIsIdle | src/replica.ts:342-366 | In every reachable state the last pass of merging a response that was sent removes nothing |
| ProtocolRuns.CreatedIsJoined | src/replica.ts:115-131 | createReplicaState throws exactly on an empty identity or a bad sequence; otherwise it makes the replica that clients of the runs join with |
| MergeLaws.MergeIsIdempotent | src/replica.ts:236-380 | For any response, honest or not: after a successful merge, merging it again succeeds, leaves the state unchanged and resolves nothing |
| MergeLaws.CompactionIsInvisible | src/replica.ts:172-192 | For any response: compacting before a merge or after it gives the same replica, the same resolutions and the same cursor |
| MergeOutcomes.MergeSucceedsExactly | src/replica.ts:236-380 | For any replica with one outbox entry per operation and any response: merging succeeds if and only if the response is well formed, starts within the cursor and contradicts nothing the replica has; then the new cursor, log, state, outbox members, resolutions and caught-up flag are the ones described; what is refused for a contradiction is refused with the error that names it |
| RecordLaws.EnqueuedExactly | src/replica.ts:133-170 | Enqueuing succeeds if and only if identity, hash and sequences are in range and the operation is neither retained nor in the outbox; it appends the operation, pending, at the next client sequence and changes nothing else |
| RecordLaws.CompactedExactly | src/replica.ts:176-196 | Compacting succeeds if and only if the sequence is within the cursor; it drops exactly the retained entries up to it and changes nothing else |
| RecordLaws.PreparedExactly | src/replica.ts:198-234 | Preparing succeeds exactly within the ranges of the limits; the request starts at the cursor, asks for the given page size and carries the first pending proposals in outbox order, none skipped |
| Replicas.MergeSyncResponse | src/replica.ts:236-380 | The three loops over local arrays compute the merge of the value model, or throw its first error |
| Replicas.AbsorbDecisions | src/replica.ts:257-300 | The loop over decisions, splicing the outbox, is the fold of one decision after another, with the same first conflict |
| Replicas.AbsorbEntries | src/replica.ts:302-340 | The loop over entries extends the confirmed prefix entry by entry, or stops at the same gap or divergence |
| Replicas.SettleReceipts | src/replica.ts:342-366 | The loop that drops receipts already confirmed, with the same first error |
| Replicas.ResolveOutboxFromCommitted | src/replica.ts:453-498 | A committed entry takes its own operation out of the outbox and reports it if it was pending |
| Replicas.PrepareSyncRequest | src/replica.ts:198-234 | The loop takes the first pending proposals in outbox order, up to the limit |
| Replicas.AssertRetainedConfirmedLog | src/replica.ts:406-432 | Passes exactly on a retained log that is contiguous up to the cursor |
| Replicas.MaterializeOptimisticState | src/replica.ts:383-397 | The loop applies the outbox in order over the confirmed state; what that shows is OptimisticViews.ViewIsBuiltUp |
| Validators.AssertProposalBatch | src/invariants.ts:54-78 | The loop with a set and a map returns exactly the first failing check |
| Validators.BatchCheckIsValidBatch | src/invariants.ts:54-78 | The checks pass exactly on batches with valid distinct identities in increasing client sequence per client |
| Validators.AssertSyncRequest | src/invariants.ts:80-96 | The request validator returns exactly the first failing check, with limits or without |
| Validators.SyncRequestCheckIsValid | src/invariants.ts:80-96 | With limits or without, it passes exactly on requests with valid sequences and a valid batch, within the limits if there are any |
| Validators.RequestCheckIsValidRequest | src/invariants.ts:80-96 | It passes exactly on requests within the limits with a valid batch |
| Validators.AssertContiguousLog | src/invariants.ts:112-150 | The loop with a set and a map returns exactly the first failing check |
| Validators.LogCheckIsValidLog | src/invariants.ts:112-150 | The checks pass exactly on contiguous logs with distinct operations and client positions |
| Validators.AssertSyncResponse | src/invariants.ts:152-275 | The loops over entries and decisions return exactly the first failing check |
| Validators.ResponseCheckIsValidResponse | src/invariants.ts:152-275 | The checks pass exactly on responses whose page is contiguous and distinct and advances, and whose decisions agree with it and lie within the head |
| Refusals.BatchRefusedAtFirst | src/invariants.ts:54-78 | A refused batch is refused at its first offending proposal, with the error for what is wrong with it: an empty name, a sequence out of range, a repeated operation, or a client order that does not increase |
| Refusals.RequestRefusedAtFirst | src/invariants.ts:80-96 | A refused request is refused for its base, its page size, its length or its batch, in this order |
| Refusals.LogRefusedAtFirst | src/invariants.ts:112-150 | A refused log is refused at its first offending entry, with the error for what is wrong with it: bad fields, a gap, a repeated operation or a repeated client position |
| PossibleResponses.PossibleExactly | src/invariants.ts:152-275 | A response is honest for some authority if and only if the validator accepts it, no two of its acceptances stand at one sequence, and an acceptance at a sequence of the page is of the operation that the page has there |
| PossibleResponses.AcceptedThoughImpossible | src/invariants.ts:240-275 | A response with two operations accepted at one sequence, which the validator accepts and no authority can send |
| InMemoryServer.InMemoryLogServer.Synchronize | src/server.ts:154-206 | One request on the mutable server: staged on copies, then published whole; on any error nothing changes |
| InMemoryServer.InMemoryLogServer.ProcessProposal | src/server.ts:216-287 | A staged decision wins over a published one, which wins over a new judgement on the staged state |
| InMemoryServer.InMemoryLogServer.StageDecision | src/server.ts:289-300 | The staged maps gain the decision and the client position |
| LogServer.AnsweredIsReadBack | src/server.ts:144-152 | What getDecision reads: every proposal of an answered request, at any later time, as it was answered; and a request changes what is read of no other operation |
| InMemoryServer.InMemoryLogServer.TakeSnapshot | src/server.ts:208-214 | Lists every decision record once |
| InMemoryServer.InMemoryLogServer.RestoreFrom | src/server.ts:105-126 | Restoring fills the maps, validates both ways, and only then replaces the state |
| LogServer.SynchronizeKeepsSound | src/server.ts:154-206 | A handled request keeps log entries and accepted decisions in bijection, the position index functional and the state the fold of the log; it decides exactly its proposals and is answered honestly with the permanent decisions |
| LogServer.EveryRunIsSound | src/server.ts:154-206 | The same after any sequence of requests, and nothing decided before is lost |
| LogServer.SelfCheckFailsOnlyOnOverflow | src/server.ts:174-199 | The check that the server makes of its own response fails if and only if the log would outgrow the safe integers |
| LogServer.HonestIsValid | src/invariants.ts:152-275 | Every honest response passes the response validator |
| LogServer.RetryIsIdempotent | src/server.ts:216-239 | Repeating a request at once gets the same answer and changes nothing |
| LogServer.DecisionsArePermanent | src/server.ts:216-239 | Repeated after any later requests, at any base and page size, it is answered with the same decisions and changes nothing |
| AuthorityAnswers.AnsweredExactly | src/server.ts:154-287 | A request is answered if and only if it is valid, its base is on the log, and every proposal is either decided under the very same identity or new at a free position; the answer decides its proposals only and pages as far as request, limits and log allow; otherwise the error is that of the first failing condition and, in a batch, of the first offending proposal |
| Snapshots.RestoreAcceptsExactlyValid | src/server.ts:317-404 | The constructor accepts a snapshot if and only if its log is canonical, its records are well formed and distinct, and entries and accepted records match one to one |
| Snapshots.RestoredIndexesAreCoherent | src/server.ts:361-404 | Any accepted snapshot yields indexes in bijection with its log |
| Snapshots.RestoredIsCoherentExactly | src/server.ts:361-404 | An accepted snapshot gives a server that meets its whole invariant if and only if committed and decided operations agree and the state is the fold of the log |
| Snapshots.AcceptedStateMayDiffer | src/server.ts:361-404 | An accepted snapshot whose state is not the fold of its log |
| Snapshots.AcceptedOperationsMayDiffer | src/server.ts:361-404 | An accepted snapshot that committed one operation and decided another |
| Snapshots.SnapshotRoundTrip | src/server.ts:105-126 | Restoring a snapshot of a real server gives back that server, index for index |
| DurableRecords.AssertReplicaRecord | src/indexeddb/record.ts:52-319 | The loops accept exactly the records that meet the declarative predicate: contiguous suffix, distinct operations and positions across log and outbox, increasing outbox, receipts beyond the cursor, unique resolutions |
| DurableRecords.AppendUniqueResolutions | src/indexeddb/record.ts:33-50 | The loop appends what is not there yet, in order |
| ClientStatus.AppendedOnce | src/indexeddb/record.ts:33-50 | The existing decisions stay in place; added are, in the order of arrival, exactly the first received decision on each operation that had none; no operation is there twice |
| RecordLaws.StoreEnqueuesExactly | src/indexeddb/store.ts:119-135 | On any record the validator accepts, enqueuing fails only for a spent sequence, an empty string or a known operation, and leaves a record the validator accepts |
| RecordLaws.StoreCompactsExactly | src/indexeddb/store.ts:180-195 | On any accepted record, compaction succeeds exactly up to the cursor and leaves an accepted record with the same inbox |
| RecordLaws.StoreAcknowledgesExactly | src/indexeddb/store.ts:197-214 | On any accepted record, acknowledgement succeeds, removes exactly what was named and leaves the replica alone |
| RecordLaws.StoreMergesExactly | src/indexeddb/store.ts:145-178 | On any accepted record a merge is stored if and only if it succeeds and leaves a record the validator accepts: the merged replica with the new resolutions appended |
| RecordLaws.InvalidRecordIsRefused | src/indexeddb/store.ts:227-253 | No operation does anything with a record that the validator does not accept, or that is of another schema version than 1 or of another stream |
| RecordLaws.AcceptedRecordSendsValid | src/indexeddb/store.ts:137-143 | The request prepared from any accepted record passes the check of an authority with those limits and holds only proposals of the replica itself, at sequences it has given out |
| RecordLaws.IdleMergeKeeps | src/indexeddb/record.ts:52-319 | In any accepted record no operation is in the outbox twice or also in the log, and an answer that says nothing leaves the replica as it is |
| DurableRecords.StatusFromRecord | src/indexeddb/record.ts:12-31 | The loop counts pending and accepted entries; what these are is ClientStatus.StatusCounts |
| DurableRecords.ReplicaStore.UpdateRecord | src/indexeddb/store.ts:227-253 | Reads, validates, applies the update it is given, validates, writes and returns its result; an update that fails leaves the record as it was |
| DurableRecords.ReplicaStore.EnqueueOperation | src/indexeddb/store.ts:119-135 | One transaction: the proposal is stored, and returned at the client sequence it was given; or nothing changes |
| DurableRecords.ReplicaStore.PrepareSyncRequest | src/indexeddb/store.ts:137-143 | Reads a valid record and prepares the request |
| DurableRecords.ReplicaStore.MergeSyncResponse | src/indexeddb/store.ts:145-178 | The merged replica and the appended resolutions are written together and returned with the new status, or nothing changes |
| DurableRecords.ReplicaStore.DeleteCommittedLogPrefix | src/indexeddb/store.ts:180-195 | The compacted replica is written and the number of dropped entries returned, or nothing changes |
| DurableRecords.ReplicaStore.AcknowledgeResolutions | src/indexeddb/store.ts:197-214 | Exactly the named resolutions leave the inbox, and their number is returned |
| Clients.HonestRecordIsValid | src/indexeddb/record.ts:52-319 | The record of an honest client is always one the validator accepts |
| ClientSteps.EnqueueKeeps | src/indexeddb/store.ts:119-135 | A fresh enqueue succeeds and leaves an honest client with one more pending operation at the next client sequence |
| ClientSteps.SendIsHonest | src/indexeddb/store.ts:137-143 | The request holds the first open proposals; everything issued before one of them is decided or goes along |
| ClientSteps.DeliverKeeps | src/indexeddb/store.ts:145-178 | Merging any honest response succeeds; what it reports was never reported before and is appended whole |
| ClientSteps.CompactKeeps | src/indexeddb/store.ts:180-195 | Compaction up to the cursor succeeds and changes nothing the client knows |
| ClientSteps.AcknowledgeKeeps | src/indexeddb/store.ts:197-214 | Acknowledgement succeeds, whatever identities it names, and is remembered |
| Sessions.RunSyncSession | src/client/sync-session.ts:31-66 | The round loop over the mutable store and server, with the check of the envelope, is the session of the value model |
| Sessions.DrainIsBounded | src/client/sync-session.ts:38-66 | With no other writer a session with P pending proposals and lag D returns within max(1, ceil(P/p) + ceil((D+P)/e)) rounds, with an empty outbox and the authority's state; it fails only by running out of rounds |
| Sessions.ForeignAnswersAreNotMerged | src/client/sync-session.ts:68-88 | An answer that names another version or stream is never merged |
| D1Tables.D1Database.Batch | src/next/d1.ts:780-807 | Statements run in place; the first violated constraint rolls all of them back |
| D1Runs.CommitDecides | src/next/d1.ts:426-486 | A batch that commits decides exactly as the in-memory server does on the authority the tables hold at that moment |
| D1Runs.StepRefines | src/next/d1.ts:404-507 | Whatever access comes next, by whichever call, the tables go on standing for an authority: one in-memory step further if a batch committed, the same otherwise |
| D1Runs.RunRefines | src/next/d1.ts:248-290 | Every interleaving of any number of calls is matched by a run of the in-memory server with one step for each committing batch |
| D1Calls.CommitsExactlyWhenUndisturbed | src/next/d1-correctness.ts:187-211 | In every interleaving a drafted batch commits if and only if the head has not moved since it was read and no operation or client position of it has been decided meanwhile, be it by a rejection that left the head alone; otherwise the tables stay as they are and the call starts over at the next attempt, or ends in a commit conflict when none is left |
| D1Retries.LostCommitStartsOver | src/next/d1.ts:251-265 | In every reachable state a commit lost to another call or to a locked database changes no table and opens the same request at the next attempt while attempts are left; the last one ends in a commit conflict |
| D1Retries.GivesUpExactlyAfterLosses | src/next/d1.ts:251-265 | In every run a call has ended in a commit conflict if and only if it has lost one commit more than it may retry; it never loses more, and otherwise its attempt is the number of its losses |
| D1Retries.UndisturbedCallIsAnswered | src/next/d1.ts:404-507 | From any attempt on, a call that no other call disturbs has, after at most two accesses per proposal and four more, the in-memory server's answer or error on the authority that the tables held, and they hold what that server would leave |
| D1Calls.TablesKeepKeys | src/next/d1.ts:333-375 | In every reachable state each row stands under its primary key and no unique key is there twice |
| D1Tables.RefusedExactlyOnSharedKey | src/next/d1.ts:333-375 | An insert is refused exactly when it would write over a row or leave a unique key twice |
| D1Tables.BatchKeepsKeys | src/next/d1.ts:333-375 | A batch of any statements that commits leaves every key unique |
| D1Calls.EveryAnswerIsHonest | src/next/d1.ts:489-507 | Every response returned in any interleaving has the canonical slice after its base, the permanent decisions, and accepted sequences within its head; that of a committed call is the in-memory server's at the commit |
| D1Calls.AnswersMerge | src/next/d1.ts:489-507 | In every interleaving a replica that knows a prefix merges any returned response and learns from it exactly what it says |
| D1Calls.RefusedExactlyBeyondHead | src/next/d1.ts:506-507 | In every interleaving a call about to read its page is refused by its own check if and only if one of its decisions was accepted beyond the head it read first; a call that committed never is |
| D1Calls.AnAnswerCanBeRefused | src/next/d1.ts:426-432 | A run of two valid calls in which that happens although the operation is decided |
| D1Alone.SynchronizeOnce | src/next/d1.ts:404-507 | The loop that reads, drafts, collects statements and commits: with the database to itself it gives the in-memory server's answer or its error, and the tables hold what it leaves |
| DurableRuns.NoErrorIsRaised | src/replica.ts:236-380 | With clients, a network and any number of interleaved durable calls: in every reachable state every allowed step succeeds; no client step raises an error, whichever answers of whichever calls arrive when |
| DurableRuns.EveryCallEndsWell | src/next/d1.ts:566-637 | No durable call on a request that a client sent finds an identity, intent or position conflict or an unknown base: it is answered, gives up on a commit conflict, or is refused an answer beyond its head |
| DurableRuns.EveryRunIsSafe | src/next/d1.ts:404-507 | In every state of every such run each replica confirms a prefix of the log the tables hold, with its fold; rows stay and cursors never move back |
| DurableRuns.StepIsSafe | src/next/d1.ts:248-290 | The induction step: whatever step comes next, the system goes on standing for one with an authority in memory |
| DurableRuns.ClientOrderIsKept | src/next/d1.ts:404-507 | The decided client sequences are a gap-free prefix and the stored log keeps client order |
| DurableRuns.NothingIsLost | src/next/d1.ts:404-507 | Every allocated client sequence is in exactly one of pending, accepted in the outbox, confirmed, rejected |
| DurableRuns.SentRequestIsAnswerable | src/next/d1.ts:404-507 | In every reachable state the in-memory server would answer any copy of any sent request on the authority that the tables hold, honestly |
| DurableRuns.EveryDecisionIsJudged | src/next/d1.ts:426-472 | Each row of the decisions is what the interpreter said of an issued proposal on the canonical state |
| CanonicalJson.CanonicalTextIsEquality | src/fingerprint.ts:11-13 | Two values have the same canonical text if and only if they are equal as JSON values |
| CanonicalJson.PrintIsUnambiguous | src/fingerprint.ts:31-58 | The text of a value ends where it ends and stands for one value only, whatever follows it |
| CanonicalJson.QuoteIsUnambiguous | src/fingerprint.ts:43-44 | The same of quoted strings, with their escapes and lone surrogates |
| CanonicalJson.KeyOrderIsIrrelevant | src/fingerprint.ts:121-139 | Writing an object's keys in another order changes nothing |
| CanonicalJson.Canonicalize | src/fingerprint.ts:31-58 | The case split over kinds of values computes the canonical text; which text that is, JsonText.CanonicalTextIsSpelled says |
| CanonicalJson.CanonicalizeArray | src/fingerprint.ts:93-110 | The loop over items |
| CanonicalJson.CanonicalizeObject | src/fingerprint.ts:121-139 | The loop over the keys in code-unit order |
| CanonicalJson.PositionKeyIsInjective | src/invariants.ts:277-279 | The text of a client position stands for one position only |
| JsonText.CanonicalTextIsSpelled | src/fingerprint.ts:31-139 | The canonical text of a value is the spelling, in JSON's own words, escapes, digits and brackets, of an equal value whose keys ascend in every object |
| JsonText.PrintIsSpelled | src/fingerprint.ts:37-58 | The printer writes null, true, false, decimal numerals, quoted strings with the seven short escapes and the four-digit form, and brackets, braces, commas and colons around the parts |
| JsonText.NumeralIsDecimal | src/fingerprint.ts:45-49 | Numerals are decimal: the value of the digits is the number, without leading zeros |
| JsonText.LessIsBefore | src/fingerprint.ts:121-122 | Keys are ordered by the first differing code unit, and a proper prefix comes before its extensions |
| JsonText.PositionKeyIsSpelled | src/invariants.ts:277-279 | The text of a client position is the identity, NUL, and the sequence in decimal |
| JsonParser.CanonicalIsParsed | src/wire.ts:417-420 | Parsing canonical text gives the value back, with its keys in order |
| JsonParser.ToJsonValueIsIdempotent | src/wire.ts:417-420 | What has been printed and parsed is the same JSON value with the same text, and going again changes nothing |
| JsonObjects.Utf16RoundTrip | src/fingerprint.ts:43-44 | The UTF-16 units of a string spell that string |
| Wire.RequestRoundTrip | src/wire.ts:44-121 | A request envelope is encoded exactly when its version, stream and request are valid, and what was encoded is decoded to the same envelope, for codecs that round-trip |
| Wire.ResponseRoundTrip | src/wire.ts:123-254 | The same of response envelopes |
| WireDecoding.RequestIsDecodedExactly | src/wire.ts:74-121 | An envelope is decoded to a request exactly when it names version 1 and a stream, has that request's members and those of every proposal, and the request is valid within the limits |
| WireDecoding.ResponseIsDecodedExactly | src/wire.ts:182-254 | The same of responses, their entries and their decisions |
| Rows.NormalizeFullRowLoop | src/client/row/normalization.ts:117-150 | The loop over columns fills nullable gaps, refuses unknown, missing and ill-typed columns, and keeps column order; what that accepts is RowTypes.FullRowAcceptedExactly |
| Rows.NormalizePrimaryKeyLoop | src/client/row/normalization.ts:54-101 | The loop over key columns takes exactly the key columns, none null; what that accepts is RowTypes.KeyAcceptedExactly |
| RowTypes.FullRowAcceptedExactly | src/client/row/normalization.ts:117-202 | An object is accepted as a full row if and only if it has no unknown column, nothing missing or null outside nullable columns, numbers under integer and real columns, strings under text, lists of integers from 0 to 255 under blob, and numbers or strings under numeric; stored is each given value, and null for a missing one |
| RowTypes.KeyAcceptedExactly | src/client/row/normalization.ts:54-101 | An object is accepted as a key if and only if its fields are the key columns, each once, with values of their columns' types and none null; kept is each given value in the order of the key |
| RowTypes.OperationAcceptedExactly | src/client/row/normalization.ts:14-51 | A value is accepted as an operation if and only if it is an object that names a known table and the type putRow with a row, or deleteRow with a key, of that table |
| RowTypes.StoredRowsAreTyped | src/client/row/state.ts:15-39 | Every row that any replay stores has the columns of its table in order, each with a value of its type |
| RowTypes.AppliesExactly | src/client/row/state.ts:15-39 | A value can be applied to a state if and only if the state is of the schema, the value describes an operation, and a row to put gives every key column a value in a key that names no column twice |
| RowTypes.KeyTextIsList | src/client/row/keys.ts:42-52 | A key is filed under the JSON text of the list of its values in the order of the table's key |
| Rows.KeyFromRowLoop | src/client/row/keys.ts:14-32 | The loop copies the key columns out of a row into an object, where a repeated name leaves one field |
| Rows.ApplyRowOperation | src/client/row/state.ts:15-39 | Works on a fresh copy of one table; the state it returns differs in the one row that the operation names, which a put has filed and a delete has left empty |
| RowLaws.NormalizeIsIdempotent | src/client/row/normalization.ts:14-51 | What has been normalised, from any JSON value, is its own normal form |
| RowLaws.KeyTextIsKeyEquality | src/client/row/keys.ts:42-52 | Two keys have the same text if and only if they agree on every key column |
| RowLaws.OperationTextIsEquality | src/client/row/interpreters.ts:23-24 | Text equality of normalised operations is equality of operations |
| RowLaws.ApplySucceedsExactlyOnSoundKeys | src/client/row/interpreters.ts:50-65 | An accepted operation can be applied exactly when it is a delete, or puts no null under a key column of a primary key that names no column twice |
| RowLaws.AcceptedAppliesIffKeysAreSound | src/client/row/schema.ts:34-63 | For every schema that passes the row schema check: everything accepted for a table can be applied if and only if its key columns may not be null and its primary key names no column twice |
| RowLaws.UnsoundKeyHasWitness | src/client/row/keys.ts:14-52 | Otherwise the row that is null wherever it may be is accepted and cannot be applied |
| RowLaws.ReplayIsLastWrite | src/client/row/state.ts:15-39 | A replay leaves under each key the row of the last put that no delete followed, and every stored row is filed under its own key |

## Left out

- SQL text, statement binding and the rewriting of the stream update by regular expression: the guarded update is taken to abort on a stale head.
- IndexedDB requests and transactions, HTTP routes, fetch transports, byte limits and the mapping of errors to status codes.
- React hooks, the service worker, the replica view, client lifecycle, retry delays and promise queues.
- Schema discovery and its SQLite type affinity, code generation, configuration, the command line, and bootstrap paging.
- SHA-256: the intent hash is an opaque string; the canonical text it is taken of is modelled.
- Projection of accepted operations into application tables, and the error class for its constraint failures.
- The schema hash of the stream row in D1, and several streams in one set of tables: one stream of one deployment is modelled.
- Strings with lone surrogates as identities in the envelopes: strings of the protocol model hold whole characters, and decoding such text fails in the model.
- Cyclic and sparse values, accessors, symbol keys, class instances, non-finite and fractional numbers in canonical JSON: values are finite trees with integer numbers.
- Rows sorted by locale, and integer-like or inherited property names of JavaScript objects.
- The messages and labels of errors, and in rows which of several errors is thrown.
- An instant at which a read-only answer of the durable authority was the in-memory answer: its head may be older than a rejection read later, so only its honesty is stated.
