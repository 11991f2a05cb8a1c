/** What the client's own operations do, for any record that the validator accepts and not only for
    those of honest runs (src/replica.ts:71-234, src/indexeddb/store.ts:52-254): exactly when each
    succeeds, what it leaves, and that it leaves a record the validator accepts. */
module RecordLaws {
  import opened Protocol
  import opened Validators
  import opened Replicas
  import opened MergeLaws
  import opened DurableRecords

  /* ---- Enqueue ---- */

  /** The operation is neither retained nor in the outbox. */
  ghost predicate IsFresh(r: Replica, id: string) {
    && (forall i | 0 <= i < |r.confirmedLog| :: r.confirmedLog[i].operationId != id)
    && (forall i | 0 <= i < |r.outbox| :: r.outbox[i].proposal.operationId != id)
  }

  lemma FreshIsNew(r: Replica, id: string)
    ensures IsFresh(r, id) <==> id !in EntryIds(r.confirmedLog) && id !in OutboxIds(r.outbox)
  {
    if IsFresh(r, id) {
      forall e | e in r.confirmedLog ensures e.operationId != id {
        var i :| 0 <= i < |r.confirmedLog| && r.confirmedLog[i] == e;
      }
      forall x | x in r.outbox ensures x.proposal.operationId != id {
        var i :| 0 <= i < |r.outbox| && r.outbox[i] == x;
      }
    }
    if id !in EntryIds(r.confirmedLog) && id !in OutboxIds(r.outbox) {
      assert forall i | 0 <= i < |r.confirmedLog| :: r.confirmedLog[i] in r.confirmedLog;
      assert forall i | 0 <= i < |r.outbox| :: r.outbox[i] in r.outbox;
    }
  }

  /** Enqueuing succeeds exactly on a fresh operation with room for another sequence; the operation
      goes to the end of the outbox, pending, at the next client sequence. */
  lemma EnqueuedExactly(r: Replica, id: string, intentHash: string, intent: Intent)
    ensures Enqueue(r, id, intentHash, intent).Ok? <==>
      && r.clientId != "" && 1 <= r.nextClientSequence < MAX_SAFE && ValidRetained(r)
      && id != "" && intentHash != "" && IsFresh(r, id)
    ensures Enqueue(r, id, intentHash, intent).Ok? ==>
      var next := Enqueue(r, id, intentHash, intent).value;
      && next.clientId == r.clientId && next.nextClientSequence == r.nextClientSequence + 1
      && next.confirmedSequence == r.confirmedSequence && next.confirmedState == r.confirmedState
      && next.confirmedLog == r.confirmedLog
      && |next.outbox| == |r.outbox| + 1 && next.outbox[..|r.outbox|] == r.outbox
      && next.outbox[|r.outbox|] == PendingEntry(Proposal(id, r.clientId, r.nextClientSequence, intentHash, intent))
    ensures (&& r.clientId != "" && 1 <= r.nextClientSequence < MAX_SAFE && ValidRetained(r)
             && id != "" && intentHash != "" && !IsFresh(r, id)) ==>
      Enqueue(r, id, intentHash, intent) == Err(DuplicateOperationId(id))
  {
    FreshIsNew(r, id);
    hide ValidRetained, EntryIds, OutboxIds, IsFresh, RetainedCheck;
    RetainedCheckMeans(r);
  }

  lemma RetainedCheckMeans(r: Replica)
    ensures RetainedCheck(r).Pass? <==> ValidRetained(r)
  {
  }

  lemma RecordParts(record: Record, streamId: string)
    requires ValidRecord(record, streamId)
    ensures var r := record.replica;
      && ValidHeader(r) && ValidConfirmed(r, |r.confirmedLog|) && ValidOutbox(r, |r.outbox|)
      && ValidResolutions(record.resolutions)
  {
    hide ValidHeader, ValidConfirmed, ValidOutbox, ValidResolutions;
  }

  lemma RecordIsRetained(r: Replica)
    requires ValidHeader(r) && ValidConfirmed(r, |r.confirmedLog|)
    ensures ValidRetained(r) && r.clientId != "" && 1 <= r.nextClientSequence <= MAX_SAFE
  {
    forall i | 0 <= i < |r.confirmedLog| ensures r.confirmedLog[i].sequence == RetainedBase(r) + i + 1 {
      assert ValidConfirmedEntry(r, i);
    }
  }

  /** In the store, enqueuing fails for no other reason, and the new record is accepted again. */
  lemma StoreEnqueuesExactly(record: Record, streamId: string, id: string, intentHash: string, intent: Intent)
    requires ValidRecord(record, streamId)
    ensures StoreEnqueue(record, streamId, id, intentHash, intent).Ok? <==>
      record.replica.nextClientSequence < MAX_SAFE && id != "" && intentHash != "" && IsFresh(record.replica, id)
    ensures StoreEnqueue(record, streamId, id, intentHash, intent).Ok? ==>
      var after := StoreEnqueue(record, streamId, id, intentHash, intent).value;
      && ValidRecord(after, streamId) && after.resolutions == record.resolutions
      && Enqueue(record.replica, id, intentHash, intent) == Ok(after.replica)
  {
    hide *;
    RecordParts(record, streamId);
    RecordIsRetained(record.replica);
    EnqueuedExactly(record.replica, id, intentHash, intent);
    if Enqueue(record.replica, id, intentHash, intent).Ok? {
      EnqueuedIsValid(record, streamId, id, intentHash, intent);
    }
    StoreEnqueueMeans(record, streamId, id, intentHash, intent);
  }

  lemma StoreEnqueueMeans(record: Record, streamId: string, id: string, intentHash: string, intent: Intent)
    requires ValidRecord(record, streamId)
    ensures match Enqueue(record.replica, id, intentHash, intent)
      case Err(error) => StoreEnqueue(record, streamId, id, intentHash, intent) == Err(error)
      case Ok(next) =>
        ValidRecord(record.(replica := next), streamId) ==>
          StoreEnqueue(record, streamId, id, intentHash, intent) == Ok(record.(replica := next))
  {
    hide ValidRecord, Enqueue;
  }

  lemma EnqueuedIsValid(record: Record, streamId: string, id: string, intentHash: string, intent: Intent)
    requires ValidRecord(record, streamId) && Enqueue(record.replica, id, intentHash, intent).Ok?
    ensures ValidRecord(record.(replica := Enqueue(record.replica, id, intentHash, intent).value), streamId)
  {
    hide *;
    var r, next := record.replica, Enqueue(record.replica, id, intentHash, intent).value;
    RecordParts(record, streamId);
    EnqueuedExactly(r, id, intentHash, intent);
    NewProposalIsValid(id, r, intentHash, intent);
    ConfirmedGoesOn(r, next);
    var p := Proposal(id, r.clientId, r.nextClientSequence, intentHash, intent);
    OutboxGoesOn(r, next, p);
    RecordAgain(record, streamId, next);
  }

  lemma ConfirmedGoesOn(r: Replica, next: Replica)
    requires ValidHeader(r) && ValidConfirmed(r, |r.confirmedLog|) && r.nextClientSequence < MAX_SAFE
    requires next.clientId == r.clientId && next.nextClientSequence == r.nextClientSequence + 1
    requires next.confirmedSequence == r.confirmedSequence && next.confirmedLog == r.confirmedLog
    ensures ValidHeader(next) && ValidConfirmed(next, |next.confirmedLog|)
  {
    hide ValidEntry, DistinctEntries;
    forall i | 0 <= i < |next.confirmedLog| ensures ValidConfirmedEntry(next, i) {
      assert ValidConfirmedEntry(r, i);
    }
  }

  lemma OutboxGoesOn(r: Replica, next: Replica, p: Proposal)
    requires ValidOutbox(r, |r.outbox|) && ValidConfirmed(r, |r.confirmedLog|) && IsFresh(r, p.operationId)
    requires ValidIdentity(p.operationId, p.clientId, p.clientSequence, p.intentHash)
    requires p.clientId == r.clientId && p.clientSequence == r.nextClientSequence
    requires next.clientId == r.clientId && next.nextClientSequence == r.nextClientSequence + 1
    requires next.confirmedSequence == r.confirmedSequence && next.confirmedLog == r.confirmedLog
    requires |next.outbox| == |r.outbox| + 1 && next.outbox[..|r.outbox|] == r.outbox
    requires next.outbox[|r.outbox|] == PendingEntry(p)
    ensures ValidOutbox(next, |next.outbox|)
  {
    hide ValidIdentity, ValidEntry, DistinctEntries;
    assert forall i | 0 <= i < |r.outbox| :: next.outbox[i] == next.outbox[..|r.outbox|][i] == r.outbox[i];
    forall i | 0 <= i < |next.outbox| ensures ValidOutboxEntry(next, next.outbox[i]) {
      if i < |r.outbox| {
        assert ValidOutboxEntry(r, r.outbox[i]);
      }
    }
    forall j | 0 <= j < |r.confirmedLog| ensures (p.clientId, p.clientSequence) != PositionOf(r.confirmedLog[j]) {
      assert ValidConfirmedEntry(r, j);
    }
    forall i | 0 <= i < |r.outbox| ensures r.outbox[i].proposal.clientSequence < p.clientSequence {
      assert ValidOutboxEntry(r, r.outbox[i]);
    }
    hide ValidOutboxEntry, PositionOf;
  }

  lemma RecordAgain(record: Record, streamId: string, next: Replica)
    requires ValidRecord(record, streamId)
    requires ValidHeader(next) && ValidConfirmed(next, |next.confirmedLog|) && ValidOutbox(next, |next.outbox|)
    ensures ValidRecord(record.(replica := next), streamId)
  {
    hide ValidHeader, ValidConfirmed, ValidOutbox, ValidResolutions;
  }

  lemma NewProposalIsValid(id: string, r: Replica, intentHash: string, intent: Intent)
    requires Enqueue(r, id, intentHash, intent).Ok?
    ensures ValidIdentity(id, r.clientId, r.nextClientSequence, intentHash)
  {
    hide RetainedCheck;
  }

  /* ---- Compact ---- */

  /** Compacting succeeds exactly up to the cursor; it drops the retained entries up to there and
      changes nothing else. */
  lemma CompactedExactly(r: Replica, through: int)
    ensures Compact(r, through).Ok? <==> 0 <= through <= r.confirmedSequence && ValidRetained(r)
    ensures Compact(r, through).Ok? ==>
      var next := Compact(r, through).value;
      && next == r.(confirmedLog := next.confirmedLog)
      && RetainedBase(next) == Max(RetainedBase(r), through)
      && ValidRetained(next)
      && (forall e :: e in next.confirmedLog <==> e in r.confirmedLog && e.sequence > through)
  {
    RetainedCheckMeans(r);
    hide RetainedCheck;
    if Compact(r, through).Ok? {
      var next := Compact(r, through).value;
      forall e | e in r.confirmedLog && e.sequence > through ensures e in next.confirmedLog {
        var i :| 0 <= i < |r.confirmedLog| && r.confirmedLog[i] == e;
        var dropped := |r.confirmedLog| - |next.confirmedLog|;
        assert next.confirmedLog[i - dropped] == e;
      }
    }
  }

  lemma CompactedIsValid(record: Record, streamId: string, through: int)
    requires ValidRecord(record, streamId) && Compact(record.replica, through).Ok?
    ensures ValidRecord(record.(replica := Compact(record.replica, through).value), streamId)
  {
    hide *;
    var r, next := record.replica, Compact(record.replica, through).value;
    RecordParts(record, streamId);
    CompactIsSuffix(r, through);
    ShorterIsConfirmed(r, next);
    OutboxStaysValid(r, next);
    RecordAgain(record, streamId, next);
  }

  /** The replica with only the end of its retained log. */
  ghost predicate IsShortened(r: Replica, next: Replica) {
    && next == r.(confirmedLog := next.confirmedLog) && |next.confirmedLog| <= |r.confirmedLog|
    && forall i | 0 <= i < |next.confirmedLog| ::
         next.confirmedLog[i] == r.confirmedLog[|r.confirmedLog| - |next.confirmedLog| + i]
  }

  lemma ShorterIsConfirmed(r: Replica, next: Replica)
    requires ValidHeader(r) && ValidConfirmed(r, |r.confirmedLog|) && IsShortened(r, next)
    ensures ValidHeader(next) && ValidConfirmed(next, |next.confirmedLog|)
  {
    hide ValidEntry, PositionOf;
    var dropped := |r.confirmedLog| - |next.confirmedLog|;
    assert r.confirmedLog[..|r.confirmedLog|] == r.confirmedLog && next.confirmedLog[..|next.confirmedLog|] == next.confirmedLog;
    forall i | 0 <= i < |next.confirmedLog| ensures ValidConfirmedEntry(next, i) {
      assert ValidConfirmedEntry(r, dropped + i);
    }
    hide ValidConfirmedEntry;
  }

  lemma OutboxStaysValid(r: Replica, next: Replica)
    requires ValidOutbox(r, |r.outbox|) && IsShortened(r, next)
    ensures ValidOutbox(next, |next.outbox|)
  {
    hide ValidIdentity, PositionOf;
    forall i | 0 <= i < |r.outbox| ensures ValidOutboxEntry(next, next.outbox[i]) {
      assert ValidOutboxEntry(r, r.outbox[i]);
    }
    hide ValidOutboxEntry;
  }

  lemma CompactIsSuffix(r: Replica, through: int)
    requires Compact(r, through).Ok?
    ensures IsShortened(r, Compact(r, through).value)
  {
    var from := DroppedBy(r, through);
    hide *;
    SuffixIsShortened(r, from);
  }

  lemma DroppedBy(r: Replica, through: int) returns (from: nat)
    requires Compact(r, through).Ok?
    ensures from <= |r.confirmedLog| && Compact(r, through).value == r.(confirmedLog := r.confirmedLog[from..])
  {
    hide RetainedCheck;
    from := Max(0, through - RetainedBase(r));
    assert r.confirmedLog[0..] == r.confirmedLog;
  }

  lemma SuffixIsShortened(r: Replica, from: nat)
    requires from <= |r.confirmedLog|
    ensures IsShortened(r, r.(confirmedLog := r.confirmedLog[from..]))
  {
  }

  lemma StoreCompactsExactly(record: Record, streamId: string, through: int)
    requires ValidRecord(record, streamId)
    ensures StoreCompact(record, streamId, through).Ok? <==> 0 <= through <= record.replica.confirmedSequence
    ensures StoreCompact(record, streamId, through).Ok? ==>
      var after := StoreCompact(record, streamId, through).value;
      && ValidRecord(after, streamId) && after.resolutions == record.resolutions
      && Compact(record.replica, through) == Ok(after.replica)
  {
    hide *;
    RecordParts(record, streamId);
    RecordIsRetained(record.replica);
    CompactedExactly(record.replica, through);
    if Compact(record.replica, through).Ok? {
      CompactedIsValid(record, streamId, through);
    }
    StoreCompactMeans(record, streamId, through);
  }

  lemma StoreCompactMeans(record: Record, streamId: string, through: int)
    requires ValidRecord(record, streamId)
    ensures match Compact(record.replica, through)
      case Err(error) => StoreCompact(record, streamId, through) == Err(error)
      case Ok(next) =>
        ValidRecord(record.(replica := next), streamId) ==>
          StoreCompact(record, streamId, through) == Ok(record.(replica := next))
  {
    hide ValidRecord, Compact;
  }

  /* ---- Acknowledge ---- */

  /** Acknowledging always succeeds on an accepted record; of the inbox what was named goes, and the
      rest of the record stays. */
  lemma StoreAcknowledgesExactly(record: Record, streamId: string, ids: set<string>)
    requires ValidRecord(record, streamId)
    ensures StoreAcknowledge(record, streamId, ids).Ok?
    ensures var after := StoreAcknowledge(record, streamId, ids).value;
      && ValidRecord(after, streamId) && after.replica == record.replica
      && (forall d :: d in after.resolutions <==> d in record.resolutions && d.operationId !in ids)
  {
    hide ValidHeader, ValidConfirmed, ValidOutbox, Unacknowledged;
    UnacknowledgedMembers(record.resolutions, ids);
    forall i | 0 <= i < |Unacknowledged(record.resolutions, ids)|
      ensures Unacknowledged(record.resolutions, ids)[i] in record.resolutions
    {
      assert Unacknowledged(record.resolutions, ids)[i] in Unacknowledged(record.resolutions, ids);
    }
  }

  /* ---- Prepare ---- */

  /** The positions in increasing order of the first pending entries, no more than maximum: either
      all of them, or as many as allowed with none skipped. */
  ghost predicate FirstPending(outbox: seq<OutboxEntry>, maximum: int, at: seq<nat>) {
    && |at| <= Max(0, maximum)
    && (forall k | 0 <= k < |at| :: at[k] < |outbox| && outbox[at[k]].PendingEntry?)
    && (forall k, l | 0 <= k < l < |at| :: at[k] < at[l])
    && (forall i | 0 <= i < |outbox| && outbox[i].PendingEntry? && i !in at ::
          |at| == maximum && forall k | 0 <= k < |at| :: at[k] < i)
  }

  /** These are the positions of the pending entries, in order. */
  ghost predicate ArePending(outbox: seq<OutboxEntry>, at: seq<nat>) {
    && |at| == |Pendings(outbox)|
    && (forall k | 0 <= k < |at| :: at[k] < |outbox| && outbox[at[k]] == PendingEntry(Pendings(outbox)[k]))
    && (forall k, l | 0 <= k < l < |at| :: at[k] < at[l])
    && (forall i: nat | i < |outbox| && outbox[i].PendingEntry? :: i in at)
  }

  lemma {:induction false} PendingPositions(outbox: seq<OutboxEntry>) returns (at: seq<nat>)
    ensures ArePending(outbox, at)
  {
    if outbox == [] {
      at := [];
    } else {
      var init, last := outbox[..|outbox| - 1], outbox[|outbox| - 1];
      assert outbox == init + [last];
      at := PendingPositions(init);
      hide Pendings;
      PendingsOneMore(init, last);
      if last.PendingEntry? {
        OneMorePosition(init, last, at);
        at := at + [|init|];
      }
    }
  }

  lemma PendingsOneMore(init: seq<OutboxEntry>, last: OutboxEntry)
    ensures Pendings(init + [last]) == Pendings(init) + (if last.PendingEntry? then [last.proposal] else [])
  {
    assert (init + [last])[..|init|] == init;
  }

  lemma OneMorePosition(init: seq<OutboxEntry>, last: OutboxEntry, at: seq<nat>)
    requires ArePending(init, at) && last.PendingEntry?
    ensures ArePending(init + [last], at + [|init|])
  {
    PendingsOneMore(init, last);
    hide Pendings;
    var outbox, more := init + [last], at + [|init|];
    assert forall k | 0 <= k < |at| :: more[k] == at[k];
    assert more[|at|] == |init|;
    assert forall i | i in at :: i in more;
  }

  /** Preparing a request succeeds exactly within the limits' ranges; the request starts at the cursor,
      asks for the page size given, and carries the first pending proposals in outbox order. */
  lemma PreparedExactly(r: Replica, maximumProposals: int, maximumEntries: int) returns (at: seq<nat>)
    ensures Prepare(r, maximumProposals, maximumEntries).Ok? <==>
      0 <= maximumProposals <= MAX_SAFE && 1 <= maximumEntries <= MAX_SAFE && ValidRetained(r)
    ensures Prepare(r, maximumProposals, maximumEntries).Ok? ==>
      var request := Prepare(r, maximumProposals, maximumEntries).value;
      && request.baseSequence == r.confirmedSequence && request.maximumEntries == maximumEntries
      && FirstPending(r.outbox, maximumProposals, at)
      && |request.proposals| == |at|
      && forall k | 0 <= k < |at| :: request.proposals[k] == r.outbox[at[k]].proposal
  {
    var all := PendingPositions(r.outbox);
    RetainedCheckMeans(r);
    hide RetainedCheck, Pendings, ValidRetained;
    at := if 0 <= maximumProposals < |all| then all[..maximumProposals] else all;
    if Prepare(r, maximumProposals, maximumEntries).Ok? {
      forall i | 0 <= i < |r.outbox| && r.outbox[i].PendingEntry? && i !in at
        ensures |at| == maximumProposals && forall k | 0 <= k < |at| :: at[k] < i
      {
        var l :| 0 <= l < |all| && all[l] == i;
        assert forall k | 0 <= k < |at| :: at[k] == all[k] && at[k] in at;
      }
    }
  }

  /** The request of an accepted record passes the authority's check, and holds only proposals of the
      replica itself, at client sequences it has given out. */
  lemma AcceptedRecordSendsValid(record: Record, streamId: string, maximumProposals: int, maximumEntries: int, limits: Limits)
    requires ValidRecord(record, streamId)
    requires 0 <= maximumProposals <= limits.maximumProposals <= MAX_SAFE && 1 <= maximumEntries <= MAX_SAFE
    ensures StorePrepare(record, streamId, maximumProposals, maximumEntries).Ok?
    ensures ValidRequest(StorePrepare(record, streamId, maximumProposals, maximumEntries).value, limits)
    ensures forall p | p in StorePrepare(record, streamId, maximumProposals, maximumEntries).value.proposals ::
      p.clientId == record.replica.clientId && p.clientSequence < record.replica.nextClientSequence
  {
    var r := record.replica;
    RecordParts(record, streamId);
    RecordIsRetained(r);
    var at := PreparedExactly(r, maximumProposals, maximumEntries);
    var request := Prepare(r, maximumProposals, maximumEntries).value;
    hide Prepare, ValidHeader, ValidConfirmed, ValidIdentity, ValidRetained;
    BatchFromOutbox(r, at, request.proposals);
    HeaderIsSequence(r);
    PreparedFromStore(record, streamId, maximumProposals, maximumEntries);
  }

  lemma HeaderIsSequence(r: Replica)
    requires ValidHeader(r)
    ensures IsLogSequence(r.confirmedSequence, true)
  {
  }

  lemma PreparedFromStore(record: Record, streamId: string, maximumProposals: int, maximumEntries: int)
    requires ValidRecord(record, streamId)
    ensures StorePrepare(record, streamId, maximumProposals, maximumEntries)
         == Prepare(record.replica, maximumProposals, maximumEntries)
  {
    hide ValidRecord, Prepare;
  }

  lemma BatchFromOutbox(r: Replica, at: seq<nat>, ps: seq<Proposal>)
    requires ValidOutbox(r, |r.outbox|) && |ps| == |at|
    requires forall k | 0 <= k < |at| :: at[k] < |r.outbox| && ps[k] == r.outbox[at[k]].proposal
    requires forall k, l | 0 <= k < l < |at| :: at[k] < at[l]
    ensures ValidBatch(ps)
    ensures forall p | p in ps :: p.clientId == r.clientId && p.clientSequence < r.nextClientSequence
  {
    hide ValidIdentity;
    assert forall k | 0 <= k < |at| :: ValidOutboxEntry(r, r.outbox[at[k]]);
  }

  /* ---- Merging nothing new ---- */

  /** An answer that says nothing leaves an accepted record's replica as it is: no operation is there
      twice, and what is known to be accepted lies beyond the cursor. */
  lemma IdleMergeKeeps(record: Record, streamId: string, interpreter: ReplicaInterpreter)
    requires ValidRecord(record, streamId)
    ensures DistinctOutbox(record.replica.outbox) && Disjoint(record.replica.outbox, record.replica.confirmedLog)
    ensures var r := record.replica;
      Merge(r, Response(r.confirmedSequence, r.confirmedSequence, r.confirmedSequence, [], []), interpreter)
      == Ok(Merged(r, [], true))
  {
    RecordParts(record, streamId);
    var r := record.replica;
    RecordIsRetained(r);
    OutboxIsApart(r);
    SettledStays(r.outbox, r.confirmedSequence, RetainedBase(r), r.confirmedLog, interpreter.areEqual);
    IdleIsValid(r);
    hide ValidRecord, ValidHeader, ValidConfirmed, ValidOutbox, ValidRetained, ResponseCheck, RetainedCheck;
    RetainedCheckMeans(r);
  }

  lemma OutboxIsApart(r: Replica)
    requires ValidOutbox(r, |r.outbox|)
    ensures DistinctOutbox(r.outbox) && Disjoint(r.outbox, r.confirmedLog) && Settled(r.outbox, r.confirmedSequence)
  {
    forall x | x in r.outbox ensures x.PendingEntry? || x.sequence > r.confirmedSequence {
      var i :| 0 <= i < |r.outbox| && r.outbox[i] == x;
      assert ValidOutboxEntry(r, r.outbox[i]);
    }
    forall x, e | x in r.outbox && e in r.confirmedLog ensures x.proposal.operationId != e.operationId {
      var i :| 0 <= i < |r.outbox| && r.outbox[i] == x;
      var j :| 0 <= j < |r.confirmedLog| && r.confirmedLog[j] == e;
    }
  }

  lemma IdleIsValid(r: Replica)
    requires ValidHeader(r)
    ensures ResponseCheck(Response(r.confirmedSequence, r.confirmedSequence, r.confirmedSequence, [], []), None).Pass?
  {
    ResponseCheckIsValidResponse(Response(r.confirmedSequence, r.confirmedSequence, r.confirmedSequence, [], []), None);
  }

  /* ---- Validation around every update ---- */

  /** Nothing is done with a record that the validator does not accept, or that is of another schema
      version than 1 or of another stream. */
  lemma InvalidRecordIsRefused(record: Record, streamId: string)
    requires !ValidRecord(record, streamId) || record.schemaVersion != 1 || record.streamId != streamId
    ensures forall id, intentHash, intent :: StoreEnqueue(record, streamId, id, intentHash, intent) == Err(InvalidRecord)
    ensures forall maximumProposals, maximumEntries ::
      StorePrepare(record, streamId, maximumProposals, maximumEntries) == Err(InvalidRecord)
    ensures forall response, interpreter :: StoreMerge(record, streamId, response, interpreter) == Err(InvalidRecord)
    ensures forall through :: StoreCompact(record, streamId, through) == Err(InvalidRecord)
    ensures forall ids | ids != {} :: StoreAcknowledge(record, streamId, ids) == Err(InvalidRecord)
  {
    OfThisVersion(record, streamId);
    hide ValidRecord, Enqueue, Prepare, Merge, Compact, Unacknowledged, AppendUnique;
  }

  lemma OfThisVersion(record: Record, streamId: string)
    ensures ValidRecord(record, streamId) ==> record.schemaVersion == 1 && record.streamId == streamId
  {
    hide ValidHeader, ValidConfirmed, ValidOutbox, ValidResolutions;
  }

  /** The record a merge would leave. */
  ghost predicate IsMergedRecord(record: Record, response: Response, interpreter: ReplicaInterpreter, after: Record) {
    && Merge(record.replica, response, interpreter).Ok?
    && var m := Merge(record.replica, response, interpreter).value;
    && after.schemaVersion == record.schemaVersion && after.streamId == record.streamId
    && after.replica == m.state
    && after.resolutions == AppendUnique(record.resolutions, m.newly)
  }

  /** A merge is stored exactly when it succeeds and leaves a record that the validator accepts. */
  lemma StoreMergesExactly(record: Record, streamId: string, response: Response, interpreter: ReplicaInterpreter, after: Record)
    requires ValidRecord(record, streamId)
    ensures StoreMerge(record, streamId, response, interpreter) == Ok(after) <==>
      IsMergedRecord(record, response, interpreter, after) && ValidRecord(after, streamId)
  {
    hide ValidRecord, Merge, AppendUnique;
  }
}
