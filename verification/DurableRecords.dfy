/** src/indexeddb/record.ts and src/indexeddb/store.ts: the durable client record. One record holds
    the replica and the inbox of outcomes the application has not acknowledged; every update reads,
    validates, changes, validates again and writes it as one step. */
module DurableRecords {
  import opened Protocol
  import opened Validators
  import opened Replicas

  const SCHEMA_VERSION: int := 1

  datatype Record = Record(schemaVersion: int, streamId: string, replica: Replica, resolutions: seq<Decision>)

  datatype Status = Status(confirmed: int, pending: nat, awaiting: nat, unacknowledged: nat)

  /* ---- The validator ---- */

  predicate ValidConfirmedEntry(r: Replica, i: int)
    requires 0 <= i < |r.confirmedLog|
  {
    var e := r.confirmedLog[i];
    && ValidEntry(e)
    && e.sequence == RetainedBase(r) + i + 1
    && (e.origin.clientId == r.clientId ==> e.origin.clientSequence < r.nextClientSequence)
  }

  predicate ValidOutboxEntry(r: Replica, x: OutboxEntry) {
    var p := x.proposal;
    && ValidIdentity(p.operationId, p.clientId, p.clientSequence, p.intentHash)
    && p.clientId == r.clientId
    && p.clientSequence < r.nextClientSequence
    && (x.AcceptedEntry? ==> IsLogSequence(x.sequence, false) && x.sequence > r.confirmedSequence)
  }

  predicate ValidHeader(r: Replica) {
    && r.clientId != ""
    && IsLogSequence(r.nextClientSequence, false)
    && IsLogSequence(r.confirmedSequence, true)
    && |r.confirmedLog| <= r.confirmedSequence
  }

  /** The first n retained entries are a canonical suffix with identities of their own. */
  predicate ValidConfirmed(r: Replica, n: int)
    requires 0 <= n <= |r.confirmedLog|
  {
    && (forall i | 0 <= i < n :: ValidConfirmedEntry(r, i))
    && DistinctEntries(r.confirmedLog[..n])
  }

  /** The first n outbox entries are the client's own, in its order, and none is in the log. */
  predicate ValidOutbox(r: Replica, n: int)
    requires 0 <= n <= |r.outbox|
  {
    && (forall i | 0 <= i < n :: ValidOutboxEntry(r, r.outbox[i]))
    && (forall i, j | 0 <= i < j < n ::
          && r.outbox[i].proposal.clientSequence < r.outbox[j].proposal.clientSequence
          && r.outbox[i].proposal.operationId != r.outbox[j].proposal.operationId)
    && (forall i, j | 0 <= i < n && 0 <= j < |r.confirmedLog| ::
          && r.outbox[i].proposal.operationId != r.confirmedLog[j].operationId
          && (r.outbox[i].proposal.clientId, r.outbox[i].proposal.clientSequence) != PositionOf(r.confirmedLog[j]))
  }

  predicate ValidResolutions(ds: seq<Decision>) {
    && (forall i | 0 <= i < |ds| ::
          ds[i].operationId != "" && (ds[i].Accepted? ==> IsLogSequence(ds[i].sequence, false)))
    && DistinctDecisions(ds)
  }

  predicate ValidRecord(record: Record, streamId: string) {
    && record.schemaVersion == SCHEMA_VERSION
    && record.streamId == streamId
    && ValidHeader(record.replica)
    && ValidConfirmed(record.replica, |record.replica.confirmedLog|)
    && ValidOutbox(record.replica, |record.replica.outbox|)
    && ValidResolutions(record.resolutions)
  }

  function RecordCheck(record: Record, streamId: string): Outcome {
    if ValidRecord(record, streamId) then Pass else Fail(InvalidRecord)
  }

  /** The validator accepts exactly the valid records. */
  method AssertReplicaRecord(record: Record, streamId: string) returns (r: Outcome)
    ensures r == RecordCheck(record, streamId)
  {
    hide ValidConfirmed, ValidOutbox, ValidResolutions;
    if record.schemaVersion != SCHEMA_VERSION || record.streamId != streamId {
      return Fail(InvalidRecord);
    }
    var replica := record.replica;
    if replica.clientId == ""
       || !IsLogSequence(replica.nextClientSequence, false)
       || !IsLogSequence(replica.confirmedSequence, true)
       || |replica.confirmedLog| > replica.confirmedSequence {
      return Fail(InvalidRecord);
    }
    var ok, operationIds, clientPositions := RegisterConfirmedLog(replica);
    if !ok {
      return Fail(InvalidRecord);
    }
    ok := CheckOutbox(replica, operationIds, clientPositions);
    if !ok {
      return Fail(InvalidRecord);
    }
    ok := CheckResolutions(record.resolutions);
    return if ok then Pass else Fail(InvalidRecord);
  }

  method RegisterConfirmedLog(r: Replica) returns (ok: bool, operationIds: set<string>, clientPositions: set<Position>)
    ensures ok <==> ValidConfirmed(r, |r.confirmedLog|)
    ensures ok ==> operationIds == EntryIds(r.confirmedLog) && clientPositions == EntryPositions(r.confirmedLog)
  {
    hide EntryIds, EntryPositions, DistinctEntries, ValidConfirmedEntry;
    operationIds, clientPositions := {}, {};
    IndexNone();
    NoEntriesAreDistinct(r.confirmedLog);
    var i := 0;
    while i < |r.confirmedLog|
      invariant 0 <= i <= |r.confirmedLog|
      invariant ValidConfirmed(r, i)
      invariant operationIds == EntryIds(r.confirmedLog[..i])
      invariant clientPositions == EntryPositions(r.confirmedLog[..i])
    {
      var e := r.confirmedLog[i];
      OneMoreConfirmed(r, i);
      assert r.confirmedLog[..i + 1] == r.confirmedLog[..i] + [e];
      IndexOneMore(map[], r.confirmedLog[..i], e);
      if !ValidConfirmedEntry(r, i) || e.operationId in operationIds || PositionOf(e) in clientPositions {
        ConfirmedPrefixFails(r, i + 1);
        return false, operationIds, clientPositions;
      }
      operationIds := operationIds + {e.operationId};
      clientPositions := clientPositions + {PositionOf(e)};
      i := i + 1;
    }
    assert r.confirmedLog[..i] == r.confirmedLog;
    return true, operationIds, clientPositions;
  }

  lemma NoEntriesAreDistinct(log: seq<Entry>)
    ensures DistinctEntries(log[..0])
  {
  }

  lemma OneMoreConfirmed(r: Replica, i: int)
    requires 0 <= i < |r.confirmedLog|
    ensures ValidConfirmed(r, i + 1) <==>
      && ValidConfirmed(r, i)
      && ValidConfirmedEntry(r, i)
      && r.confirmedLog[i].operationId !in EntryIds(r.confirmedLog[..i])
      && PositionOf(r.confirmedLog[i]) !in EntryPositions(r.confirmedLog[..i])
  {
    hide ValidConfirmedEntry;
    var before, upTo := r.confirmedLog[..i], r.confirmedLog[..i + 1];
    assert upTo[i] == r.confirmedLog[i] && forall j | 0 <= j < i :: upTo[j] == before[j];
    if DistinctEntries(upTo) {
      forall e | e in before
        ensures e.operationId != upTo[i].operationId && PositionOf(e) != PositionOf(upTo[i])
      {
        var j :| 0 <= j < i && before[j] == e;
        assert upTo[j] == e;
      }
      forall j, k | 0 <= j < k < i
        ensures before[j].operationId != before[k].operationId && PositionOf(before[j]) != PositionOf(before[k])
      {
        assert upTo[j] == before[j] && upTo[k] == before[k];
      }
    }
    if DistinctEntries(before) {
      forall j | 0 <= j < i ensures upTo[j] in before {}
    }
  }

  lemma ConfirmedPrefixFails(r: Replica, n: int)
    requires 0 <= n <= |r.confirmedLog| && !ValidConfirmed(r, n)
    ensures !ValidConfirmed(r, |r.confirmedLog|)
  {
    hide ValidConfirmedEntry;
    var log := r.confirmedLog;
    if DistinctEntries(log[..|log|]) {
      forall i, j | 0 <= i < j < n
        ensures log[..n][i].operationId != log[..n][j].operationId && PositionOf(log[..n][i]) != PositionOf(log[..n][j])
      {
        assert log[..|log|][i] == log[i] && log[..|log|][j] == log[j];
      }
    }
  }

  method CheckOutbox(r: Replica, ids: set<string>, positions: set<Position>) returns (ok: bool)
    requires ids == EntryIds(r.confirmedLog) && positions == EntryPositions(r.confirmedLog)
    ensures ok <==> ValidOutbox(r, |r.outbox|)
  {
    hide EntryIds, EntryPositions, OutboxIds, ValidOutbox;
    var operationIds := ids;
    var previous := 0;
    NoOutbox(r);
    var i := 0;
    while i < |r.outbox|
      invariant 0 <= i <= |r.outbox|
      invariant ValidOutbox(r, i)
      invariant operationIds == EntryIds(r.confirmedLog) + OutboxIds(r.outbox[..i])
      invariant previous == if i == 0 then 0 else r.outbox[i - 1].proposal.clientSequence
    {
      var x := r.outbox[i];
      var p := x.proposal;
      OneMoreOutbox(r, i);
      assert r.outbox[..i + 1] == r.outbox[..i] + [x];
      OutboxIdsOneMore(r.outbox[..i], x);
      if !ValidOutboxEntry(r, x)
         || p.clientSequence <= previous
         || p.operationId in operationIds
         || (p.clientId, p.clientSequence) in positions {
        OutboxPrefixFails(r, i + 1);
        return false;
      }
      operationIds := operationIds + {p.operationId};
      previous := p.clientSequence;
      i := i + 1;
    }
    return true;
  }

  lemma NoOutbox(r: Replica)
    ensures ValidOutbox(r, 0) && OutboxIds(r.outbox[..0]) == {}
  {
  }

  lemma OutboxIdsOneMore(outbox: seq<OutboxEntry>, x: OutboxEntry)
    ensures OutboxIds(outbox + [x]) == OutboxIds(outbox) + {x.proposal.operationId}
  {
  }

  lemma OneMoreOutbox(r: Replica, i: int)
    requires 0 <= i < |r.outbox| && ValidOutbox(r, i)
    ensures ValidOutbox(r, i + 1) <==>
      && ValidOutboxEntry(r, r.outbox[i])
      && r.outbox[i].proposal.clientSequence > (if i == 0 then 0 else r.outbox[i - 1].proposal.clientSequence)
      && r.outbox[i].proposal.operationId !in EntryIds(r.confirmedLog) + OutboxIds(r.outbox[..i])
      && (r.outbox[i].proposal.clientId, r.outbox[i].proposal.clientSequence) !in EntryPositions(r.confirmedLog)
  {
    hide OutboxIds, EntryIds, EntryPositions, ValidOutboxEntry, PositionOf;
    var p := r.outbox[i].proposal;
    NotAmongOutbox(r.outbox, i, p.operationId);
    NotAmongEntries(r.confirmedLog, p.operationId, (p.clientId, p.clientSequence));
    ValidSequenceIsPositive(r, i);
  }

  lemma NotAmongOutbox(outbox: seq<OutboxEntry>, n: int, id: string)
    requires 0 <= n <= |outbox|
    ensures id !in OutboxIds(outbox[..n]) <==> forall j | 0 <= j < n :: outbox[j].proposal.operationId != id
  {
    if id in OutboxIds(outbox[..n]) {
      var x :| x in outbox[..n] && x.proposal.operationId == id;
      var j :| 0 <= j < n && outbox[j] == x;
    } else {
      forall j | 0 <= j < n ensures outbox[j].proposal.operationId != id {
        assert outbox[..n][j] in outbox[..n];
      }
    }
  }

  lemma NotAmongEntries(log: seq<Entry>, id: string, position: Position)
    ensures id !in EntryIds(log) <==> forall j | 0 <= j < |log| :: log[j].operationId != id
    ensures position !in EntryPositions(log) <==> forall j | 0 <= j < |log| :: PositionOf(log[j]) != position
  {
    hide PositionOf;
    forall j | 0 <= j < |log| ensures log[j] in log {}
  }

  lemma ValidSequenceIsPositive(r: Replica, i: int)
    requires 0 <= i < |r.outbox|
    ensures ValidOutboxEntry(r, r.outbox[i]) ==> r.outbox[i].proposal.clientSequence > 0
  {
  }

  lemma OutboxPrefixFails(r: Replica, n: int)
    requires 0 <= n <= |r.outbox| && !ValidOutbox(r, n)
    ensures !ValidOutbox(r, |r.outbox|)
  {
    hide ValidOutboxEntry;
  }

  method CheckResolutions(ds: seq<Decision>) returns (ok: bool)
    ensures ok <==> ValidResolutions(ds)
  {
    hide DecisionIds;
    var ids: set<string> := {};
    NoDecisionIds();
    var i := 0;
    while i < |ds|
      invariant 0 <= i <= |ds|
      invariant ValidResolutions(ds[..i])
      invariant ids == DecisionIds(ds[..i])
    {
      var d := ds[i];
      assert ds[..i + 1] == ds[..i] + [d];
      DecisionIdsOneMore(ds[..i], d);
      OneMoreResolution(ds, i);
      if d.operationId == "" || d.operationId in ids || (d.Accepted? && !IsLogSequence(d.sequence, false)) {
        ResolutionsPrefixFails(ds, i + 1);
        return false;
      }
      ids := ids + {d.operationId};
      i := i + 1;
    }
    assert ds[..i] == ds;
    return true;
  }

  lemma OneMoreResolution(ds: seq<Decision>, i: nat)
    requires i < |ds| && ValidResolutions(ds[..i])
    ensures ValidResolutions(ds[..i + 1]) <==>
      && ds[i].operationId != ""
      && (ds[i].Accepted? ==> IsLogSequence(ds[i].sequence, false))
      && ds[i].operationId !in DecisionIds(ds[..i])
  {
    assert ds[..i + 1] == ds[..i] + [ds[i]];
    forall j | 0 <= j < i ensures ds[..i + 1][j] == ds[..i][j] && ds[..i][j] in ds[..i] {}
    assert ds[..i + 1][i] == ds[i];
    if ValidResolutions(ds[..i + 1]) {
      forall d | d in ds[..i] ensures d.operationId != ds[i].operationId {
        var j :| 0 <= j < i && ds[..i][j] == d;
        assert ds[..i + 1][j] == d;
      }
    }
  }

  lemma ResolutionsPrefixFails(ds: seq<Decision>, n: nat)
    requires n <= |ds| && !ValidResolutions(ds[..n])
    ensures !ValidResolutions(ds)
  {
    assert forall j | 0 <= j < n :: ds[..n][j] == ds[j];
  }

  /* ---- The inbox ---- */

  function AppendUnique(existing: seq<Decision>, received: seq<Decision>): seq<Decision> {
    if received == [] then existing
    else
      var before := AppendUnique(existing, received[..|received| - 1]);
      var d := received[|received| - 1];
      if d.operationId in DecisionIds(before) then before else before + [d]
  }

  method AppendUniqueResolutions(existing: seq<Decision>, received: seq<Decision>) returns (result: seq<Decision>)
    ensures result == AppendUnique(existing, received)
  {
    var seen := DecisionIds(existing);
    result := existing;
    var i := 0;
    while i < |received|
      invariant 0 <= i <= |received|
      invariant result == AppendUnique(existing, received[..i])
      invariant seen == DecisionIds(result)
    {
      var d := received[i];
      assert received[..i + 1][..i] == received[..i];
      if d.operationId !in seen {
        DecisionIdsOneMore(result, d);
        result := result + [d];
        seen := seen + {d.operationId};
      }
      i := i + 1;
    }
    assert received[..i] == received;
  }

  function Unacknowledged(ds: seq<Decision>, acknowledged: set<string>): seq<Decision> {
    if ds == [] then []
    else
      var before := Unacknowledged(ds[..|ds| - 1], acknowledged);
      if ds[|ds| - 1].operationId in acknowledged then before else before + [ds[|ds| - 1]]
  }

  /** What is new is appended whole: nothing received was already there. */
  lemma {:induction false} AppendNew(existing: seq<Decision>, received: seq<Decision>)
    requires DistinctDecisions(received)
    requires DecisionIds(existing) !! DecisionIds(received)
    ensures AppendUnique(existing, received) == existing + received
  {
    if received != [] {
      var init, d := received[..|received| - 1], received[|received| - 1];
      assert received == init + [d];
      LastIsNew(existing, init, d);
      AppendNew(existing, init);
      hide DecisionIds;
      assert existing + received == existing + init + [d];
    }
  }

  lemma LastIsNew(existing: seq<Decision>, init: seq<Decision>, d: Decision)
    requires DistinctDecisions(init + [d])
    requires DecisionIds(existing) !! DecisionIds(init + [d])
    ensures DistinctDecisions(init) && DecisionIds(existing) !! DecisionIds(init)
    ensures d.operationId !in DecisionIds(existing + init)
  {
    var all := init + [d];
    DecisionIdsOneMore(init, d);
    assert all[|init|] == d && forall i | 0 <= i < |init| :: all[i] == init[i];
    forall x | x in init ensures x.operationId != d.operationId {
      var i :| 0 <= i < |init| && init[i] == x;
    }
    forall x | x in existing ensures x.operationId != d.operationId {
      assert x.operationId in DecisionIds(existing);
    }
  }

  lemma {:induction false} UnacknowledgedConcat(xs: seq<Decision>, ys: seq<Decision>, acknowledged: set<string>)
    ensures Unacknowledged(xs + ys, acknowledged)
         == Unacknowledged(xs, acknowledged) + Unacknowledged(ys, acknowledged)
  {
    if ys == [] {
      assert xs + ys == xs;
    } else {
      assert (xs + ys)[..|xs + ys| - 1] == xs + ys[..|ys| - 1];
      UnacknowledgedConcat(xs, ys[..|ys| - 1], acknowledged);
    }
  }

  lemma {:induction false} UnacknowledgedTwice(ds: seq<Decision>, a: set<string>, b: set<string>)
    ensures Unacknowledged(Unacknowledged(ds, a), b) == Unacknowledged(ds, a + b)
  {
    if ds != [] {
      UnacknowledgedTwice(ds[..|ds| - 1], a, b);
      var before := Unacknowledged(ds[..|ds| - 1], a);
      assert (before + [ds[|ds| - 1]])[..|before|] == before;
    }
  }

  lemma {:induction false} UnacknowledgedMembers(ds: seq<Decision>, a: set<string>)
    ensures forall d :: d in Unacknowledged(ds, a) <==> d in ds && d.operationId !in a
    ensures DistinctDecisions(ds) ==> DistinctDecisions(Unacknowledged(ds, a))
  {
    if ds != [] {
      var init, last := ds[..|ds| - 1], ds[|ds| - 1];
      assert ds == init + [last];
      UnacknowledgedMembers(init, a);
      if DistinctDecisions(ds) {
        forall d | d in init ensures d.operationId != last.operationId {
          var i :| 0 <= i < |init| && init[i] == d;
        }
      }
    }
  }

  /* ---- Updates of the record ---- */

  /** Validate, change, validate, write: a change that fails leaves the record as it was. */
  function Checked(record: Record, streamId: string, next: Result<Record>): Result<Record> {
    var valid := RecordCheck(record, streamId);
    if valid.Fail? then Err(valid.error)
    else
      var r :- next;
      :- RecordCheck(r, streamId);
      Ok(r)
  }

  function StoreEnqueue(record: Record, streamId: string, operationId: string, intentHash: string, intent: Intent): Result<Record> {
    Checked(record, streamId,
            match Enqueue(record.replica, operationId, intentHash, intent)
            case Ok(replica) => Ok(record.(replica := replica))
            case Err(error) => Err(error))
  }

  function StorePrepare(record: Record, streamId: string, maximumProposals: int, maximumEntries: int): Result<Request> {
    var valid := RecordCheck(record, streamId);
    if valid.Fail? then Err(valid.error)
    else
      Prepare(record.replica, maximumProposals, maximumEntries)
  }

  function StoreMerge(record: Record, streamId: string, response: Response, interpreter: ReplicaInterpreter): Result<Record> {
    Checked(record, streamId,
            match Merge(record.replica, response, interpreter)
            case Ok(m) => Ok(record.(replica := m.state, resolutions := AppendUnique(record.resolutions, m.newly)))
            case Err(error) => Err(error))
  }

  function StoreCompact(record: Record, streamId: string, through: int): Result<Record> {
    Checked(record, streamId,
            match Compact(record.replica, through)
            case Ok(replica) => Ok(record.(replica := replica))
            case Err(error) => Err(error))
  }

  function StoreAcknowledge(record: Record, streamId: string, ids: set<string>): Result<Record> {
    if ids == {} then Ok(record)
    else Checked(record, streamId, Ok(record.(resolutions := Unacknowledged(record.resolutions, ids))))
  }

  lemma {:induction false} PendingsAreFew(outbox: seq<OutboxEntry>)
    ensures |Pendings(outbox)| <= |outbox|
  {
    if outbox != [] {
      PendingsAreFew(outbox[..|outbox| - 1]);
    }
  }

  /** What is pending, and the rest of the outbox, which awaits its entries. */
  function StatusOf(record: Record): Status {
    var pending := |Pendings(record.replica.outbox)|;
    PendingsAreFew(record.replica.outbox);
    Status(record.replica.confirmedSequence, pending, |record.replica.outbox| - pending, |record.resolutions|)
  }

  /** The loop that counts pending and accepted entries. */
  method StatusFromRecord(record: Record) returns (status: Status)
    ensures status == StatusOf(record)
  {
    var pending, awaiting := 0, 0;
    var outbox := record.replica.outbox;
    var i := 0;
    while i < |outbox|
      invariant 0 <= i <= |outbox|
      invariant pending == |Pendings(outbox[..i])| && pending + awaiting == i
    {
      assert outbox[..i + 1][..i] == outbox[..i];
      if outbox[i].PendingEntry? {
        pending := pending + 1;
      } else {
        awaiting := awaiting + 1;
      }
      i := i + 1;
    }
    assert outbox[..i] == outbox;
    return Status(record.replica.confirmedSequence, pending, awaiting, |record.resolutions|);
  }

  /** What an update returns beside the changed record. */
  datatype Updated<+R> = Updated(record: Record, result: R)

  datatype MergeResult = MergeResult(merged: Merged, status: Status)

  /** The record part of an update. */
  function RecordOf<R>(updated: Result<Updated<R>>): Result<Record> {
    match updated case Ok(u) => Ok(u.record) case Err(error) => Err(error)
  }

  /** src/indexeddb/store.ts:52-254. The database row is the field; each method is one transaction. */
  class ReplicaStore {
    const streamId: string
    const interpreter: ReplicaInterpreter
    var record: Record

    constructor (streamId: string, interpreter: ReplicaInterpreter, record: Record)
      ensures this.streamId == streamId && this.interpreter == interpreter && this.record == record
    {
      this.streamId, this.interpreter, this.record := streamId, interpreter, record;
    }

    /** One transaction: read, validate, change, validate, write. */
    method UpdateRecord<R>(update: Record -> Result<Updated<R>>) returns (r: Result<R>)
      modifies this`record
      ensures match Checked(old(record), streamId, RecordOf(update(old(record))))
        case Ok(after) => record == after && update(old(record)).Ok? && r == Ok(update(old(record)).value.result)
        case Err(error) => r == Err(error) && record == old(record)
    {
      hide ValidRecord;
      var valid := AssertReplicaRecord(record, streamId);
      if valid.Fail? {
        return Err(valid.error);
      }
      var next := update(record);
      if next.Err? {
        return Err(next.error);
      }
      valid := AssertReplicaRecord(next.value.record, streamId);
      if valid.Fail? {
        return Err(valid.error);
      }
      record := next.value.record;
      return Ok(next.value.result);
    }

    /** Returns the proposal, at the client sequence it was given. */
    method EnqueueOperation(operationId: string, intentHash: string, intent: Intent) returns (r: Result<Proposal>)
      modifies this`record
      ensures match StoreEnqueue(old(record), streamId, operationId, intentHash, intent)
        case Ok(after) =>
          && record == after
          && r == Ok(Proposal(operationId, old(record).replica.clientId, old(record).replica.nextClientSequence, intentHash, intent))
        case Err(error) => r == Err(error) && record == old(record)
    {
      hide ValidRecord, RetainedCheck;
      r := UpdateRecord((current: Record) =>
        match Enqueue(current.replica, operationId, intentHash, intent)
        case Err(error) => Err(error)
        case Ok(replica) =>
          if replica.outbox == [] then Err(InvalidRecord)
          else Ok(Updated(current.(replica := replica), replica.outbox[|replica.outbox| - 1].proposal)));
    }

    method PrepareSyncRequest(maximumProposals: int, maximumEntries: int) returns (request: Result<Request>)
      ensures request == StorePrepare(record, streamId, maximumProposals, maximumEntries)
    {
      var valid := AssertReplicaRecord(record, streamId);
      if valid.Fail? {
        return Err(valid.error);
      }
      request := Replicas.PrepareSyncRequest(record.replica, maximumProposals, maximumEntries);
    }

    /** Returns what the merge resolved and the status of the record it left. */
    method MergeSyncResponse(response: Response) returns (r: Result<MergeResult>)
      modifies this`record
      ensures match StoreMerge(old(record), streamId, response, interpreter)
        case Ok(after) =>
          && record == after
          && Merge(old(record).replica, response, interpreter).Ok?
          && r == Ok(MergeResult(Merge(old(record).replica, response, interpreter).value, StatusOf(after)))
        case Err(error) => r == Err(error) && record == old(record)
    {
      hide ValidRecord, Merge, AppendUnique;
      var equality := interpreter;
      r := UpdateRecord((current: Record) =>
        match Merge(current.replica, response, equality)
        case Err(error) => Err(error)
        case Ok(m) =>
          var next := current.(replica := m.state, resolutions := AppendUnique(current.resolutions, m.newly));
          Ok(Updated(next, MergeResult(m, StatusOf(next)))));
    }

    /** Returns how many retained entries are gone. */
    method DeleteCommittedLogPrefix(through: int) returns (r: Result<int>)
      modifies this`record
      ensures match StoreCompact(old(record), streamId, through)
        case Ok(after) =>
          && record == after
          && r == Ok(|old(record).replica.confirmedLog| - |after.replica.confirmedLog|)
          && old(record).replica.confirmedLog[|old(record).replica.confirmedLog| - |after.replica.confirmedLog|..]
             == after.replica.confirmedLog
        case Err(error) => r == Err(error) && record == old(record)
    {
      hide ValidRecord, RetainedCheck;
      r := UpdateRecord((current: Record) =>
        match Compact(current.replica, through)
        case Err(error) => Err(error)
        case Ok(replica) =>
          Ok(Updated(current.(replica := replica), |current.replica.confirmedLog| - |replica.confirmedLog|)));
    }

    /** Returns how many resolutions left the inbox. */
    method AcknowledgeResolutions(ids: set<string>) returns (r: Result<int>)
      modifies this`record
      ensures match StoreAcknowledge(old(record), streamId, ids)
        case Ok(after) => record == after && r == Ok(|old(record).resolutions| - |after.resolutions|)
        case Err(error) => r == Err(error) && record == old(record)
    {
      hide ValidRecord;
      if ids == {} {
        return Ok(0);
      }
      r := UpdateRecord((current: Record) =>
        var kept := Unacknowledged(current.resolutions, ids);
        Ok(Updated(current.(resolutions := kept), |current.resolutions| - |kept|)));
    }
  }
}
