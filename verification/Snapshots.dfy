/** src/server.ts:105-126, 208-214 and 317-404: taking a snapshot of an authority and restoring it. */
module Snapshots {
  import opened Protocol
  import opened Validators
  import opened LogServer

  datatype Snapshot = Snapshot(state: State, log: seq<Entry>, decisions: seq<Stored>)

  /** The two maps that restoring fills. */
  datatype Index = Index(decisions: map<string, Stored>, positions: map<Position, string>)

  function RecordCheck(index: Index, s: Stored): Outcome {
    var identity := IdentityCheck(s.operationId, s.clientId, s.clientSequence, s.intentHash);
    if identity.Fail? then identity
    else if s.decision.operationId == "" then Fail(EmptyString)
    else if s.decision.operationId != s.operationId then Fail(InvalidSnapshot)
    else if s.decision.Accepted? && !IsLogSequence(s.decision.sequence, false) then Fail(InvalidSequence)
    else if s.operationId in index.decisions then Fail(InvalidSnapshot)
    else if SlotOfStored(s) in index.positions && index.positions[SlotOfStored(s)] != s.operationId then
      Fail(ClientSequenceConflict(s.clientId, s.clientSequence))
    else Pass
  }

  function AddRecord(index: Index, s: Stored): Index {
    Index(index.decisions[s.operationId := s], index.positions[SlotOfStored(s) := s.operationId])
  }

  function RestoreIndex(ds: seq<Stored>): Result<Index> {
    if ds == [] then Ok(Index(map[], map[]))
    else
      var index :- RestoreIndex(ds[..|ds| - 1]);
      :- RecordCheck(index, ds[|ds| - 1]);
      Ok(AddRecord(index, ds[|ds| - 1]))
  }

  /** The record accepts exactly this entry, under this identity. */
  predicate Matches(s: Stored, e: Entry) {
    && s.operationId == e.operationId
    && s.decision.Accepted?
    && s.decision.sequence == e.sequence
    && s.clientId == e.origin.clientId
    && s.clientSequence == e.origin.clientSequence
    && s.intentHash == e.origin.intentHash
  }

  predicate EntryHasRecord(index: Index, e: Entry) {
    e.operationId in index.decisions && Matches(index.decisions[e.operationId], e)
  }

  predicate RecordHasEntry(log: seq<Entry>, s: Stored) {
    s.decision.Accepted? ==> 1 <= s.decision.sequence <= |log| && Matches(s, log[s.decision.sequence - 1])
  }

  function Restore(s: Snapshot): Result<Authority> {
    var valid := LogCheck(s.log);
    if valid.Fail? then Err(valid.error)
    else
      var index :- RestoreIndex(s.decisions);
      if && (forall i | 0 <= i < |s.log| :: EntryHasRecord(index, s.log[i]))
         && (forall id | id in index.decisions :: RecordHasEntry(s.log, index.decisions[id]))
      then Ok(Authority(s.state, s.log, index.decisions, index.positions))
      else Err(InvalidSnapshot)
  }

  /* ---- Which snapshots are accepted ---- */

  predicate ValidRecord(s: Stored) {
    && ValidIdentity(s.operationId, s.clientId, s.clientSequence, s.intentHash)
    && s.decision.operationId == s.operationId
    && (s.decision.Accepted? ==> IsLogSequence(s.decision.sequence, false))
  }

  predicate ValidRecords(ds: seq<Stored>) {
    && (forall i | 0 <= i < |ds| :: ValidRecord(ds[i]))
    && (forall i, j | 0 <= i < j < |ds| ::
          ds[i].operationId != ds[j].operationId && SlotOfStored(ds[i]) != SlotOfStored(ds[j]))
  }

  /** A snapshot whose log is canonical, whose records are well formed and distinct, and in which
      log entries and accepted records match one to one. */
  ghost predicate ValidSnapshot(s: Snapshot) {
    && ValidLog(s.log)
    && ValidRecords(s.decisions)
    && (forall e | e in s.log :: exists d :: d in s.decisions && Matches(d, e))
    && (forall d | d in s.decisions && d.decision.Accepted? :: exists e :: e in s.log && Matches(d, e))
  }

  /** The maps hold exactly the records, each under its own identity and position. */
  ghost predicate IsIndexOf(index: Index, ds: seq<Stored>) {
    && (forall d | d in ds :: d.operationId in index.decisions && index.decisions[d.operationId] == d)
    && (forall id | id in index.decisions :: index.decisions[id] in ds && index.decisions[id].operationId == id)
    && (forall d | d in ds :: SlotOfStored(d) in index.positions && index.positions[SlotOfStored(d)] == d.operationId)
    && (forall q | q in index.positions ::
          index.positions[q] in index.decisions && SlotOfStored(index.decisions[index.positions[q]]) == q)
  }

  /** The record may come next: it is well formed and shares no identity or position. */
  predicate MayFollow(ds: seq<Stored>, s: Stored) {
    && ValidRecord(s)
    && forall d | d in ds :: d.operationId != s.operationId && SlotOfStored(d) != SlotOfStored(s)
  }

  lemma OneMoreRecord(ds: seq<Stored>, s: Stored, index: Index)
    ensures ValidRecords(ds + [s]) <==> ValidRecords(ds) && MayFollow(ds, s)
    ensures IsIndexOf(index, ds) ==> (RecordCheck(index, s).Pass? <==> MayFollow(ds, s))
  {
    var all := ds + [s];
    assert all[|ds|] == s && forall i | 0 <= i < |ds| :: all[i] == ds[i];
    if ValidRecords(all) {
      forall i, j | 0 <= i < j < |ds|
        ensures ds[i].operationId != ds[j].operationId && SlotOfStored(ds[i]) != SlotOfStored(ds[j])
      {
        assert all[i] == ds[i] && all[j] == ds[j];
      }
    }
  }

  lemma HoldOneMore(ds: seq<Stored>, s: Stored, index: Index)
    requires IsIndexOf(index, ds) && MayFollow(ds, s)
    ensures IsIndexOf(AddRecord(index, s), ds + [s])
  {
    var next := AddRecord(index, s);
    forall q | q in next.positions
      ensures next.positions[q] in next.decisions && SlotOfStored(next.decisions[next.positions[q]]) == q
    {
      if q != SlotOfStored(s) {
        assert index.positions[q] in index.decisions && index.decisions[index.positions[q]] in ds;
      }
    }
  }

  lemma {:induction false} RestoreIndexHolds(ds: seq<Stored>)
    ensures RestoreIndex(ds).Ok? <==> ValidRecords(ds)
    ensures RestoreIndex(ds).Ok? ==> IsIndexOf(RestoreIndex(ds).value, ds)
  {
    if ds != [] {
      var init, s := ds[..|ds| - 1], ds[|ds| - 1];
      assert ds == init + [s];
      hide IsIndexOf, ValidRecords, MayFollow, RecordCheck;
      RestoreIndexHolds(init);
      if RestoreIndex(init).Ok? {
        var index := RestoreIndex(init).value;
        OneMoreRecord(init, s, index);
        if MayFollow(init, s) {
          HoldOneMore(init, s, index);
        }
        return;
      }
      OneMoreRecord(init, s, Index(map[], map[]));
      return;
    }
  }

  /** The constructor accepts a snapshot if and only if it is valid. */
  lemma RestoreAcceptsExactlyValid(s: Snapshot)
    ensures Restore(s).Ok? <==> ValidSnapshot(s)
  {
    hide LogCheck, RestoreIndex, ValidRecords;
    LogCheckIsValidLog(s.log);
    RestoreIndexHolds(s.decisions);
    if ValidLog(s.log) && RestoreIndex(s.decisions).Ok? {
      var index := RestoreIndex(s.decisions).value;
      if Restore(s).Ok? {
        forall e | e in s.log ensures exists d :: d in s.decisions && Matches(d, e) {
          assert EntryHasRecord(index, e);
        }
        forall d | d in s.decisions && d.decision.Accepted? ensures exists e :: e in s.log && Matches(d, e) {
          assert RecordHasEntry(s.log, index.decisions[d.operationId]);
        }
      }
      if ValidSnapshot(s) {
        forall i | 0 <= i < |s.log| ensures EntryHasRecord(index, s.log[i]) {
          assert s.log[i] in s.log;
          var d :| d in s.decisions && Matches(d, s.log[i]);
        }
        forall id | id in index.decisions ensures RecordHasEntry(s.log, index.decisions[id]) {
          var d := index.decisions[id];
          if d.decision.Accepted? {
            var e :| e in s.log && Matches(d, e);
          }
        }
      }
    }
  }

  /** Whatever is accepted indexes log entries and accepted decisions one to one. (That decided and
      committed operations are the same, and that the state is the fold of the log, is not checked.) */
  lemma RestoredIndexesAreCoherent(s: Snapshot)
    requires Restore(s).Ok?
    ensures var a := Restore(s).value;
      && DecisionsCoherent(a)
      && PositionsCoherent(a)
      && forall i | 0 <= i < |a.log| ::
           && a.log[i].sequence == i + 1
           && a.log[i].operationId in a.decisions
           && Matches(a.decisions[a.log[i].operationId], a.log[i])
  {
    LogCheckIsValidLog(s.log);
    RestoreIndexHolds(s.decisions);
    var a := Restore(s).value;
    forall id | id in a.decisions ensures StoredCoherent(a, id) {
      assert a.decisions[id] in s.decisions && RecordHasEntry(s.log, a.decisions[id]);
    }
    forall i | 0 <= i < |a.log| ensures EntryHasRecord(Index(a.decisions, a.positions), a.log[i]) {
      assert EntryHasRecord(Index(a.decisions, a.positions), s.log[i]);
    }
  }

  /** Where an entry and an accepted record name the same operation, they hold the same operation. */
  ghost predicate SameOperations(s: Snapshot) {
    forall e, d | e in s.log && d in s.decisions && d.decision.Accepted? && d.operationId == e.operationId ::
      d.decision.operation == e.operation
  }

  /** An accepted snapshot gives an authority that meets its whole invariant if and only if its
      operations agree and its state is the fold of its log. The constructor checks neither. */
  lemma RestoredIsCoherentExactly(w: World, s: Snapshot)
    requires Restore(s).Ok?
    ensures Coherent(w, Restore(s).value) <==> SameOperations(s) && s.state == Replay(w.log.apply, w.initial, s.log)
  {
    hide LogCheck, RestoreIndex, DecisionsCoherent, PositionsCoherent, Replay;
    RestoredIndexesAreCoherent(s);
    RestoredFields(s);
    var a := Restore(s).value;
    if LogCoherent(a) {
      forall e, d | e in s.log && d in s.decisions && d.decision.Accepted? && d.operationId == e.operationId
        ensures d.decision.operation == e.operation
      {
        var i :| 0 <= i < |a.log| && a.log[i] == e;
        assert Records(a, a.log[i]);
      }
    }
    if SameOperations(s) {
      forall i | 0 <= i < |a.log| ensures a.log[i].sequence == i + 1 && Records(a, a.log[i]) {
        EntryIsRecord(s, a, i);
      }
    }
  }

  lemma EntryIsRecord(s: Snapshot, a: Authority, i: nat)
    requires SameOperations(s) && a.log == s.log && IsIndexOf(Index(a.decisions, a.positions), s.decisions)
    requires i < |a.log| && a.log[i].operationId in a.decisions && Matches(a.decisions[a.log[i].operationId], a.log[i])
    requires DecisionsCoherent(a)
    ensures Records(a, a.log[i])
  {
    var e := a.log[i];
    var d := a.decisions[e.operationId];
    assert e in s.log && d in s.decisions && StoredCoherent(a, e.operationId);
  }

  /** The state of an accepted snapshot need not be the fold of its log. */
  lemma AcceptedStateMayDiffer(w: World, other: State)
    requires other != w.initial
    ensures var s := Snapshot(other, [], []);
      Restore(s).Ok? && !Coherent(w, Restore(s).value)
  {
    var s := Snapshot(other, [], []);
    RestoreAcceptsExactlyValid(s);
    RestoredIsCoherentExactly(w, s);
  }

  /** And an accepted snapshot may have committed one operation and decided another. */
  lemma AcceptedOperationsMayDiffer(w: World, committed: Operation, decided: Operation)
    requires committed != decided
    ensures var e := Entry(1, "a", Origin("c", 1, "h"), committed);
      var s := Snapshot(w.log.apply(w.initial, committed), [e], [Stored("a", "c", 1, "h", Accepted("a", 1, decided))]);
      Restore(s).Ok? && !Coherent(w, Restore(s).value)
  {
    var e := Entry(1, "a", Origin("c", 1, "h"), committed);
    var d := Stored("a", "c", 1, "h", Accepted("a", 1, decided));
    var s := Snapshot(w.log.apply(w.initial, committed), [e], [d]);
    assert e in s.log && d in s.decisions && Matches(d, e);
    RestoreAcceptsExactlyValid(s);
    RestoredIsCoherentExactly(w, s);
  }

  /* ---- Round trip ---- */

  /** A snapshot lists the decision records, each once, in any order. */
  ghost predicate IsSnapshotOf(s: Snapshot, a: Authority) {
    && s.state == a.state
    && s.log == a.log
    && (forall d | d in s.decisions :: d.operationId in a.decisions && a.decisions[d.operationId] == d)
    && (forall id | id in a.decisions :: a.decisions[id] in s.decisions)
    && (forall i, j | 0 <= i < j < |s.decisions| :: s.decisions[i].operationId != s.decisions[j].operationId)
  }

  /** Restoring a snapshot of a real authority gives back that authority, index for index, so it
      answers every later request alike. */
  lemma SnapshotRoundTrip(w: World, a: Authority, s: Snapshot)
    requires Sound(w, a) && IsSnapshotOf(s, a)
    ensures Restore(s) == Ok(a)
  {
    hide *;
    SnapshotIsValid(w, a, s);
    RestoreAcceptsExactlyValid(s);
    RestoredIndexesAreCoherent(s);
    RestoredFields(s);
    var b := Restore(s).value;
    DecisionsAreDetermined(w, s, a, b);
    PositionsAreDetermined(w, a, b);
  }

  lemma RestoredFields(s: Snapshot)
    requires Restore(s).Ok?
    ensures var a := Restore(s).value;
      && a.state == s.state
      && a.log == s.log
      && IsIndexOf(Index(a.decisions, a.positions), s.decisions)
  {
    RestoreIndexHolds(s.decisions);
  }

  lemma DecisionsAreDetermined(w: World, s: Snapshot, a: Authority, b: Authority)
    requires Sound(w, a)
    requires IsSnapshotOf(s, a) && IsIndexOf(Index(b.decisions, b.positions), s.decisions)
    ensures a.decisions == b.decisions && a.state == s.state && a.log == s.log
  {
    hide LogCoherent, PositionsCoherent, ValidIdentity;
    forall id | id in a.decisions ensures id in b.decisions && b.decisions[id] == a.decisions[id] {
      assert a.decisions[id] in s.decisions && StoredCoherent(a, id);
    }
  }

  lemma PositionsAreDetermined(w: World, a: Authority, b: Authority)
    requires Sound(w, a) && PositionsCoherent(b) && DecisionsCoherent(b) && a.decisions == b.decisions
    ensures a.positions == b.positions
  {
    forall q | q in a.positions ensures q in b.positions && b.positions[q] == a.positions[q] {
      assert StoredCoherent(b, a.positions[q]);
    }
    forall q | q in b.positions ensures q in a.positions {
      assert StoredCoherent(a, b.positions[q]);
    }
  }

  lemma SnapshotIsValid(w: World, a: Authority, s: Snapshot)
    requires Sound(w, a) && IsSnapshotOf(s, a)
    ensures ValidSnapshot(s)
  {
    CoherentLogIsValid(w, a);
    hide ValidLog, ValidIdentity, PositionsCoherent;
    forall i | 0 <= i < |s.decisions| ensures ValidRecord(s.decisions[i]) {
      assert StoredCoherent(a, s.decisions[i].operationId);
    }
    forall i, j | 0 <= i < j < |s.decisions| ensures SlotOfStored(s.decisions[i]) != SlotOfStored(s.decisions[j]) {
      assert StoredCoherent(a, s.decisions[i].operationId) && StoredCoherent(a, s.decisions[j].operationId);
    }
    forall e | e in s.log ensures exists d :: d in s.decisions && Matches(d, e) {
      assert Records(a, e) && Matches(a.decisions[e.operationId], e);
    }
    forall d | d in s.decisions && d.decision.Accepted? ensures exists e :: e in s.log && Matches(d, e) {
      assert StoredCoherent(a, d.operationId);
      var e := a.log[d.decision.sequence - 1];
      assert Records(a, e) && Matches(d, e);
    }
  }
}
