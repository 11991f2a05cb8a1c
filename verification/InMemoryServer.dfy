/** src/server.ts:94-405: the server object. A request is staged on copies and published at the end;
    every method is proved to do to the fields what the value model does to their value. */
module InMemoryServer {
  import opened Protocol
  import opened Validators
  import opened LogServer
  import opened Snapshots

  /** What one request has changed so far: the source's StagedServerTransition. */
  class StagedTransition {
    var state: State
    var entries: seq<Entry>
    var decisions: map<string, Stored>
    var positions: map<Position, string>

    constructor (s: State)
      ensures state == s && entries == [] && decisions == map[] && positions == map[]
    {
      state, entries, decisions, positions := s, [], map[], map[];
    }
  }

  class InMemoryLogServer {
    const world: World
    var state: State
    var log: seq<Entry>
    var decisions: map<string, Stored>
    var positions: map<Position, string>

    constructor (w: World)
      ensures world == w && Value() == Initial(w)
    {
      world := w;
      state, log, decisions, positions := w.initial, [], map[], map[];
    }

    /** The authority these fields stand for. */
    ghost function Value(): Authority
      reads this
    {
      Authority(state, log, decisions, positions)
    }

    /** The authority as it would be if the staged transition were published now. */
    ghost function Staged(staged: StagedTransition): Authority
      reads this, staged
    {
      Authority(staged.state, log + staged.entries, decisions + staged.decisions, positions + staged.positions)
    }

    /** The staged decision wins over the published one, which wins over a new judgement. */
    method ProcessProposal(p: Proposal, staged: StagedTransition) returns (r: Result<Decision>)
      modifies staged
      ensures match DecideProposal(world.log, old(Staged(staged)), p)
        case Ok(ruling) => r == Ok(ruling.decision) && Staged(staged) == ruling.after
        case Err(error) => r == Err(error) && Staged(staged) == old(Staged(staged))
    {
      if p.operationId in staged.decisions || p.operationId in decisions {
        var known := if p.operationId in staged.decisions then staged.decisions[p.operationId] else decisions[p.operationId];
        if !SameIdentity(known, p) {
          return Err(IdentityConflict(p.operationId));
        }
        if known.intentHash != p.intentHash {
          return Err(IntentConflict(p.operationId));
        }
        return Ok(known.decision);
      }
      var slot := SlotOf(p);
      if slot in staged.positions || slot in positions {
        var holder := if slot in staged.positions then staged.positions[slot] else positions[slot];
        if holder != p.operationId {
          return Err(ClientSequenceConflict(p.clientId, p.clientSequence));
        }
      }
      var draft := world.log.decide(staged.state, p);
      if draft.Reject? {
        var rejected := Rejected(p.operationId, draft.reason);
        StageDecision(staged, p, rejected);
        return Ok(rejected);
      }
      var sequence := |log| + |staged.entries| + 1;
      var accepted := Accepted(p.operationId, sequence, draft.operation);
      var nextState := world.log.apply(staged.state, draft.operation);
      ghost var longer := log + staged.entries;
      staged.state := nextState;
      staged.entries := staged.entries + [Commit(p, sequence, draft.operation)];
      assert log + staged.entries == longer + [Commit(p, sequence, draft.operation)];
      StageDecision(staged, p, accepted);
      return Ok(accepted);
    }

    method StageDecision(staged: StagedTransition, p: Proposal, d: Decision)
      modifies staged
      ensures Staged(staged) == Remember(old(Staged(staged)), p, d)
    {
      Overlay(decisions, staged.decisions, p.operationId, Store(p, d));
      Overlay(positions, staged.positions, SlotOf(p), p.operationId);
      staged.decisions := staged.decisions[p.operationId := Store(p, d)];
      staged.positions := staged.positions[SlotOf(p) := p.operationId];
    }

    /** Decides the whole batch, answers with one canonical page, and publishes all or nothing. */
    method Synchronize(request: Request) returns (r: Result<Response>)
      requires 0 <= world.limits.maximumEntries
      modifies this
      ensures match LogServer.Synchronize(world, old(Value()), request)
        case Ok(answer) => r == Ok(answer.response) && Value() == answer.after
        case Err(error) => r == Err(error) && Value() == old(Value())
    {
      hide RequestCheck, SyncRequestCheck, ResponseCheck, ValidRequest, ValidSyncRequest, Page, DecideAll, DecideProposal, LogServer.Synchronize;
      ghost var before := Value();
      SynchronizeCases(world, before, request);
      var valid := AssertSyncRequest(request, Some(world.limits));
      if valid.Fail? {
        return Err(valid.error);
      }
      if request.baseSequence > |log| {
        return Err(UnknownBase(request.baseSequence, |log|));
      }
      NothingDecided(world, before, request.proposals);
      var staged := new StagedTransition(state);
      assert Staged(staged) == before;
      var ds: seq<Decision> := [];
      var i := 0;
      while i < |request.proposals|
        invariant 0 <= i <= |request.proposals|
        invariant Value() == before
        invariant DecideAll(world.log, before, request.proposals[..i]) == Ok(Rulings(Staged(staged), ds))
      {
        NextRuling(world.log, before, request.proposals, i);
        var ruling := ProcessProposal(request.proposals[i], staged);
        if ruling.Err? {
          DecidePrefixFails(world.log, before, request.proposals, i + 1);
          return Err(ruling.error);
        }
        ds := ds + [ruling.value];
        i := i + 1;
      }
      assert request.proposals[..i] == request.proposals;
      var nextLog := log + staged.entries;
      var response := Respond(nextLog, request, world.limits, ds);
      valid := AssertSyncResponse(response, Some(world.limits));
      if valid.Fail? {
        return Err(valid.error);
      }
      state := staged.state;
      log := nextLog;
      decisions := decisions + staged.decisions;
      positions := positions + staged.positions;
      return Ok(response);
    }

    method GetDecision(operationId: string) returns (r: Option<Decision>)
      ensures r == DecisionOf(Value(), operationId)
    {
      if operationId in decisions {
        return Some(decisions[operationId].decision);
      }
      return None;
    }

    /** Lists the records of the map, in an order that nothing depends on. */
    method TakeSnapshot() returns (s: Snapshot)
      ensures (forall id | id in decisions :: decisions[id].operationId == id) ==> IsSnapshotOf(s, Value())
    {
      var records: seq<Stored> := [];
      var left := decisions.Keys;
      while left != {}
        invariant left <= decisions.Keys
        invariant (forall id | id in decisions :: decisions[id].operationId == id) ==>
          && (forall d | d in records :: d.operationId in decisions.Keys - left && decisions[d.operationId] == d)
          && (forall id | id in decisions.Keys - left :: decisions[id] in records)
          && (forall i, j | 0 <= i < j < |records| :: records[i].operationId != records[j].operationId)
        decreases left
      {
        var id :| id in left;
        ghost var before := records;
        records := records + [decisions[id]];
        assert forall d | d in records :: d in before || d == decisions[id];
        assert forall d | d in before :: d in records;
        left := left - {id};
      }
      return Snapshot(state, log, records);
    }

    /** The constructor's path for a snapshot: fills the maps, validates, and only then is used. */
    method RestoreFrom(s: Snapshot) returns (r: Outcome)
      modifies this
      ensures match Restore(s)
        case Ok(a) => r == Pass && Value() == a
        case Err(error) => r == Fail(error) && Value() == old(Value())
    {
      r := AssertContiguousLog(s.log);
      if r.Fail? {
        return;
      }
      var index := Index(map[], map[]);
      var i := 0;
      while i < |s.decisions|
        invariant 0 <= i <= |s.decisions|
        invariant RestoreIndex(s.decisions[..i]) == Ok(index)
        invariant Value() == old(Value())
      {
        NextRecord(s.decisions, i, index);
        var ok := RecordCheck(index, s.decisions[i]);
        if ok.Fail? {
          RestorePrefixFails(s.decisions, i + 1);
          assert Restore(s) == Err(ok.error);
          return ok;
        }
        index := AddRecord(index, s.decisions[i]);
        i := i + 1;
      }
      assert s.decisions[..i] == s.decisions;
      i := 0;
      while i < |s.log|
        invariant 0 <= i <= |s.log|
        invariant forall j | 0 <= j < i :: EntryHasRecord(index, s.log[j])
      {
        if !EntryHasRecord(index, s.log[i]) {
          return Fail(InvalidSnapshot);
        }
        i := i + 1;
      }
      var left := index.decisions.Keys;
      while left != {}
        invariant left <= index.decisions.Keys
        invariant forall id | id in index.decisions.Keys - left :: RecordHasEntry(s.log, index.decisions[id])
        decreases left
      {
        var id :| id in left;
        if !RecordHasEntry(s.log, index.decisions[id]) {
          return Fail(InvalidSnapshot);
        }
        left := left - {id};
      }
      state, log, decisions, positions := s.state, s.log, index.decisions, index.positions;
      return Pass;
    }
  }

  lemma Overlay<K, V>(m: map<K, V>, n: map<K, V>, k: K, v: V)
    ensures m + n[k := v] == (m + n)[k := v]
  {
  }

  lemma NothingDecided(w: World, a: Authority, ps: seq<Proposal>)
    ensures DecideAll(w.log, a, ps[..0]) == Ok(Rulings(a, []))
  {
    assert ps[..0] == [];
    DecideNone(w, a);
  }

  lemma NextRecord(ds: seq<Stored>, i: nat, index: Index)
    requires i < |ds| && RestoreIndex(ds[..i]) == Ok(index)
    ensures RestoreIndex(ds[..i + 1]) ==
      match RecordCheck(index, ds[i])
      case Pass => Ok(AddRecord(index, ds[i]))
      case Fail(error) => Err(error)
  {
    assert ds[..i + 1][..i] == ds[..i];
  }

  lemma {:induction false} RestorePrefixFails(ds: seq<Stored>, i: nat)
    requires i <= |ds| && RestoreIndex(ds[..i]).Err?
    ensures RestoreIndex(ds) == Err(RestoreIndex(ds[..i]).error)
  {
    if i < |ds| {
      assert ds[..|ds| - 1][..i] == ds[..i];
      RestorePrefixFails(ds[..|ds| - 1], i);
    } else {
      assert ds[..i] == ds;
    }
  }
}
