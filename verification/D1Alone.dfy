/** src/next/d1.ts:404-507 as one call runs it when it has the database to itself: the loop that reads,
    drafts and collects statements, then commits. It is then the in-memory server, errors included. */
module D1Alone {
  import opened Protocol
  import opened Validators
  import opened LogServer
  import opened D1Tables
  import opened D1Authority
  import opened D1Runs
  import opened D1Calls

  lemma NotThereIsFree(w: World, db: Db, a: Authority, work: Work, p: Proposal)
    requires Sound(w, a) && Holds(w, db, a) && Future(w, a, a, work)
    requires ReadStoredDecision(db, p) == Ok(None) && PositionAvailable(db, p)
    requires InsertsOnly(work.statements) && work.head == work.initialHead + |EntriesOf(work.statements)|
    ensures Future(w, a, a, Judge(w.log, work, p))
  {
    hide *;
    JudgeShape(w.log, work, p);
    SoundMeans(w, a);
    CoherentParts(w, a);
    TakenIsSeen(w, db, a, p);
    NotReadIsNotThere(w, db, a, p);
    FutureWith(w, a, work, Judge(w.log, work, p), p);
  }

  lemma NotReadIsNotThere(w: World, db: Db, a: Authority, p: Proposal)
    requires Holds(w, db, a) && ReadStoredDecision(db, p) == Ok(None)
    ensures p.operationId !in a.decisions && p.operationId !in db.decisions
  {
  }

  lemma FutureWith(w: World, a: Authority, work: Work, next: Work, p: Proposal)
    requires Future(w, a, a, work) && next.initialHead == work.initialHead
    requires RowIds(next.statements) == RowIds(work.statements) + {p.operationId}
    requires RowSlots(next.statements) == RowSlots(work.statements) + {SlotOf(p)}
    requires p.operationId !in a.decisions && SlotOf(p) !in a.positions
    ensures Future(w, a, a, next)
  {
    hide Coherent, Extends, RowIds, RowSlots;
  }

  /** A taken position is found by one of the two reads. */
  lemma TakenIsSeen(w: World, db: Db, a: Authority, p: Proposal)
    requires Holds(w, db, a) && DecisionsCoherent(a) && PositionsCoherent(a)
    ensures SlotOf(p) in a.positions ==> p.operationId in db.decisions || !PositionAvailable(db, p)
  {
    if SlotOf(p) in a.positions {
      SlotTakenIsPosition(w, db, a, SlotOf(p));
      var id :| id in db.decisions && SlotOfStored(db.decisions[id]) == SlotOf(p) && a.positions[SlotOf(p)] == id;
      KnownDecision(a, id);
    }
  }

  /** A read that throws is where the in-memory server throws, with the same error. */
  lemma ReadErrorIsTheirs(w: World, db: Db, a: Authority, work: Work, retries: nat, error: Error)
    requires Sound(w, a) && Holds(w, db, a) && Future(w, a, a, work) && WorkInv(w, a, work, retries)
    requires |work.decisions| < |work.request.proposals|
    requires var p := work.request.proposals[|work.decisions|];
      || ReadStoredDecision(db, p) == Err(error)
      || (ReadStoredDecision(db, p) == Ok(None) && !PositionAvailable(db, p)
          && error == ClientSequenceConflict(p.clientId, p.clientSequence))
    ensures DecideAll(w.log, a, work.request.proposals) == Err(error)
  {
    var ps, i := work.request.proposals, |work.decisions|;
    var p := ps[i];
    assert Decides(w, a, work);
    hide Plan, Future, ValidBatch, Separate;
    NextSharesNothing(ps, i);
    PublishFacts(a, work.statements);
    CoherentParts(w, a);
    hide Sound, Coherent, RowIds, RowSlots, EntriesOf, InsertsOnly, Judge, Extends, Publish, ProposalIds, Slots;
    NextRuling(w.log, a, ps, i);
    RulingFails(w, db, a, Running(a, work), p, error);
    DecidePrefixFails(w.log, a, ps, i + 1);
  }

  lemma RulingFails(w: World, db: Db, a: Authority, running: Authority, p: Proposal, error: Error)
    requires Holds(w, db, a) && DecisionsCoherent(a)
    requires p.operationId in running.decisions <==> p.operationId in a.decisions
    requires p.operationId in a.decisions ==> running.decisions[p.operationId] == a.decisions[p.operationId]
    requires SlotOf(p) in a.positions ==>
      SlotOf(p) in running.positions && running.positions[SlotOf(p)] == a.positions[SlotOf(p)]
    requires || ReadStoredDecision(db, p) == Err(error)
             || (ReadStoredDecision(db, p) == Ok(None) && !PositionAvailable(db, p)
                 && error == ClientSequenceConflict(p.clientId, p.clientSequence))
    ensures DecideProposal(w.log, running, p) == Err(error)
  {
    if p.operationId in a.decisions {
      KnownDecision(a, p.operationId);
    } else {
      var id :| id in db.decisions && SlotOfStored(db.decisions[id]) == SlotOf(p) && db.decisions[id].operationId != p.operationId;
      assert StoredCoherent(a, id);
    }
  }

  lemma WorkIsDecided(w: World, a: Authority, work: Work, retries: nat) returns (c: Authority)
    requires Sound(w, a) && WorkInv(w, a, work, retries) && Future(w, a, a, work)
    requires |work.decisions| == |work.request.proposals|
    ensures c == Running(a, work) && DecideAll(w.log, a, work.request.proposals) == Ok(Rulings(c, work.decisions))
    ensures work.statements == [] ==> c == a && work.head == |a.log|
  {
    hide *;
    WorkParts(w, a, work, retries);
    PlanMeans(w, a, a, work);
    c := Running(a, work);
    SoundMeans(w, a);
    BatchIsValid(work.request.proposals);
    DecideAllKeepsCoherence(w, a, work.request.proposals);
    CoherentParts(w, a);
    CoherentParts(w, c);
    NothingPublished(w, a, work);
  }

  lemma NothingPublished(w: World, a: Authority, work: Work)
    requires a.state == Replay(w.log.apply, w.initial, a.log)
    requires var c := Running(a, work); c.state == Replay(w.log.apply, w.initial, c.log)
    requires work.head == work.initialHead + |EntriesOf(work.statements)| && |a.log| == work.initialHead
    ensures work.statements == [] ==> Running(a, work) == a && work.head == |a.log|
  {
  }

  lemma ErrorIsTheirs(w: World, a: Authority, request: Request, error: Error)
    requires 1 <= w.limits.maximumEntries && ValidRequest(request, w.limits) && request.baseSequence <= |a.log|
    requires DecideAll(w.log, a, request.proposals) == Err(error)
    ensures Synchronize(w, a, request) == Err(error)
  {
    hide ValidRequest, DecideAll, RequestCheck;
    RequestCheckIsValidRequest(request, w.limits);
  }

  /** Nothing to write: the answer is the in-memory server's, and nothing changes. */
  lemma ReadOnlyIsTheirs(w: World, db: Db, a: Authority, work: Work, retries: nat)
    requires Lawful(w) && Sound(w, a) && Holds(w, db, a) && WorkInv(w, a, work, retries) && Future(w, a, a, work)
    requires |work.decisions| == |work.request.proposals| && work.statements == []
    ensures 1 <= w.limits.maximumEntries
    ensures Synchronize(w, a, work.request)
         == Ok(Answer(a, PageResponse(db, work.request, w.limits, work.head, work.decisions)))
    ensures ResponseCheck(PageResponse(db, work.request, w.limits, work.head, work.decisions), Some(w.limits)).Pass?
  {
    hide *;
    WorkParts(w, a, work, retries);
    SoundMeans(w, a);
    LimitsAreNatural(w);
    var c := WorkIsDecided(w, a, work, retries);
    SelfCheckFailsOnlyOnOverflow(w, a, work.request);
    D1Runs.AnswerIs(w, a, work.request, c, work.decisions);
    WholeLog(a);
    PageIsRespond(w, db, a, work.request, work.head, work.decisions);
    AnswerPasses(w, a, work.request, a, PageResponse(db, work.request, w.limits, work.head, work.decisions));
  }

  lemma WholeLog(a: Authority)
    ensures a.log[..|a.log|] == a.log
  {
  }

  lemma AnswerPasses(w: World, a: Authority, request: Request, c: Authority, response: Response)
    requires 1 <= w.limits.maximumEntries && Synchronize(w, a, request) == Ok(Answer(c, response))
    ensures ResponseCheck(response, Some(w.limits)).Pass?
  {
    hide ResponseCheck, RequestCheck, DecideAll;
  }

  lemma CommitIsTheirs(w: World, db: Db, a: Authority, work: Work, retries: nat) returns (c: Authority)
    requires Lawful(w) && Sound(w, a) && Holds(w, db, a) && db.stream.Some? && WorkInv(w, a, work, retries)
    requires Future(w, a, a, work) && |work.decisions| == |work.request.proposals|
    requires |a.log| + |work.request.proposals| <= MAX_SAFE
    ensures 1 <= w.limits.maximumEntries && ExecBatch(db, Batch(work)).Ok?
    ensures var next := ExecBatch(db, Batch(work)).value;
      && Holds(w, next, c)
      && Synchronize(w, a, work.request)
         == Ok(Answer(c, PageResponse(next, work.request, w.limits, work.head, work.decisions)))
      && ResponseCheck(PageResponse(next, work.request, w.limits, work.head, work.decisions), Some(w.limits)).Pass?
  {
    hide *;
    WorkParts(w, a, work, retries);
    SeparateWork(w, a, work, retries);
    SoundMeans(w, a);
    CoherentParts(w, a);
    HoldsMeans(w, db, a, work);
    FutureMeans(w, a, work);
    UndisturbedCommits(w, db, a, work);
    c := CommitKeeps(w, db, a, work, retries);
    WholeLog(c);
    PageIsRespond(w, ExecBatch(db, Batch(work)).value, c, work.request, work.head, work.decisions);
    AnswerPasses(w, a, work.request, c, Respond(c.log, work.request, w.limits, work.decisions));
  }

  /** One attempt, nobody else at work: the same answer as the in-memory server's, or the same error,
      and the tables hold what it would leave. */
  method SynchronizeOnce(database: D1Database, w: World, request: Request, ghost a: Authority) returns (r: Result<Response>)
    requires Lawful(w) && Sound(w, a) && Holds(w, database.Value(), a)
    requires |a.log| + |request.proposals| <= MAX_SAFE
    modifies database
    ensures 0 <= w.limits.maximumEntries
    ensures match Synchronize(w, a, request)
      case Ok(answer) => r == Ok(answer.response) && Holds(w, database.Value(), answer.after)
      case Err(error) => r == Err(error) && Holds(w, database.Value(), a)
  {
    hide *;
    LimitsAreNatural(w);
    RequestCheckIsValidRequest(request, w.limits);
    var valid := AssertSyncRequest(request, Some(w.limits));
    if valid.Fail? {
      RequestFails(w, a, request);
      return Err(valid.error);
    }
    StreamCreated(w, database.Value(), a);
    database.EnsureStream(w.initial);
    ghost var db := database.Value();
    ValueIs(database);
    var initialHead, state := database.stream.value.head, database.stream.value.state;
    StreamIsTheirs(w, db, a);
    if request.baseSequence > initialHead {
      BaseFails(w, a, request);
      return Err(UnknownBase(request.baseSequence, initialHead));
    }
    var head := initialHead;
    var decisions: seq<Decision> := [];
    var statements: seq<Statement> := [];
    StreamReadKeeps(w, db, a, request, 0, 0);
    NothingInserted(w, a, request, state);
    while |decisions| < |request.proposals|
      invariant database.Value() == db
      invariant WorkInv(w, a, Work(request, 0, initialHead, head, state, decisions, statements), 0)
      invariant Future(w, a, a, Work(request, 0, initialHead, head, state, decisions, statements))
      invariant |decisions| <= |request.proposals|
      decreases |request.proposals| - |decisions|
    {
      ghost var work := Work(request, 0, initialHead, head, state, decisions, statements);
      WorkParts(w, a, work, 0);
      var p := request.proposals[|decisions|];
      var existing := ReadStoredDecision(database.Value(), p);
      if existing.Err? {
        ReadErrorIsTheirs(w, db, a, work, 0, existing.error);
        ErrorIsTheirs(w, a, request, existing.error);
        return Err(existing.error);
      }
      if existing.value.Some? {
        FoundIsRemembered(w, db, a, p, existing.value.value);
        FoundKeeps(w, a, work, existing.value.value, 0);
        SameStatements(w, a, work, existing.value.value);
        decisions := decisions + [existing.value.value];
        continue;
      }
      if !PositionAvailable(database.Value(), p) {
        ReadErrorIsTheirs(w, db, a, work, 0, ClientSequenceConflict(p.clientId, p.clientSequence));
        ErrorIsTheirs(w, a, request, ClientSequenceConflict(p.clientId, p.clientSequence));
        return Err(ClientSequenceConflict(p.clientId, p.clientSequence));
      }
      JudgedKeeps(w, a, work, 0);
      NotThereIsFree(w, db, a, work, p);
      JudgeSteps(w.log, work, p);
      var draft := w.log.decide(state, p);
      match draft {
        case Reject(reason) =>
          var d := Rejected(p.operationId, reason);
          decisions := decisions + [d];
          statements := statements + [InsertDecision(Store(p, d))];
        case Accept(operation) =>
          var sequence := head + 1;
          state := w.log.apply(state, operation);
          head := sequence;
          var d := Accepted(p.operationId, sequence, operation);
          decisions := decisions + [d];
          statements := statements + [InsertDecision(Store(p, d)), InsertEntry(Commit(p, sequence, operation))];
      }
    }
    ghost var work := Work(request, 0, initialHead, head, state, decisions, statements);
    if statements != [] {
      ghost var c := CommitIsTheirs(w, db, a, work, 0);
      BatchIs(work);
      var committed := database.Batch(statements + [UpdateStream(initialHead, head, state)]);
      if committed.Fail? {
        return Err(CommitConflict);
      }
    } else {
      ReadOnlyIsTheirs(w, db, a, work, 0);
    }
    var response := PageResponse(database.Value(), request, w.limits, head, decisions);
    valid := AssertSyncResponse(response, Some(w.limits));
    match valid {
      case Fail(error) => return Err(error);
      case Pass => return Ok(response);
    }
  }

  lemma ValueIs(database: D1Database)
    ensures database.Value().stream == database.stream
  {
  }

  lemma RequestFails(w: World, a: Authority, request: Request)
    requires RequestCheck(request, w.limits).Fail? && 0 <= w.limits.maximumEntries
    ensures Synchronize(w, a, request) == Err(RequestCheck(request, w.limits).error)
  {
    hide RequestCheck;
  }

  lemma StreamIsTheirs(w: World, db: Db, a: Authority)
    requires Holds(w, db, a) && db.stream.Some?
    ensures db.stream.value == StreamRow(|a.log|, a.state)
  {
  }

  lemma BaseFails(w: World, a: Authority, request: Request)
    requires RequestCheck(request, w.limits).Pass? && 0 <= w.limits.maximumEntries && request.baseSequence > |a.log|
    ensures Synchronize(w, a, request) == Err(UnknownBase(request.baseSequence, |a.log|))
  {
    hide RequestCheck;
  }

  lemma NothingInserted(w: World, a: Authority, request: Request, state: State)
    requires Sound(w, a)
    ensures Future(w, a, a, Work(request, 0, |a.log|, |a.log|, state, [], []))
  {
    hide Coherent;
  }

  lemma SameStatements(w: World, a: Authority, work: Work, d: Decision)
    requires Future(w, a, a, work)
    ensures Future(w, a, a, Found(work, d)) && Found(work, d) == work.(decisions := work.decisions + [d])
  {
    hide Coherent, RowIds, RowSlots;
  }

  lemma JudgeSteps(interpreter: LogInterpreter, work: Work, p: Proposal)
    ensures Judge(interpreter, work, p) ==
      match interpreter.decide(work.state, p)
      case Reject(reason) =>
        work.(decisions := work.decisions + [Rejected(p.operationId, reason)],
              statements := work.statements + [InsertDecision(Store(p, Rejected(p.operationId, reason)))])
      case Accept(operation) =>
        var d := Accepted(p.operationId, work.head + 1, operation);
        work.(state := interpreter.apply(work.state, operation),
              head := work.head + 1,
              decisions := work.decisions + [d],
              statements := work.statements + [InsertDecision(Store(p, d)), InsertEntry(Commit(p, work.head + 1, operation))])
  {
  }

  lemma BatchIs(work: Work)
    ensures Batch(work) == work.statements + [UpdateStream(work.initialHead, work.head, work.state)]
  {
  }
}
