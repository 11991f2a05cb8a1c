/** Any number of authorities on one stream, their reads and batches interleaved in any way: every
    batch that commits is one request handled by the in-memory authority at that moment, every batch
    that aborts changes nothing, and every answer is honest. */
module D1Runs {
  import opened Protocol
  import opened Validators
  import opened LogServer
  import opened D1Tables
  import opened D1Authority

  /* ---- A committing batch ---- */

  /** Rows that a batch could insert were not there, and rows that were there stay. */
  lemma {:induction false} InsertsWereFree(db: Db, statements: seq<Statement>)
    requires InsertsOnly(statements) && ExecBatch(db, statements).Ok?
    ensures db.decisions.Keys !! RowIds(statements)
    ensures forall slot | slot in RowSlots(statements) :: !SlotTaken(db, slot)
    ensures var after := ExecBatch(db, statements).value;
      && after.stream == db.stream
      && (forall id | id in db.decisions :: id in after.decisions && after.decisions[id] == db.decisions[id])
      && (forall slot | SlotTaken(db, slot) :: SlotTaken(after, slot))
  {
    if statements != [] {
      var init, s := statements[..|statements| - 1], statements[|statements| - 1];
      assert statements == init + [s];
      AddStatement(init, s);
      InsertsWereFree(db, init);
      var before := ExecBatch(db, init).value;
      hide InsertsOnly, RowIds, RowSlots, ExecBatch, EntryClashes;
      var after := Write(before, s);
      forall slot | SlotTaken(db, slot) ensures SlotTaken(after, slot) {
        var id :| id in db.decisions && SlotOfStored(db.decisions[id]) == slot;
        assert id in after.decisions && SlotOfStored(after.decisions[id]) == slot;
      }
      ExecLast(db, statements);
      return;
    }
  }

  lemma ExecLast(db: Db, statements: seq<Statement>)
    requires statements != [] && ExecBatch(db, statements).Ok?
    ensures var before := ExecBatch(db, statements[..|statements| - 1]);
      && before.Ok?
      && !Violates(before.value, statements[|statements| - 1])
      && ExecBatch(db, statements) == Ok(Write(before.value, statements[|statements| - 1]))
  {
  }

  /** The rows a batch writes are the rows of what it publishes. */
  lemma {:induction false} WrittenHolds(db: Db, a: Authority, statements: seq<Statement>)
    requires HoldsRows(db, a) && InsertsOnly(statements)
    requires Numbered(Publish(a, statements).log)
    ensures HoldsRows(WriteAll(db, statements), Publish(a, statements))
    ensures WriteAll(db, statements).stream == db.stream
  {
    if statements != [] {
      var init, s := statements[..|statements| - 1], statements[|statements| - 1];
      assert statements == init + [s];
      AddStatement(init, s);
      PublishFacts(a, init);
      var before, after := Publish(a, init), Publish(a, statements);
      assert after == PublishOne(before, s);
      assert after.log == before.log + (if s.InsertEntry? then [s.entry] else []);
      NumberedPrefix(before.log, after.log);
      WrittenHolds(db, a, init);
      hide InsertsOnly, RowIds, RowSlots, EntriesOf, Publish, WriteAll;
      OneMoreWritten(db, a, init, s);
      return;
    }
  }

  lemma OneMoreWritten(db: Db, a: Authority, init: seq<Statement>, s: Statement)
    requires HoldsRows(WriteAll(db, init), Publish(a, init)) && !s.UpdateStream?
    requires WriteAll(db, init).stream == db.stream
    requires s.InsertEntry? ==> s.entry.sequence == |Publish(a, init).log| + 1
    ensures HoldsRows(WriteAll(db, init + [s]), Publish(a, init + [s]))
    ensures WriteAll(db, init + [s]).stream == db.stream
  {
    assert (init + [s])[..|init|] == init;
  }

  lemma BatchFoundItsFuture(w: World, db: Db, a: Authority, work: Work)
    requires Coherent(w, a) && Holds(w, db, a) && db.stream.Some? && InsertsOnly(work.statements)
    requires ExecBatch(db, Batch(work)).Ok?
    ensures Future(w, a, a, work)
    ensures ExecBatch(db, Batch(work)).value
         == WriteAll(db, work.statements).(stream := Some(StreamRow(work.head, work.state)))
  {
    hide Coherent, RowIds, RowSlots, EntryClashes;
    var batch := Batch(work);
    ExecLast(db, batch);
    assert batch[..|batch| - 1] == work.statements;
    InsertsWereFree(db, work.statements);
    BatchWritesAll(db, work.statements);
    CoherentParts(w, a);
    forall slot | slot in RowSlots(work.statements) ensures slot !in a.positions {
      SlotTakenIsPosition(w, db, a, slot);
    }
  }

  /** A batch that commits decides as the in-memory authority does at that moment, and the tables
      then hold the authority that it leaves. */
  lemma CommitDecides(w: World, db: Db, a: Authority, work: Work) returns (c: Authority)
    requires Coherent(w, a) && Holds(w, db, a) && db.stream.Some?
    requires InsertsOnly(work.statements) && work.head == work.initialHead + |EntriesOf(work.statements)|
    requires Plan(w, a, work) && |work.decisions| == |work.request.proposals| && ValidBatch(work.request.proposals)
    requires ExecBatch(db, Batch(work)).Ok?
    ensures DecideAll(w.log, a, work.request.proposals) == Ok(Rulings(c, work.decisions))
    ensures |a.log| == work.initialHead && |c.log| == work.head
    ensures Holds(w, ExecBatch(db, Batch(work)).value, c) && ExecBatch(db, Batch(work)).value.stream.Some?
  {
    hide *;
    BatchFoundItsFuture(w, db, a, work);
    c := Running(a, work);
    PlanMeans(w, a, a, work);
    BatchIsValid(work.request.proposals);
    DecideAllKeepsCoherence(w, a, work.request.proposals);
    CoherentParts(w, c);
    PublishFacts(a, work.statements);
    RunningIs(a, work);
    HoldsParts(w, db, a);
    WrittenHolds(db, a, work.statements);
    HoldsFromParts(w, db, a, work);
  }

  lemma PlanMeans(w: World, a: Authority, b: Authority, work: Work)
    requires Plan(w, a, work) && Future(w, a, b, work) && |work.decisions| == |work.request.proposals|
    ensures DecideAll(w.log, b, work.request.proposals) == Ok(Rulings(Running(b, work), work.decisions))
    ensures |b.log| == work.initialHead
  {
    hide Coherent, RowIds, RowSlots, Running, DecideAll;
    assert Decides(w, b, work);
    assert work.request.proposals[..|work.decisions|] == work.request.proposals;
  }

  lemma BatchIsValid(ps: seq<Proposal>)
    requires ValidBatch(ps)
    ensures forall p | p in ps :: ValidIdentity(p.operationId, p.clientId, p.clientSequence, p.intentHash)
  {
  }

  lemma RunningIs(a: Authority, work: Work)
    ensures Running(a, work) == Publish(a, work.statements).(state := work.state)
    ensures Running(a, work).log == Publish(a, work.statements).log
  {
  }

  lemma HoldsParts(w: World, db: Db, a: Authority)
    requires Holds(w, db, a)
    ensures HoldsRows(db, a)
  {
  }

  lemma HoldsFromParts(w: World, db: Db, a: Authority, work: Work)
    requires HoldsRows(WriteAll(db, work.statements), Publish(a, work.statements))
    requires |Publish(a, work.statements).log| == work.head
    ensures Holds(w, WriteAll(db, work.statements).(stream := Some(StreamRow(work.head, work.state))), Running(a, work))
  {
  }

  /* ---- The invariant ---- */

  ghost predicate WorkInv(w: World, a: Authority, work: Work, retries: nat) {
    && ValidRequest(work.request, w.limits)
    && work.attempt <= retries
    && work.request.baseSequence <= work.initialHead <= |a.log|
    && |work.decisions| <= |work.request.proposals|
    && InsertsOnly(work.statements) && Separate(work.statements)
    && work.head == work.initialHead + |EntriesOf(work.statements)|
    && RowIds(work.statements) <= ProposalIds(work.request.proposals[..|work.decisions|])
    && RowSlots(work.statements) <= Slots(work.request.proposals[..|work.decisions|])
    && (work.statements == [] ==> Answers(a, work.request.proposals[..|work.decisions|], work.decisions))
    && Plan(w, a, work)
  }

  /** The in-memory authority, on b, gives this very answer and becomes c; c has happened. */
  ghost predicate AnsweredBy(w: World, request: Request, response: Response, b: Authority, c: Authority, a: Authority) {
    && Sound(w, b) && Sound(w, c) && Extends(c, a)
    && 1 <= w.limits.maximumEntries
    && Synchronize(w, b, request) == Ok(Answer(c, response))
  }

  /** The response is that of one in-memory step, taken at some moment up to now. */
  ghost predicate Linearized(w: World, request: Request, response: Response, a: Authority) {
    exists b, c :: AnsweredBy(w, request, response, b, c, a)
  }

  ghost predicate PagingInv(w: World, a: Authority, request: Request, head: int, ds: seq<Decision>, committed: bool) {
    && ValidRequest(request, w.limits)
    && 1 <= w.limits.maximumEntries
    && 0 <= request.baseSequence <= head <= |a.log|
    && Answers(a, request.proposals, ds)
    && (committed ==> Linearized(w, request, Respond(a.log[..head], request, w.limits, ds), a))
  }

  ghost predicate DoneInv(w: World, a: Authority, request: Request, response: Response, committed: bool) {
    && ValidRequest(request, w.limits)
    && response.requestedBase == request.baseSequence
    && Honest(response, a)
    && Answers(a, request.proposals, response.decisions)
    && (committed ==> Linearized(w, request, response, a))
  }

  ghost predicate ActorInv(w: World, created: bool, a: Authority, actor: Actor, retries: nat) {
    match actor
    case Idle => true
    case Opening(request, attempt) => ValidRequest(request, w.limits) && attempt <= retries
    case Reading(request, attempt) => ValidRequest(request, w.limits) && attempt <= retries && created
    case Looking(work) => WorkInv(w, a, work, retries) && |work.decisions| < |work.request.proposals| && created
    case Claiming(work) => WorkInv(w, a, work, retries) && |work.decisions| < |work.request.proposals| && created
    case Committing(work) => WorkInv(w, a, work, retries) && |work.decisions| == |work.request.proposals| && created
    case Paging(request, head, ds, committed) => PagingInv(w, a, request, head, ds, committed)
    case Done(request, Ok(response), committed) => DoneInv(w, a, request, response, committed)
    case Done(request, Err(_), committed) => !committed
  }

  ghost predicate Inv(w: World, s: System, a: Authority) {
    && Sound(w, a)
    && Holds(w, s.db, a)
    && forall id | id in s.actors :: ActorInv(w, s.db.stream.Some?, a, s.actors[id], s.maximumCommitRetries)
  }

  lemma LinearizedStays(w: World, request: Request, response: Response, a: Authority, c: Authority)
    requires Linearized(w, request, response, a) && Extends(a, c)
    ensures Linearized(w, request, response, c)
  {
    hide Sound, Synchronize, Extends;
    var b, d :| AnsweredBy(w, request, response, b, d, a);
    ExtendsTransitive(d, a, c);
    assert AnsweredBy(w, request, response, b, d, c);
  }

  lemma WorkInvStays(w: World, a: Authority, c: Authority, work: Work, retries: nat)
    requires WorkInv(w, a, work, retries) && Extends(a, c)
    ensures WorkInv(w, c, work, retries)
  {
    hide Plan, Answers, ValidRequest, InsertsOnly, RowIds, RowSlots, ProposalIds, Slots, EntriesOf;
    PlanStays(w, a, c, work);
    if work.statements == [] {
      AnswersStay(a, c, work.request.proposals[..|work.decisions|], work.decisions);
    }
  }

  /** What is said of a call stays true while others commit. */
  lemma ActorInvStays(w: World, created: bool, a: Authority, actor: Actor, retries: nat, c: Authority, now: bool)
    requires ActorInv(w, created, a, actor, retries) && Extends(a, c) && (created ==> now)
    ensures ActorInv(w, now, c, actor, retries)
  {
    hide WorkInv, Linearized, ValidBatch, Answers, Honest;
    match actor
    case Looking(work) => WorkInvStays(w, a, c, work, retries);
    case Claiming(work) => WorkInvStays(w, a, c, work, retries);
    case Committing(work) => WorkInvStays(w, a, c, work, retries);
    case Paging(request, head, ds, committed) =>
      AnswersStay(a, c, request.proposals, ds);
      assert c.log[..head] == c.log[..|a.log|][..head] == a.log[..head];
      if committed {
        LinearizedStays(w, request, Respond(a.log[..head], request, w.limits, ds), a, c);
      }
    case Done(request, Ok(response), committed) =>
      AnswersStay(a, c, request.proposals, response.decisions);
      HonestStaysHonest(response, a, c);
      if committed {
        LinearizedStays(w, request, response, a, c);
      }
    case _ =>
  }

  /* ---- One access of one call ---- */

  lemma ProceedKeeps(w: World, a: Authority, work: Work, retries: nat)
    requires WorkInv(w, a, work, retries) && 1 <= w.limits.maximumEntries
    ensures ActorInv(w, true, a, Proceed(work), retries)
  {
    hide Plan, Answers, RowIds, RowSlots, ProposalIds, Slots;
    assert |work.decisions| == |work.request.proposals| ==>
        work.request.proposals[..|work.decisions|] == work.request.proposals;
  }

  lemma StreamReadKeeps(w: World, db: Db, a: Authority, request: Request, attempt: nat, retries: nat)
    requires Sound(w, a) && Holds(w, db, a) && db.stream.Some? && ValidRequest(request, w.limits) && attempt <= retries
    requires request.baseSequence <= db.stream.value.head
    ensures WorkInv(w, a, Work(request, attempt, db.stream.value.head, db.stream.value.head, db.stream.value.state, [], []), retries)
  {
    hide Coherent, HoldsRows, ValidRequest;
    PlanStarts(w, a, Work(request, attempt, db.stream.value.head, db.stream.value.head, db.stream.value.state, [], []));
  }

  lemma FoundIsRemembered(w: World, db: Db, a: Authority, p: Proposal, d: Decision)
    requires Sound(w, a) && Holds(w, db, a) && ReadStoredDecision(db, p) == Ok(Some(d))
    ensures Remembers(a, p) && a.decisions[p.operationId].decision == d
  {
    assert StoredCoherent(a, p.operationId);
  }

  lemma PrefixGrows(ps: seq<Proposal>, i: nat)
    requires i < |ps|
    ensures ps[..i + 1] == ps[..i] + [ps[i]]
    ensures ProposalIds(ps[..i + 1]) == ProposalIds(ps[..i]) + {ps[i].operationId}
    ensures Slots(ps[..i + 1]) == Slots(ps[..i]) + {SlotOf(ps[i])}
  {
    assert ps[..i + 1] == ps[..i] + [ps[i]];
  }

  lemma FoundKeeps(w: World, a: Authority, work: Work, d: Decision, retries: nat)
    requires WorkInv(w, a, work, retries) && |work.decisions| < |work.request.proposals|
    requires var p := work.request.proposals[|work.decisions|]; Remembers(a, p) && a.decisions[p.operationId].decision == d
    ensures WorkInv(w, a, Found(work, d), retries)
  {
    hide Plan, RowIds, RowSlots, ProposalIds, Slots, EntriesOf, InsertsOnly, ValidRequest, Remembers, Answers;
    var ps, i := work.request.proposals, |work.decisions|;
    PlanKnown(w, a, work, d);
    PrefixGrows(ps, i);
    if work.statements == [] {
      ExtendsItself(a);
      AnswersExtend(a, a, ps[..i], work.decisions, ps[i]);
    }
  }

  /** Later proposals of a valid batch share nothing with earlier ones. */
  lemma NextSharesNothing(ps: seq<Proposal>, i: nat)
    requires ValidBatch(ps) && i < |ps|
    ensures ps[i].operationId !in ProposalIds(ps[..i]) && SlotOf(ps[i]) !in Slots(ps[..i])
  {
  }

  lemma JudgedKeeps(w: World, a: Authority, work: Work, retries: nat)
    requires WorkInv(w, a, work, retries) && |work.decisions| < |work.request.proposals|
    ensures WorkInv(w, a, Judge(w.log, work, work.request.proposals[|work.decisions|]), retries)
  {
    hide Plan, RowIds, RowSlots, ProposalIds, Slots, EntriesOf, InsertsOnly, ValidBatch, Judge, Answers;
    var ps, i := work.request.proposals, |work.decisions|;
    NextSharesNothing(ps, i);
    PrefixGrows(ps, i);
    JudgeShape(w.log, work, ps[i]);
    PlanJudged(w, a, work);
  }

  /** The commit, when the batch succeeds. */
  lemma CommitKeeps(w: World, db: Db, a: Authority, work: Work, retries: nat) returns (c: Authority)
    requires Lawful(w) && Sound(w, a) && Holds(w, db, a) && db.stream.Some?
    requires WorkInv(w, a, work, retries) && |work.decisions| == |work.request.proposals|
    requires |a.log| + |work.request.proposals| <= MAX_SAFE
    requires ExecBatch(db, Batch(work)).Ok?
    ensures Sound(w, c) && Extends(a, c) && Holds(w, ExecBatch(db, Batch(work)).value, c) && |c.log| == work.head
    ensures ExecBatch(db, Batch(work)).value.stream.Some?
    ensures 1 <= w.limits.maximumEntries && 0 <= work.request.baseSequence <= |c.log| && 0 <= work.request.maximumEntries
    ensures Synchronize(w, a, work.request) == Ok(Answer(c, Respond(c.log, work.request, w.limits, work.decisions)))
    ensures PagingInv(w, c, work.request, work.head, work.decisions, true)
  {
    hide *;
    WorkParts(w, a, work, retries);
    SoundMeans(w, a);
    LimitsAreNatural(w);
    c := CommitDecides(w, db, a, work);
    DecidedLogGrows(w.log, a, work.request.proposals);
    SelfCheckFailsOnlyOnOverflow(w, a, work.request);
    SynchronizeKeepsSound(w, a, work.request);
    AnswerIs(w, a, work.request, c, work.decisions);
    CommittedPaging(w, a, c, work);
  }

  lemma WorkParts(w: World, a: Authority, work: Work, retries: nat)
    requires WorkInv(w, a, work, retries)
    ensures ValidRequest(work.request, w.limits) && ValidBatch(work.request.proposals)
    ensures 0 <= work.request.baseSequence <= work.initialHead <= |a.log| && 1 <= work.request.maximumEntries
    ensures InsertsOnly(work.statements) && work.head == work.initialHead + |EntriesOf(work.statements)|
    ensures Plan(w, a, work)
  {
    hide Plan, ValidBatch, Answers, InsertsOnly, EntriesOf, RowIds, RowSlots;
  }

  lemma AnswerIs(w: World, a: Authority, request: Request, c: Authority, ds: seq<Decision>)
    requires 1 <= w.limits.maximumEntries && Synchronize(w, a, request).Ok?
    requires 0 <= request.baseSequence <= |c.log| && 0 <= request.maximumEntries
    requires DecideAll(w.log, a, request.proposals) == Ok(Rulings(c, ds))
    ensures Synchronize(w, a, request) == Ok(Answer(c, Respond(c.log, request, w.limits, ds)))
    ensures Respond(c.log, request, w.limits, ds).decisions == ds
  {
    hide ResponseCheck, RequestCheck, DecideAll;
  }

  lemma CommittedPaging(w: World, a: Authority, c: Authority, work: Work)
    requires Sound(w, a) && Sound(w, c) && 1 <= w.limits.maximumEntries && ValidRequest(work.request, w.limits)
    requires 0 <= work.request.baseSequence <= |c.log| == work.head && 0 <= work.request.maximumEntries
    requires Answers(c, work.request.proposals, work.decisions)
    requires Synchronize(w, a, work.request) == Ok(Answer(c, Respond(c.log, work.request, w.limits, work.decisions)))
    ensures PagingInv(w, c, work.request, work.head, work.decisions, true)
  {
    hide Sound, Synchronize, Answers, Respond;
    ExtendsItself(c);
    assert c.log[..work.head] == c.log;
    assert AnsweredBy(w, work.request, Respond(c.log, work.request, w.limits, work.decisions), a, c, c);
  }

  /** The page that a call reads, though read later, is the canonical slice below its head. */
  lemma PageIsRespond(w: World, db: Db, a: Authority, request: Request, head: int, ds: seq<Decision>)
    requires Holds(w, db, a) && 0 <= request.baseSequence <= head <= |a.log|
    requires 1 <= w.limits.maximumEntries && 1 <= request.maximumEntries
    ensures PageResponse(db, request, w.limits, head, ds) == Respond(a.log[..head], request, w.limits, ds)
  {
    var maximum := Min(request.maximumEntries, w.limits.maximumEntries);
    PageIsSlice(w, db, a, request.baseSequence, head, maximum);
    assert a.log[..head][request.baseSequence..Min(request.baseSequence + maximum, head)]
        == a.log[request.baseSequence..Min(request.baseSequence + maximum, head)];
  }

  /** A response that passes its check is honest, whatever happened between its reads. */
  lemma CheckedPageIsHonest(w: World, a: Authority, request: Request, head: int, ds: seq<Decision>)
    requires Sound(w, a) && ValidRequest(request, w.limits) && 1 <= w.limits.maximumEntries
    requires 0 <= request.baseSequence <= head <= |a.log| && Answers(a, request.proposals, ds)
    requires ResponseCheck(Respond(a.log[..head], request, w.limits, ds), Some(w.limits)).Pass?
    ensures Honest(Respond(a.log[..head], request, w.limits, ds), a)
  {
    var response := Respond(a.log[..head], request, w.limits, ds);
    ResponseCheckIsValidResponse(response, Some(w.limits));
    hide LogCoherent, PositionsCoherent, DecisionsCoherent, ResponseCheck, Respond;
    AnswersAreHonestDecisions(a, request.proposals, ds);
    RespondIs(a, request, w.limits, head, ds);
    forall i | 0 <= i < |ds| ensures HonestDecision(ds[i], head, a) {
      assert HonestDecision(ds[i], |a.log|, a);
      assert AgreesWithPage(ds[i], response);
    }
  }

  lemma RespondIs(a: Authority, request: Request, limits: Limits, head: int, ds: seq<Decision>)
    requires 0 <= request.baseSequence <= head <= |a.log| && 1 <= request.maximumEntries && 1 <= limits.maximumEntries
    ensures var response := Respond(a.log[..head], request, limits, ds);
      && response.requestedBase == request.baseSequence && response.head == head && response.decisions == ds
      && request.baseSequence <= response.through <= head
      && response.entries == a.log[request.baseSequence..response.through]
      && (request.baseSequence < head ==> request.baseSequence < response.through)
  {
    var base, maximum := request.baseSequence, Min(request.maximumEntries, limits.maximumEntries);
    var through := Min(base + maximum, head);
    SliceOfPrefix(a.log, head, base, through);
    assert |a.log[..head]| == head && |a.log[..head][base..through]| == through - base;
    assert Respond(a.log[..head], request, limits, ds) == Response(base, through, head, a.log[base..through], ds);
  }

  lemma SliceOfPrefix<T>(xs: seq<T>, head: int, from: int, to: int)
    requires 0 <= from <= to <= head <= |xs|
    ensures xs[..head][from..to] == xs[from..to]
  {
  }

  lemma LinearizedPasses(w: World, request: Request, response: Response, a: Authority)
    requires Linearized(w, request, response, a)
    ensures ResponseCheck(response, Some(w.limits)).Pass?
  {
    hide Sound, Extends, ResponseCheck, RequestCheck, DecideAll;
    var b, c :| AnsweredBy(w, request, response, b, c, a);
  }

  lemma PageKeeps(w: World, db: Db, a: Authority, request: Request, head: int, ds: seq<Decision>, committed: bool)
    requires Sound(w, a) && Holds(w, db, a) && PagingInv(w, a, request, head, ds, committed)
    ensures var response := PageResponse(db, request, w.limits, head, ds);
      && (ResponseCheck(response, Some(w.limits)).Pass? ==> DoneInv(w, a, request, response, committed))
      && (committed ==> ResponseCheck(response, Some(w.limits)).Pass?)
  {
    hide *;
    PagingParts(w, a, request, head, ds, committed);
    PageIsRespond(w, db, a, request, head, ds);
    var response := Respond(a.log[..head], request, w.limits, ds);
    RespondIs(a, request, w.limits, head, ds);
    if committed {
      LinearizedPasses(w, request, response, a);
    }
    if ResponseCheck(response, Some(w.limits)).Pass? {
      CheckedPageIsHonest(w, a, request, head, ds);
      DoneFromParts(w, a, request, response, committed);
    }
  }

  lemma PagingParts(w: World, a: Authority, request: Request, head: int, ds: seq<Decision>, committed: bool)
    requires PagingInv(w, a, request, head, ds, committed)
    ensures ValidRequest(request, w.limits) && 1 <= w.limits.maximumEntries && 1 <= request.maximumEntries
    ensures 0 <= request.baseSequence <= head <= |a.log| && Answers(a, request.proposals, ds)
    ensures committed ==> Linearized(w, request, Respond(a.log[..head], request, w.limits, ds), a)
  {
    hide ValidBatch, Answers, Linearized, Respond;
  }

  lemma DoneFromParts(w: World, a: Authority, request: Request, response: Response, committed: bool)
    requires ValidRequest(request, w.limits) && response.requestedBase == request.baseSequence
    requires Honest(response, a) && Answers(a, request.proposals, response.decisions)
    requires committed ==> Linearized(w, request, response, a)
    ensures DoneInv(w, a, request, response, committed)
  {
    hide ValidRequest, Honest, Answers, Linearized;
  }

  /* ---- Steps ---- */

  /** Only known calls move, and the log stays within the safe integers. */
  ghost predicate Allowed(s: System, a: Authority, step: Step) {
    && step.actor in s.actors
    && (step.Access? && s.actors[step.actor].Committing? ==>
          |a.log| + |s.actors[step.actor].work.request.proposals| <= MAX_SAFE)
  }

  predicate Commits(s: System, step: Step)
    requires step.actor in s.actors
  {
    && step.Access?
    && s.actors[step.actor].Committing?
    && ExecBatch(s.db, Batch(s.actors[step.actor].work)).Ok?
  }

  /** A step that commits is one in-memory step on the authority a; every other step leaves the log
      and the decisions alone, and at most creates the stream's row. */
  ghost predicate Refines(w: World, s: System, step: Step, t: System, a: Authority, c: Authority)
    requires step.actor in s.actors && 1 <= w.limits.maximumEntries
  {
    if Commits(s, step) then
      var work := s.actors[step.actor].work;
      && Synchronize(w, a, work.request).Ok?
      && Synchronize(w, a, work.request).value.after == c
      && Synchronize(w, a, work.request).value.response.decisions == work.decisions
      && step.actor in t.actors && t.actors[step.actor] == Paging(work.request, |c.log|, work.decisions, true)
    else
      c == a && (t.db == s.db || t.db == WithStream(s.db, w.initial))
  }

  lemma CommitStep(w: World, s: System, a: Authority, id: string) returns (c: Authority)
    requires Lawful(w) && Inv(w, s, a) && Allowed(s, a, Access(id)) && Commits(s, Access(id))
    ensures 1 <= w.limits.maximumEntries
    ensures var t := Next(w, s, Access(id)); Inv(w, t, c) && Refines(w, s, Access(id), t, a, c) && Extends(a, c)
  {
    hide *;
    var work := CommittingParts(w, s, a, id);
    c := CommitKeeps(w, s.db, a, work, s.maximumCommitRetries);
    CommitMeans(w, s, a, id, work, c);
    OthersStay(w, s, a, id, Next(w, s, Access(id)), c);
  }

  lemma CommittingParts(w: World, s: System, a: Authority, id: string) returns (work: Work)
    requires Inv(w, s, a) && Allowed(s, a, Access(id)) && Commits(s, Access(id))
    ensures id in s.actors && s.actors[id] == Committing(work) && s.db.stream.Some?
    ensures Sound(w, a) && Holds(w, s.db, a) && WorkInv(w, a, work, s.maximumCommitRetries)
    ensures |work.decisions| == |work.request.proposals| && |a.log| + |work.request.proposals| <= MAX_SAFE
    ensures ExecBatch(s.db, Batch(work)).Ok?
  {
    hide Sound, Holds, WorkInv, ExecBatch, Batch;
    work := s.actors[id].work;
  }

  lemma CommitMeans(w: World, s: System, a: Authority, id: string, work: Work, c: Authority)
    requires id in s.actors && s.actors[id] == Committing(work) && 1 <= w.limits.maximumEntries
    requires ExecBatch(s.db, Batch(work)).Ok? && ExecBatch(s.db, Batch(work)).value.stream.Some?
    requires 0 <= work.request.baseSequence <= |c.log| && 0 <= work.request.maximumEntries
    requires Synchronize(w, a, work.request) == Ok(Answer(c, Respond(c.log, work.request, w.limits, work.decisions)))
    requires PagingInv(w, c, work.request, work.head, work.decisions, true) && |c.log| == work.head
    ensures var t := Next(w, s, Access(id));
      && t == s.(db := ExecBatch(s.db, Batch(work)).value,
                 actors := s.actors[id := Paging(work.request, work.head, work.decisions, true)])
      && Refines(w, s, Access(id), t, a, c)
      && ActorInv(w, true, c, t.actors[id], s.maximumCommitRetries)
  {
    hide ExecBatch, Synchronize, PagingInv, Batch;
  }

  lemma OthersStay(w: World, s: System, a: Authority, id: string, t: System, c: Authority)
    requires Inv(w, s, a) && id in s.actors && Extends(a, c)
    requires Sound(w, c) && Holds(w, t.db, c) && (s.db.stream.Some? ==> t.db.stream.Some?)
    requires t.maximumCommitRetries == s.maximumCommitRetries && id in t.actors && t.actors == s.actors[id := t.actors[id]]
    requires ActorInv(w, t.db.stream.Some?, c, t.actors[id], s.maximumCommitRetries)
    ensures Inv(w, t, c)
  {
    hide Sound, Holds, ActorInv, Extends;
    forall j | j in t.actors ensures ActorInv(w, t.db.stream.Some?, c, t.actors[j], t.maximumCommitRetries) {
      if j != id {
        ActorInvStays(w, s.db.stream.Some?, a, s.actors[j], s.maximumCommitRetries, c, t.db.stream.Some?);
      }
    }
  }

  /** Creating the stream's row makes the tables hold what they stood for already. */
  lemma StreamCreated(w: World, db: Db, a: Authority)
    requires Holds(w, db, a)
    ensures Holds(w, WithStream(db, w.initial), a) && WithStream(db, w.initial).stream.Some?
  {
  }

  /** Every access but a successful commit. */
  lemma TurnKeeps(w: World, db: Db, a: Authority, actor: Actor, retries: nat)
    requires Lawful(w) && Sound(w, a) && Holds(w, db, a) && ActorInv(w, db.stream.Some?, a, actor, retries)
    requires actor.Committing? ==> ExecBatch(db, Batch(actor.work)).Err?
    ensures var turned := Turn(w, db, actor, retries);
      && Holds(w, turned.db, a) && (db.stream.Some? ==> turned.db.stream.Some?)
      && (turned.db == db || turned.db == WithStream(db, w.initial))
      && ActorInv(w, turned.db.stream.Some?, a, turned.actor, retries)
  {
    hide Lawful, Sound, Holds, WorkInv, PagingInv, DoneInv, WithStream, Proceed, Judge, ReadStoredDecision, PageResponse,
         ResponseCheck, ValidRequest, ExecBatch, PositionAvailable;
    LimitsAreNatural(w);
    match actor
    case Opening(request, attempt) => StreamCreated(w, db, a);
    case Reading(request, attempt) =>
      if request.baseSequence <= db.stream.value.head {
        StreamReadKeeps(w, db, a, request, attempt, retries);
        ProceedKeeps(w, a, Work(request, attempt, db.stream.value.head, db.stream.value.head, db.stream.value.state, [], []), retries);
      }
    case Looking(work) =>
      var p := work.request.proposals[|work.decisions|];
      if ReadStoredDecision(db, p).Ok? && ReadStoredDecision(db, p).value.Some? {
        var d := ReadStoredDecision(db, p).value.value;
        FoundIsRemembered(w, db, a, p, d);
        FoundKeeps(w, a, work, d, retries);
        ProceedKeeps(w, a, Found(work, d), retries);
      }
    case Claiming(work) =>
      var p := work.request.proposals[|work.decisions|];
      JudgedKeeps(w, a, work, retries);
      ProceedKeeps(w, a, Judge(w.log, work, p), retries);
    case Committing(work) => RetryKeeps(w, db.stream.Some?, a, work, retries);
    case Paging(request, head, ds, committed) => PageKeeps(w, db, a, request, head, ds, committed);
    case _ =>
  }

  lemma RetryKeeps(w: World, created: bool, a: Authority, work: Work, retries: nat)
    requires WorkInv(w, a, work, retries)
    ensures ActorInv(w, created, a, Retry(work, retries), retries)
  {
    hide Plan, InsertsOnly, RowIds, RowSlots, ProposalIds, Slots, Answers;
  }

  lemma OtherStep(w: World, s: System, a: Authority, step: Step)
    requires Lawful(w) && Inv(w, s, a) && Allowed(s, a, step) && !Commits(s, step)
    ensures 1 <= w.limits.maximumEntries
    ensures var t := Next(w, s, step); Inv(w, t, a) && Refines(w, s, step, t, a, a)
  {
    hide Lawful, Sound, Holds, WorkInv, PagingInv, DoneInv, Turn, Retry, WithStream, RequestCheck, ValidRequest, ExecBatch;
    LimitsAreNatural(w);
    ExtendsItself(a);
    var id, actor, t := step.actor, s.actors[step.actor], Next(w, s, step);
    match step
    case Call(_, request) =>
      RequestCheckIsValidRequest(request, w.limits);
    case Access(_) =>
      TurnKeeps(w, s.db, a, actor, s.maximumCommitRetries);
      OthersStay(w, s, a, id, t, a);
    case Locked(_) =>
      if actor.Committing? {
        RetryKeeps(w, s.db.stream.Some?, a, actor.work, s.maximumCommitRetries);
      }
  }

  /** Whatever access comes next, the tables go on standing for an authority that the in-memory
      server could have reached by one request, or by none. */
  lemma StepRefines(w: World, s: System, a: Authority, step: Step) returns (c: Authority)
    requires Lawful(w) && Inv(w, s, a) && Allowed(s, a, step)
    ensures 1 <= w.limits.maximumEntries
    ensures Inv(w, Next(w, s, step), c) && Refines(w, s, step, Next(w, s, step), a, c) && Extends(a, c)
  {
    hide *;
    AllowedParts(s, a, step);
    if Commits(s, step) {
      CommitsParts(s, step);
      c := CommitStep(w, s, a, step.actor);
    } else {
      OtherStep(w, s, a, step);
      ExtendsItself(a);
      c := a;
    }
  }

  lemma AllowedParts(s: System, a: Authority, step: Step)
    requires Allowed(s, a, step)
    ensures step.actor in s.actors
  {
  }

  lemma CommitsParts(s: System, step: Step)
    requires step.actor in s.actors && Commits(s, step)
    ensures step == Access(step.actor)
  {
    hide ExecBatch;
  }

  /* ---- Runs ---- */

  function Start(ids: set<string>, maximumCommitRetries: nat): System {
    System(EMPTY, map id | id in ids :: Idle, maximumCommitRetries)
  }

  /** A run in which the log never outgrows the safe integers. */
  ghost predicate IsRun(w: World, ids: set<string>, retries: nat, states: seq<System>, steps: seq<Step>) {
    && |states| == |steps| + 1
    && states[0] == Start(ids, retries)
    && forall i | 0 <= i < |steps| ::
         && steps[i].actor in states[i].actors
         && states[i + 1] == Next(w, states[i], steps[i])
         && Fits(states[i], steps[i])
  }

  predicate Fits(s: System, step: Step)
    requires step.actor in s.actors
  {
    step.Access? && s.actors[step.actor].Committing? ==>
      Size(s.db) + |s.actors[step.actor].work.request.proposals| <= MAX_SAFE
  }

  function Size(db: Db): int { if db.stream.None? then 0 else db.stream.value.head }

  /** The authorities follow the first n steps of the run, one for each state. */
  ghost predicate Follows(w: World, states: seq<System>, steps: seq<Step>, authorities: seq<Authority>, n: nat)
    requires 1 <= w.limits.maximumEntries
  {
    && n <= |steps| && |states| == |steps| + 1 && |authorities| == n + 1
    && (forall i | 0 <= i <= n :: Inv(w, states[i], authorities[i]))
    && (forall i | 0 <= i < n ::
          && steps[i].actor in states[i].actors
          && Refines(w, states[i], steps[i], states[i + 1], authorities[i], authorities[i + 1])
          && Extends(authorities[i], authorities[i + 1]))
  }

  /** Refinement over whole runs: for every interleaving there is a run of the in-memory authority,
      taking one step exactly where a batch commits. */
  lemma {:induction false} RunRefines(w: World, ids: set<string>, retries: nat, states: seq<System>, steps: seq<Step>, n: nat)
    returns (authorities: seq<Authority>)
    requires Lawful(w) && IsRun(w, ids, retries, states, steps) && n <= |steps|
    ensures 1 <= w.limits.maximumEntries
    ensures Follows(w, states, steps, authorities, n) && authorities[0] == Initial(w)
  {
    hide *;
    LimitsAreNatural(w);
    if n == 0 {
      authorities := [Initial(w)];
      StartFollows(w, ids, retries, states, steps);
    } else {
      var before := RunRefines(w, ids, retries, states, steps, n - 1);
      var c := NextAuthority(w, ids, retries, states, steps, before, n - 1);
      authorities := before + [c];
      OneMoreFollows(w, states, steps, before, c, n - 1);
    }
  }

  lemma StartFollows(w: World, ids: set<string>, retries: nat, states: seq<System>, steps: seq<Step>)
    requires 1 <= w.limits.maximumEntries && IsRun(w, ids, retries, states, steps)
    ensures Follows(w, states, steps, [Initial(w)], 0)
  {
    StartHolds(w, ids, retries);
    hide Inv, Refines, Extends, Next, Fits, Start;
  }

  lemma NextAuthority(w: World, ids: set<string>, retries: nat, states: seq<System>, steps: seq<Step>,
                      before: seq<Authority>, n: nat) returns (c: Authority)
    requires Lawful(w) && IsRun(w, ids, retries, states, steps) && n < |steps|
    requires 1 <= w.limits.maximumEntries && Follows(w, states, steps, before, n)
    ensures |states| == |steps| + 1 && |before| == n + 1
    ensures steps[n].actor in states[n].actors && Inv(w, states[n + 1], c)
    ensures Refines(w, states[n], steps[n], states[n + 1], before[n], c) && Extends(before[n], c)
  {
    hide Lawful, Inv, Next, Refines, Extends, Fits, Start;
    FitsIsAllowed(w, states[n], before[n], steps[n]);
    c := StepRefines(w, states[n], before[n], steps[n]);
  }

  lemma OneMoreFollows(w: World, states: seq<System>, steps: seq<Step>, before: seq<Authority>, c: Authority, n: nat)
    requires 1 <= w.limits.maximumEntries && Follows(w, states, steps, before, n) && n < |steps|
    requires |states| == |steps| + 1 && |before| == n + 1
    requires steps[n].actor in states[n].actors && Inv(w, states[n + 1], c)
    requires Refines(w, states[n], steps[n], states[n + 1], before[n], c) && Extends(before[n], c)
    ensures Follows(w, states, steps, before + [c], n + 1) && (before + [c])[0] == before[0]
  {
    hide Inv, Refines, Extends;
  }

  lemma StartHolds(w: World, ids: set<string>, retries: nat)
    ensures Inv(w, Start(ids, retries), Initial(w))
  {
  }

  lemma FitsIsAllowed(w: World, s: System, a: Authority, step: Step)
    requires Inv(w, s, a) && step.actor in s.actors && Fits(s, step)
    ensures Allowed(s, a, step)
  {
    hide Sound, ActorInv, HoldsRows;
  }

  /** s is a state of some run. */
  ghost predicate Reachable(w: World, s: System) {
    exists ids, retries, states, steps :: IsRun(w, ids, retries, states, steps) && s in states
  }

  lemma ReachableStands(w: World, s: System) returns (a: Authority)
    requires Lawful(w) && Reachable(w, s)
    ensures Inv(w, s, a)
  {
    hide Lawful, IsRun, Inv, Follows;
    var ids, retries, states, steps :| IsRun(w, ids, retries, states, steps) && s in states;
    RunIsOneLonger(w, ids, retries, states, steps);
    var n :| 0 <= n < |states| && states[n] == s;
    var authorities := RunRefines(w, ids, retries, states, steps, n);
    LastFollows(w, states, steps, authorities, n);
    a := authorities[n];
  }

  lemma RunIsOneLonger(w: World, ids: set<string>, retries: nat, states: seq<System>, steps: seq<Step>)
    requires IsRun(w, ids, retries, states, steps)
    ensures |states| == |steps| + 1
  {
    hide Next, Fits, Start;
  }

  lemma LastFollows(w: World, states: seq<System>, steps: seq<Step>, authorities: seq<Authority>, n: nat)
    requires 1 <= w.limits.maximumEntries && Follows(w, states, steps, authorities, n)
    ensures n < |states| && n < |authorities| && Inv(w, states[n], authorities[n])
  {
    hide Inv, Refines, Extends;
  }

  lemma ActorOf(w: World, s: System, a: Authority, id: string)
    requires Inv(w, s, a) && id in s.actors
    ensures Sound(w, a) && Holds(w, s.db, a)
    ensures ActorInv(w, s.db.stream.Some?, a, s.actors[id], s.maximumCommitRetries)
  {
    hide Sound, Holds, ActorInv;
  }

  /** The tables stand for one authority only. */
  lemma HeldOnce(w: World, db: Db, a: Authority, b: Authority)
    requires Sound(w, a) && Sound(w, b) && Holds(w, db, a) && Holds(w, db, b)
    ensures a == b
  {
    hide *;
    SoundMeans(w, a);
    SoundMeans(w, b);
    CoherentParts(w, a);
    CoherentParts(w, b);
    HeldRows(w, db, a, b);
    SamePositions(a, b);
    SamePositions(b, a);
    SameMaps(a.positions, b.positions);
  }

  lemma HeldRows(w: World, db: Db, a: Authority, b: Authority)
    requires Holds(w, db, a) && Holds(w, db, b)
    requires a.state == Replay(w.log.apply, w.initial, a.log) && b.state == Replay(w.log.apply, w.initial, b.log)
    ensures a.log == b.log && a.state == b.state && a.decisions == b.decisions
  {
    hide Replay;
    if db.stream.Some? {
      assert |a.log| == |b.log|;
      forall i | 0 <= i < |a.log| ensures a.log[i] == b.log[i] {
        assert db.entries[i + 1] == a.log[i] && db.entries[i + 1] == b.log[i];
      }
    }
  }

  lemma SamePositions(a: Authority, b: Authority)
    requires DecisionsCoherent(b) && PositionsCoherent(a) && a.decisions == b.decisions
    ensures forall q | q in a.positions :: q in b.positions && b.positions[q] == a.positions[q]
  {
    forall q | q in a.positions ensures q in b.positions && b.positions[q] == a.positions[q] {
      assert StoredCoherent(b, a.positions[q]);
    }
  }

  lemma SameMaps<K, V>(m: map<K, V>, n: map<K, V>)
    requires forall k | k in m :: k in n && n[k] == m[k]
    requires forall k | k in n :: k in m && m[k] == n[k]
    ensures m == n
  {
  }
}
