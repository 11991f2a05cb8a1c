/** src/next/d1.ts:236-264 and 404-507: authorities that share one stream in a database. Each reads
    the stream, the decisions, the positions and the page at different moments, with the others at
    work in between, and commits one guarded batch. Every database access is a step of its own. */
module D1Authority {
  import opened Protocol
  import opened Validators
  import opened LogServer
  import opened D1Tables

  /** The local variables of one attempt. */
  datatype Work = Work(
    request: Request,
    attempt: nat,
    initialHead: int,
    head: int,
    state: State,
    decisions: seq<Decision>,
    statements: seq<Statement>)

  /** Where a call of synchronize has got to: the next database access it will make. */
  datatype Actor =
    | Idle
    | Opening(request: Request, attempt: nat)
    | Reading(request: Request, attempt: nat)
    | Looking(work: Work)
    | Claiming(work: Work)
    | Committing(work: Work)
    | Paging(request: Request, head: int, decisions: seq<Decision>, committed: bool)
    | Done(request: Request, result: Result<Response>, committed: bool)

  function ReadStoredDecision(db: Db, p: Proposal): Result<Option<Decision>> {
    if p.operationId !in db.decisions then Ok(None)
    else
      var row := db.decisions[p.operationId];
      if row.clientId != p.clientId || row.clientSequence != p.clientSequence then Err(IdentityConflict(p.operationId))
      else if row.intentHash != p.intentHash then Err(IntentConflict(p.operationId))
      else Ok(Some(row.decision))
  }

  predicate PositionAvailable(db: Db, p: Proposal) {
    forall id | id in db.decisions && SlotOfStored(db.decisions[id]) == SlotOf(p) ::
      db.decisions[id].operationId == p.operationId
  }

  /** The draft of one new proposal: its decision, and the rows that will record it. */
  function Judge(interpreter: LogInterpreter, work: Work, p: Proposal): Work {
    match interpreter.decide(work.state, p)
    case Reject(reason) =>
      var d := Rejected(p.operationId, reason);
      work.(decisions := work.decisions + [d], statements := work.statements + [InsertDecision(Store(p, d))])
    case Accept(operation) =>
      var sequence := work.head + 1;
      var d := Accepted(p.operationId, sequence, operation);
      work.(state := interpreter.apply(work.state, operation),
            head := sequence,
            decisions := work.decisions + [d],
            statements := work.statements + [InsertDecision(Store(p, d)), InsertEntry(Commit(p, sequence, operation))])
  }

  function Found(work: Work, d: Decision): Work { work.(decisions := work.decisions + [d]) }

  function Batch(work: Work): seq<Statement> {
    work.statements + [UpdateStream(work.initialHead, work.head, work.state)]
  }

  /** The next access: another proposal, the commit, or, with nothing to write, the page. */
  function Proceed(work: Work): Actor {
    if |work.decisions| < |work.request.proposals| then Looking(work)
    else if work.statements != [] then Committing(work)
    else Paging(work.request, work.head, work.decisions, false)
  }

  function Retry(work: Work, maximumCommitRetries: nat): Actor {
    if work.attempt < maximumCommitRetries then Opening(work.request, work.attempt + 1)
    else Done(work.request, Err(CommitConflict), false)
  }

  function PageResponse(db: Db, request: Request, limits: Limits, head: int, decisions: seq<Decision>): Response {
    var entries := SelectPage(db, request.baseSequence, head, Min(request.maximumEntries, limits.maximumEntries));
    Response(request.baseSequence, request.baseSequence + |entries|, head, entries, decisions)
  }

  datatype Turned = Turned(db: Db, actor: Actor)

  /** One database access of one call. */
  function Turn(w: World, db: Db, actor: Actor, maximumCommitRetries: nat): Turned {
    match actor
    case Idle => Turned(db, actor)
    case Done(_, _, _) => Turned(db, actor)
    case Opening(request, attempt) => Turned(WithStream(db, w.initial), Reading(request, attempt))
    case Reading(request, attempt) =>
      if db.stream.None? then Turned(db, Done(request, Err(InvalidRecord), false))
      else
        var stream := db.stream.value;
        if request.baseSequence > stream.head then
          Turned(db, Done(request, Err(UnknownBase(request.baseSequence, stream.head)), false))
        else Turned(db, Proceed(Work(request, attempt, stream.head, stream.head, stream.state, [], [])))
    case Looking(work) =>
      if |work.decisions| >= |work.request.proposals| then Turned(db, actor)
      else
        (match ReadStoredDecision(db, work.request.proposals[|work.decisions|])
         case Err(error) => Turned(db, Done(work.request, Err(error), false))
         case Ok(Some(d)) => Turned(db, Proceed(Found(work, d)))
         case Ok(None) => Turned(db, Claiming(work)))
    case Claiming(work) =>
      if |work.decisions| >= |work.request.proposals| then Turned(db, actor)
      else
        var p := work.request.proposals[|work.decisions|];
        if PositionAvailable(db, p) then Turned(db, Proceed(Judge(w.log, work, p)))
        else Turned(db, Done(work.request, Err(ClientSequenceConflict(p.clientId, p.clientSequence)), false))
    case Committing(work) =>
      (match ExecBatch(db, Batch(work))
       case Err(_) => Turned(db, Retry(work, maximumCommitRetries))
       case Ok(next) =>
         if next.stream.None? then Turned(next, Retry(work, maximumCommitRetries))
         else Turned(next, Paging(work.request, work.head, work.decisions, true)))
    case Paging(request, head, decisions, committed) =>
      var response := PageResponse(db, request, w.limits, head, decisions);
      var valid := ResponseCheck(response, Some(w.limits));
      Turned(db, Done(request, if valid.Fail? then Err(valid.error) else Ok(response), committed))
  }

  datatype System = System(db: Db, actors: map<string, Actor>, maximumCommitRetries: nat)

  /** A call begins, a call makes its next access, or a commit finds the database locked. */
  datatype Step =
    | Call(actor: string, request: Request)
    | Access(actor: string)
    | Locked(actor: string)

  function Next(w: World, s: System, step: Step): System
    requires step.actor in s.actors
  {
    var actor := s.actors[step.actor];
    match step
    case Call(id, request) =>
      if !actor.Idle? && !actor.Done? then s
      else
        var valid := RequestCheck(request, w.limits);
        s.(actors := s.actors[id := if valid.Fail? then Done(request, Err(valid.error), false) else Opening(request, 0)])
    case Access(id) =>
      var turned := Turn(w, s.db, actor, s.maximumCommitRetries);
      s.(db := turned.db, actors := s.actors[id := turned.actor])
    case Locked(id) =>
      if !actor.Committing? then s
      else s.(actors := s.actors[id := Retry(actor.work, s.maximumCommitRetries)])
  }

  /* ---- What a batch publishes ---- */

  function PublishOne(a: Authority, s: Statement): Authority {
    match s
    case InsertDecision(row) =>
      a.(decisions := a.decisions[row.operationId := row], positions := a.positions[SlotOfStored(row) := row.operationId])
    case InsertEntry(e) => a.(log := a.log + [e])
    case UpdateStream(_, _, state) => a.(state := state)
  }

  function Publish(a: Authority, statements: seq<Statement>): Authority {
    if statements == [] then a
    else PublishOne(Publish(a, statements[..|statements| - 1]), statements[|statements| - 1])
  }

  function EntriesOf(statements: seq<Statement>): seq<Entry> {
    if statements == [] then []
    else
      var before, s := EntriesOf(statements[..|statements| - 1]), statements[|statements| - 1];
      if s.InsertEntry? then before + [s.entry] else before
  }

  function RowIds(statements: seq<Statement>): set<string> {
    set s | s in statements && s.InsertDecision? :: s.row.operationId
  }

  function RowSlots(statements: seq<Statement>): set<Position> {
    set s | s in statements && s.InsertDecision? :: SlotOfStored(s.row)
  }

  /** No two decision rows share an operation or a client position. */
  predicate Separate(statements: seq<Statement>) {
    statements != [] ==>
      var init, s := statements[..|statements| - 1], statements[|statements| - 1];
      && Separate(init)
      && (s.InsertDecision? ==> s.row.operationId !in RowIds(init) && SlotOfStored(s.row) !in RowSlots(init))
  }

  predicate InsertsOnly(statements: seq<Statement>) {
    forall s | s in statements :: !s.UpdateStream?
  }

  function Slots(ps: seq<Proposal>): set<Position> { set p | p in ps :: SlotOf(p) }

  lemma AddStatement(xs: seq<Statement>, s: Statement)
    ensures RowIds(xs + [s]) == RowIds(xs) + (if s.InsertDecision? then {s.row.operationId} else {})
    ensures RowSlots(xs + [s]) == RowSlots(xs) + (if s.InsertDecision? then {SlotOfStored(s.row)} else {})
    ensures EntriesOf(xs + [s]) == EntriesOf(xs) + (if s.InsertEntry? then [s.entry] else [])
    ensures InsertsOnly(xs + [s]) <==> InsertsOnly(xs) && !s.UpdateStream?
    ensures Separate(xs + [s]) <==>
      && Separate(xs)
      && (s.InsertDecision? ==> s.row.operationId !in RowIds(xs) && SlotOfStored(s.row) !in RowSlots(xs))
    ensures forall a :: Publish(a, xs + [s]) == PublishOne(Publish(a, xs), s)
  {
    var all := xs + [s];
    assert all[..|all| - 1] == xs && all[|all| - 1] == s;
    assert forall x :: x in all <==> x in xs || x == s;
    if InsertsOnly(all) {
      assert s in all && forall x | x in xs :: x in all;
    }
  }

  lemma {:induction false} PublishFacts(a: Authority, statements: seq<Statement>)
    requires InsertsOnly(statements)
    ensures var b := Publish(a, statements);
      && b.log == a.log + EntriesOf(statements)
      && b.state == a.state
      && b.decisions.Keys == a.decisions.Keys + RowIds(statements)
      && b.positions.Keys == a.positions.Keys + RowSlots(statements)
      && (forall id | id in a.decisions && id !in RowIds(statements) :: b.decisions[id] == a.decisions[id])
      && (forall slot | slot in a.positions && slot !in RowSlots(statements) :: b.positions[slot] == a.positions[slot])
  {
    if statements != [] {
      var init, s := statements[..|statements| - 1], statements[|statements| - 1];
      assert statements == init + [s];
      AddStatement(init, s);
      PublishFacts(a, init);
      hide InsertsOnly, RowIds, RowSlots, EntriesOf;
      return;
    }
  }

  /** The authority that the call is working towards, over the authority b it will commit to. */
  function Running(b: Authority, work: Work): Authority {
    Publish(b, work.statements).(state := work.state)
  }

  lemma JudgeIsRuling(interpreter: LogInterpreter, b: Authority, work: Work, p: Proposal)
    requires InsertsOnly(work.statements) && |Running(b, work).log| == work.head
    requires p.operationId !in Running(b, work).decisions && SlotOf(p) !in Running(b, work).positions
    ensures var next := Judge(interpreter, work, p);
      && |next.decisions| == |work.decisions| + 1 && next.decisions[..|work.decisions|] == work.decisions
      && DecideProposal(interpreter, Running(b, work), p) == Ok(Ruling(Running(b, next), next.decisions[|work.decisions|]))
  {
    var next := Judge(interpreter, work, p);
    var d := next.decisions[|work.decisions|];
    AddStatement(work.statements, InsertDecision(Store(p, d)));
    hide InsertsOnly, RowIds, RowSlots, EntriesOf;
    if interpreter.decide(work.state, p).Accept? {
      var e := Commit(p, work.head + 1, interpreter.decide(work.state, p).operation);
      AddStatement(work.statements + [InsertDecision(Store(p, d))], InsertEntry(e));
      assert next.statements == work.statements + [InsertDecision(Store(p, d))] + [InsertEntry(e)];
    }
  }

  lemma JudgeShape(interpreter: LogInterpreter, work: Work, p: Proposal)
    requires InsertsOnly(work.statements) && work.head == work.initialHead + |EntriesOf(work.statements)|
    ensures var next := Judge(interpreter, work, p);
      && InsertsOnly(next.statements) && next.head == next.initialHead + |EntriesOf(next.statements)|
      && RowIds(next.statements) == RowIds(work.statements) + {p.operationId}
      && RowSlots(next.statements) == RowSlots(work.statements) + {SlotOf(p)}
      && next.statements != []
      && (Separate(work.statements) && p.operationId !in RowIds(work.statements) && SlotOf(p) !in RowSlots(work.statements) ==>
            Separate(next.statements))
      && next.request == work.request && next.initialHead == work.initialHead && next.attempt == work.attempt
      && |next.decisions| == |work.decisions| + 1
  {
    var next := Judge(interpreter, work, p);
    var d := next.decisions[|work.decisions|];
    AddStatement(work.statements, InsertDecision(Store(p, d)));
    hide InsertsOnly, RowIds, RowSlots, EntriesOf;
    if interpreter.decide(work.state, p).Accept? {
      var e := Commit(p, work.head + 1, interpreter.decide(work.state, p).operation);
      AddStatement(work.statements + [InsertDecision(Store(p, d))], InsertEntry(e));
      assert next.statements == work.statements + [InsertDecision(Store(p, d))] + [InsertEntry(e)];
    }
  }

  /* ---- The plan of a call ---- */

  /** b is an authority that a may have become by the time the batch runs, and on which it commits:
      its head has not moved since it was read, and none of the rows is there yet. */
  ghost predicate Future(w: World, a: Authority, b: Authority, work: Work) {
    && Coherent(w, b) && Extends(a, b)
    && |b.log| == work.initialHead
    && b.decisions.Keys !! RowIds(work.statements)
    && b.positions.Keys !! RowSlots(work.statements)
  }

  ghost predicate Decides(w: World, b: Authority, work: Work) {
    && |work.decisions| <= |work.request.proposals|
    && DecideAll(w.log, b, work.request.proposals[..|work.decisions|]) == Ok(Rulings(Running(b, work), work.decisions))
  }

  /** On every such authority the in-memory server would decide alike. */
  ghost predicate Plan(w: World, a: Authority, work: Work) {
    forall b | Future(w, a, b, work) :: Decides(w, b, work)
  }

  lemma PlanStarts(w: World, a: Authority, work: Work)
    requires Coherent(w, a) && work.initialHead == |a.log| && work.state == a.state
    requires work.decisions == [] && work.statements == []
    ensures Plan(w, a, work)
  {
    forall b | Future(w, a, b, work) ensures Decides(w, b, work) {
      assert b.log == a.log;
      assert work.request.proposals[..0] == [];
    }
  }

  lemma PlanStays(w: World, a: Authority, c: Authority, work: Work)
    requires Plan(w, a, work) && Extends(a, c)
    ensures Plan(w, c, work)
  {
    forall b | Future(w, c, b, work) ensures Decides(w, b, work) {
      ExtendsTransitive(a, c, b);
      assert Future(w, a, b, work);
    }
  }

  lemma PlanKnown(w: World, a: Authority, work: Work, d: Decision)
    requires Plan(w, a, work) && InsertsOnly(work.statements) && |work.decisions| < |work.request.proposals|
    requires var p := work.request.proposals[|work.decisions|]; Remembers(a, p) && a.decisions[p.operationId].decision == d
    ensures Plan(w, a, Found(work, d))
  {
    var i := |work.decisions|;
    var p := work.request.proposals[i];
    forall b | Future(w, a, b, Found(work, d)) ensures Decides(w, b, Found(work, d)) {
      assert Future(w, a, b, work);
      assert Decides(w, b, work);
      KnownIsDecided(w, a, b, work, d);
    }
  }

  lemma KnownIsDecided(w: World, a: Authority, b: Authority, work: Work, d: Decision)
    requires Future(w, a, b, work) && Decides(w, b, work)
    requires InsertsOnly(work.statements) && |work.decisions| < |work.request.proposals|
    requires var p := work.request.proposals[|work.decisions|]; Remembers(a, p) && a.decisions[p.operationId].decision == d
    ensures Decides(w, b, Found(work, d))
  {
    var i := |work.decisions|;
    var p := work.request.proposals[i];
    RemembersStays(a, b, p);
    PublishFacts(b, work.statements);
    assert p.operationId !in RowIds(work.statements);
    hide Coherent, Extends, Publish, RowIds, RowSlots, EntriesOf;
    NextRuling(w.log, b, work.request.proposals, i);
    hide DecideAll;
    assert Running(b, Found(work, d)) == Running(b, work);
    assert DecideProposal(w.log, Running(b, work), p) == Ok(Ruling(Running(b, work), d));
  }

  lemma PlanJudged(w: World, a: Authority, work: Work)
    requires Plan(w, a, work) && |work.decisions| < |work.request.proposals|
    requires InsertsOnly(work.statements) && work.head == work.initialHead + |EntriesOf(work.statements)|
    requires var p := work.request.proposals[|work.decisions|];
      p.operationId !in RowIds(work.statements) && SlotOf(p) !in RowSlots(work.statements)
    ensures Plan(w, a, Judge(w.log, work, work.request.proposals[|work.decisions|]))
  {
    var i := |work.decisions|;
    var p := work.request.proposals[i];
    var next := Judge(w.log, work, p);
    JudgeShape(w.log, work, p);
    forall b | Future(w, a, b, next) ensures Decides(w, b, next) {
      assert Future(w, a, b, work);
      assert Decides(w, b, work);
      hide Plan, Coherent, Judge, RowIds, RowSlots, DecideProposal;
      PublishFacts(b, work.statements);
      JudgeIsRuling(w.log, b, work, p);
      NextRuling(w.log, b, work.request.proposals, i);
      assert next.decisions == work.decisions + [next.decisions[i]];
    }
  }
}
