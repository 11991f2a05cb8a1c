/** What a caller of the durable authority may rely on: when a batch commits,
    and what an answer means to a replica. */
module D1Calls {
  import opened Protocol
  import opened Validators
  import opened LogServer
  import opened Replicas
  import opened Knowledge
  import opened D1Tables
  import opened D1Authority
  import opened D1Runs

  /* ---- When a batch commits ---- */

  ghost predicate SlotsWithin(a: Authority, slots: set<Position>) {
    forall id | id in a.decisions :: SlotOfStored(a.decisions[id]) in slots
  }

  /** Every stored row's position is an old one or that of a row of the batch. */
  lemma {:induction false} PublishedSlots(a: Authority, statements: seq<Statement>)
    requires DecisionsCoherent(a) && InsertsOnly(statements)
    ensures SlotsWithin(Publish(a, statements), a.positions.Keys + RowSlots(statements))
  {
    if statements == [] {
      forall id | id in a.decisions ensures SlotOfStored(a.decisions[id]) in a.positions {
        assert StoredCoherent(a, id);
      }
    } else {
      var init, s := statements[..|statements| - 1], statements[|statements| - 1];
      assert statements == init + [s];
      AddStatement(init, s);
      PublishedSlots(a, init);
      hide *;
      assert s.InsertDecision? ==> SlotOfStored(s.row) in RowSlots(init + [s]);
      assert RowSlots(init) <= RowSlots(init + [s]);
      OneMoreSlot(Publish(a, init), s, a.positions.Keys + RowSlots(init), a.positions.Keys + RowSlots(init + [s]));
    }
  }

  lemma OneMoreSlot(a: Authority, s: Statement, slots: set<Position>, more: set<Position>)
    requires SlotsWithin(a, slots) && slots <= more && (s.InsertDecision? ==> SlotOfStored(s.row) in more)
    ensures SlotsWithin(PublishOne(a, s), more)
  {
  }

  /** Inserts that meet none of the rows there, and do not clash among themselves, all succeed. */
  lemma {:induction false} FreeInsertsSucceed(db: Db, a: Authority, statements: seq<Statement>)
    requires HoldsRows(db, a) && DecisionsCoherent(a) && InsertsOnly(statements) && Separate(statements)
    requires a.decisions.Keys !! RowIds(statements) && a.positions.Keys !! RowSlots(statements)
    requires Numbered(Publish(a, statements).log) && DistinctEntries(Publish(a, statements).log)
    ensures ExecBatch(db, statements).Ok?
  {
    if statements == [] {
      return;
    }
    var init, s := statements[..|statements| - 1], statements[|statements| - 1];
    assert statements == init + [s];
    hide *;
    AddStatement(init, s);
    PublishFacts(a, init);
    LastPublished(a, init, s);
    NumberedPrefix(Publish(a, init).log, Publish(a, statements).log);
    DistinctPrefix(Publish(a, init).log, Publish(a, statements).log);
    FreeInsertsSucceed(db, a, init);
    WrittenHolds(db, a, init);
    BatchWritesAll(db, init);
    PublishedSlots(a, init);
    NextInsertSucceeds(db, a, init, s);
  }

  lemma LastPublished(a: Authority, init: seq<Statement>, s: Statement)
    requires Publish(a, init + [s]) == PublishOne(Publish(a, init), s) && InsertsOnly(init + [s])
    ensures Publish(a, init + [s]).log == Publish(a, init).log + (if s.InsertEntry? then [s.entry] else [])
    ensures !s.UpdateStream?
  {
    assert s in init + [s];
  }

  lemma DistinctPrefix(xs: seq<Entry>, ys: seq<Entry>)
    requires DistinctEntries(ys) && xs <= ys
    ensures DistinctEntries(xs)
    ensures forall e, x | ys == xs + [e] && x in xs :: x.operationId != e.operationId && PositionOf(x) != PositionOf(e)
  {
    forall e, x | ys == xs + [e] && x in xs ensures x.operationId != e.operationId && PositionOf(x) != PositionOf(e) {
      var i :| 0 <= i < |xs| && xs[i] == x;
      assert ys[i] == x && ys[|xs|] == e;
    }
  }

  lemma NextInsertSucceeds(db: Db, a: Authority, init: seq<Statement>, s: Statement)
    requires ExecBatch(db, init) == Ok(WriteAll(db, init)) && HoldsRows(WriteAll(db, init), Publish(a, init))
    requires !s.UpdateStream?
    requires var b := Publish(a, init);
      && b.decisions.Keys == a.decisions.Keys + RowIds(init)
      && SlotsWithin(b, a.positions.Keys + RowSlots(init))
      && (s.InsertDecision? ==>
            && s.row.operationId !in a.decisions && s.row.operationId !in RowIds(init)
            && SlotOfStored(s.row) !in a.positions && SlotOfStored(s.row) !in RowSlots(init))
      && (s.InsertEntry? ==>
            && s.entry.sequence == |b.log| + 1
            && forall x | x in b.log :: x.operationId != s.entry.operationId && PositionOf(x) != PositionOf(s.entry))
    ensures ExecBatch(db, init + [s]).Ok?
  {
    assert (init + [s])[..|init|] == init;
    hide RowIds, RowSlots, Publish, WriteAll;
    var before, b := WriteAll(db, init), Publish(a, init);
    if s.InsertEntry? {
      forall n | n in before.entries
        ensures before.entries[n].operationId != s.entry.operationId && PositionOf(before.entries[n]) != PositionOf(s.entry)
      {
        assert before.entries[n] == b.log[n - 1] && b.log[n - 1] in b.log;
      }
    }
  }

  /** The head has not moved since the stream was read, and no other call has meanwhile decided one of
      the operations or taken one of the positions. */
  predicate Undisturbed(db: Db, work: Work) {
    && db.stream.Some? && db.stream.value.head == work.initialHead
    && db.decisions.Keys !! RowIds(work.statements)
    && forall slot | slot in RowSlots(work.statements) :: !SlotTaken(db, slot)
  }

  /** After a lost commit the same request is read afresh, until the attempts are used up. */
  predicate StartsOver(work: Work, next: Actor, maximumCommitRetries: nat) {
    if work.attempt < maximumCommitRetries then next == Opening(work.request, work.attempt + 1)
    else next == Done(work.request, Err(CommitConflict), false)
  }

  /** In every interleaving, a call that has drafted its batch commits it if and only if it was
      undisturbed; otherwise the tables stay as they are, and it starts over while it may. */
  lemma CommitsExactlyWhenUndisturbed(w: World, s: D1Authority.System, id: string)
    requires Lawful(w) && D1Runs.Reachable(w, s)
    requires id in s.actors && s.actors[id].Committing? && Fits(s, Access(id))
    ensures var work, t := s.actors[id].work, D1Authority.Next(w, s, Access(id));
      if Undisturbed(s.db, work) then t.actors[id] == Paging(work.request, work.head, work.decisions, true)
      else t.db == s.db && StartsOver(work, t.actors[id], s.maximumCommitRetries)
  {
    hide *;
    var work := s.actors[id].work;
    var a := ReachableStands(w, s);
    ActorOf(w, s, a, id);
    CommittingMeans(w, s, a, id);
    BatchCommitsExactly(w, s.db, a, work, s.maximumCommitRetries);
    UndisturbedMeans(s.db, work);
    CommitTurns(w, s, id);
    if ExecBatch(s.db, Batch(work)).Ok? {
      var c := CommitKeeps(w, s.db, a, work, s.maximumCommitRetries);
    }
  }

  lemma CommittingMeans(w: World, s: D1Authority.System, a: Authority, id: string)
    requires id in s.actors && s.actors[id].Committing? && Fits(s, Access(id)) && Holds(w, s.db, a)
    requires ActorInv(w, s.db.stream.Some?, a, s.actors[id], s.maximumCommitRetries)
    ensures var work := s.actors[id].work;
      && WorkInv(w, a, work, s.maximumCommitRetries) && |work.decisions| == |work.request.proposals|
      && s.db.stream.Some? && |a.log| + |work.request.proposals| <= MAX_SAFE
  {
    hide WorkInv, HoldsRows;
  }

  lemma UndisturbedMeans(db: Db, work: Work)
    ensures Undisturbed(db, work) <==>
      && db.stream.Some? && db.stream.value.head == work.initialHead
      && db.decisions.Keys !! RowIds(work.statements)
      && forall slot | slot in RowSlots(work.statements) :: !SlotTaken(db, slot)
  {
    hide RowIds, RowSlots, SlotTaken;
  }

  lemma CommitTurns(w: World, s: D1Authority.System, id: string)
    requires id in s.actors && s.actors[id].Committing?
    ensures var work, t := s.actors[id].work, D1Authority.Next(w, s, Access(id));
      && id in t.actors
      && match ExecBatch(s.db, Batch(work))
         case Err(_) => t.db == s.db && StartsOver(work, t.actors[id], s.maximumCommitRetries)
         case Ok(next) =>
           next.stream.Some? ==> t.db == next && t.actors[id] == Paging(work.request, work.head, work.decisions, true)
  {
    hide ExecBatch, Batch;
  }

  /** The same of one batch over the tables of an authority. */
  lemma BatchCommitsExactly(w: World, db: Db, a: Authority, work: Work, retries: nat)
    requires Lawful(w) && Sound(w, a) && Holds(w, db, a) && db.stream.Some?
    requires WorkInv(w, a, work, retries) && |work.decisions| == |work.request.proposals|
    requires |a.log| + |work.request.proposals| <= MAX_SAFE
    ensures ExecBatch(db, Batch(work)).Ok? <==>
      && db.stream.value.head == work.initialHead
      && db.decisions.Keys !! RowIds(work.statements)
      && forall slot | slot in RowSlots(work.statements) :: !SlotTaken(db, slot)
  {
    hide *;
    WorkParts(w, a, work, retries);
    SeparateWork(w, a, work, retries);
    SoundMeans(w, a);
    CoherentParts(w, a);
    HoldsMeans(w, db, a, work);
    if ExecBatch(db, Batch(work)).Ok? {
      BatchFoundItsFuture(w, db, a, work);
      FutureMeans(w, a, work);
    }
    if work.initialHead == |a.log| && a.decisions.Keys !! RowIds(work.statements) && a.positions.Keys !! RowSlots(work.statements) {
      UndisturbedCommits(w, db, a, work);
    }
  }

  lemma SeparateWork(w: World, a: Authority, work: Work, retries: nat)
    requires WorkInv(w, a, work, retries)
    ensures Separate(work.statements)
  {
    hide Plan, Separate, Answers, ValidRequest;
  }

  /** The conditions on the tables, said of the authority they hold. */
  lemma HoldsMeans(w: World, db: Db, a: Authority, work: Work)
    requires Holds(w, db, a) && db.stream.Some? && DecisionsCoherent(a) && PositionsCoherent(a)
    ensures db.stream.value.head == |a.log| && db.decisions == a.decisions && HoldsRows(db, a)
    ensures (forall slot | slot in RowSlots(work.statements) :: !SlotTaken(db, slot)) <==>
      a.positions.Keys !! RowSlots(work.statements)
  {
    hide DecisionsCoherent, PositionsCoherent, HoldsRows, RowSlots, SlotTaken;
    forall slot ensures SlotTaken(db, slot) <==> slot in a.positions {
      SlotTakenIsPosition(w, db, a, slot);
    }
    SameRows(w, db, a);
  }

  lemma SameRows(w: World, db: Db, a: Authority)
    requires Holds(w, db, a)
    ensures db.decisions == a.decisions && HoldsRows(db, a)
  {
  }

  lemma FutureMeans(w: World, a: Authority, work: Work)
    requires Future(w, a, a, work)
    ensures |a.log| == work.initialHead
    ensures a.decisions.Keys !! RowIds(work.statements) && a.positions.Keys !! RowSlots(work.statements)
  {
    hide Coherent, RowIds, RowSlots;
  }

  lemma UndisturbedCommits(w: World, db: Db, a: Authority, work: Work)
    requires Sound(w, a) && Coherent(w, a) && DecisionsCoherent(a) && HoldsRows(db, a) && db.stream.Some?
    requires db.stream.value.head == |a.log| == work.initialHead
    requires a.decisions.Keys !! RowIds(work.statements) && a.positions.Keys !! RowSlots(work.statements)
    requires Plan(w, a, work) && |work.decisions| == |work.request.proposals| && ValidBatch(work.request.proposals)
    requires InsertsOnly(work.statements) && Separate(work.statements)
    requires |a.log| + |work.request.proposals| <= MAX_SAFE
    ensures ExecBatch(db, Batch(work)).Ok?
  {
    hide *;
    ExtendsItself(a);
    NowIsFuture(w, a, work);
    PlanMeans(w, a, a, work);
    BatchIsValid(work.request.proposals);
    DecideAllKeepsCoherence(w, a, work.request.proposals);
    DecidedLogGrows(w.log, a, work.request.proposals);
    var c := Running(a, work);
    CoherentParts(w, c);
    RunningIs(a, work);
    SoundFrom(w, c);
    CoherentLogIsValid(w, c);
    ValidLogIsDistinct(c.log);
    FreeInsertsSucceed(db, a, work.statements);
    InsertsWereFree(db, work.statements);
    UpdateSucceeds(db, work);
  }

  lemma NowIsFuture(w: World, a: Authority, work: Work)
    requires Coherent(w, a) && Extends(a, a) && |a.log| == work.initialHead
    requires a.decisions.Keys !! RowIds(work.statements) && a.positions.Keys !! RowSlots(work.statements)
    ensures Future(w, a, a, work)
  {
    hide Coherent, Extends, RowIds, RowSlots;
  }

  lemma SoundFrom(w: World, a: Authority)
    requires Coherent(w, a) && |a.log| <= MAX_SAFE
    ensures Sound(w, a)
  {
    hide Coherent;
  }

  lemma ValidLogIsDistinct(log: seq<Entry>)
    requires ValidLog(log)
    ensures DistinctEntries(log)
  {
  }

  lemma UpdateSucceeds(db: Db, work: Work)
    requires ExecBatch(db, work.statements).Ok? && ExecBatch(db, work.statements).value.stream == db.stream
    requires db.stream.Some? && db.stream.value.head == work.initialHead
    ensures ExecBatch(db, Batch(work)).Ok?
  {
    var batch := Batch(work);
    assert batch[..|batch| - 1] == work.statements;
  }

  /* ---- The constraints hold ---- */

  lemma HeldKeysAreUnique(w: World, db: Db, a: Authority)
    requires Sound(w, a) && Holds(w, db, a)
    ensures KeysAreUnique(db)
  {
    hide *;
    CoherentLogIsValid(w, a);
    SoundMeans(w, a);
    CoherentParts(w, a);
    SameRows(w, db, a);
    UniqueRows(db, a);
  }

  lemma UniqueRows(db: Db, a: Authority)
    requires HoldsRows(db, a) && ValidLog(a.log) && DecisionsCoherent(a)
    ensures KeysAreUnique(db)
  {
    hide ValidEntry;
    forall id | id in db.decisions ensures StoredCoherent(a, id) {
    }
    assert forall n | n in db.entries :: db.entries[n] == a.log[n - 1];
  }

  /** In every reachable state each row stands under its own key and no unique key is there twice. */
  lemma TablesKeepKeys(w: World, s: D1Authority.System)
    requires Lawful(w) && D1Runs.Reachable(w, s)
    ensures KeysAreUnique(s.db)
  {
    hide *;
    var a := ReachableStands(w, s);
    HeldBy(w, s, a);
    HeldKeysAreUnique(w, s.db, a);
  }

  lemma HeldBy(w: World, s: D1Authority.System, a: Authority)
    requires Inv(w, s, a)
    ensures Sound(w, a) && Holds(w, s.db, a)
  {
    hide Sound, Holds, ActorInv;
  }

  /* ---- What an answer means ---- */

  /** Every answer of every call in every interleaving is honest: its page is the canonical slice
      after its base, its decisions are the permanent ones and lie within its head; and the answer of
      a call that committed is the in-memory server's answer at the moment of the commit. */
  lemma EveryAnswerIsHonest(w: World, s: D1Authority.System, id: string) returns (a: Authority)
    requires Lawful(w) && D1Runs.Reachable(w, s) && id in s.actors && s.actors[id].Done? && s.actors[id].result.Ok?
    ensures Sound(w, a) && Holds(w, s.db, a)
    ensures var call, response := s.actors[id], s.actors[id].result.value;
      && Honest(response, a)
      && response.requestedBase == call.request.baseSequence
      && Answers(a, call.request.proposals, response.decisions)
      && (call.committed ==> Linearized(w, call.request, response, a))
  {
    hide *;
    a := ReachableStands(w, s);
    ActorOf(w, s, a, id);
    DoneMeans(w, s.db.stream.Some?, a, s.actors[id], s.maximumCommitRetries);
  }

  lemma DoneMeans(w: World, created: bool, a: Authority, call: Actor, retries: nat)
    requires ActorInv(w, created, a, call, retries) && call.Done? && call.result.Ok?
    ensures var response := call.result.value;
      && Honest(response, a)
      && response.requestedBase == call.request.baseSequence
      && Answers(a, call.request.proposals, response.decisions)
      && (call.committed ==> Linearized(w, call.request, response, a))
  {
    hide Honest, Answers, Linearized, ValidRequest;
  }

  /** So a replica that knows a prefix of the log can merge it, whichever call it came from, and
      learns from it exactly what it says. */
  lemma AnswersMerge(w: World, s: D1Authority.System, id: string, a: Authority, r: Replica, issued: seq<Proposal>, k: Known)
    requires Lawful(w) && D1Runs.Reachable(w, s) && id in s.actors && s.actors[id].Done? && s.actors[id].result.Ok?
    requires Sound(w, a) && Holds(w, s.db, a)
    requires DistinctProposals(issued) && Attributed(issued, a) && Represents(w, r, issued, k, a)
    requires s.actors[id].request.baseSequence <= k.cursor
    ensures var response := s.actors[id].result.value;
      && Merge(r, response, w.replica).Ok?
      && Represents(w, Merge(r, response, w.replica).value.state, issued, Knowledge.Join(k, response), a)
  {
    hide *;
    var b := EveryAnswerIsHonest(w, s, id);
    HeldOnce(w, s.db, a, b);
    HonestMergeIsJoin(w, r, s.actors[id].result.value, issued, k, a);
  }

  /* ---- When an answer is refused ---- */

  /** A call that is about to read its page is answered unless one of its decisions was accepted
      beyond the head it read first; then its own check refuses the answer. A call that committed is
      always answered. */
  lemma RefusedExactlyBeyondHead(w: World, s: D1Authority.System, id: string)
    requires Lawful(w) && D1Runs.Reachable(w, s) && id in s.actors && s.actors[id].Paging?
    ensures var call, t := s.actors[id], D1Authority.Next(w, s, Access(id));
      && id in t.actors && t.actors[id].Done? && t.db == s.db
      && (t.actors[id].result.Ok? <==> forall d | d in call.decisions && d.Accepted? :: d.sequence <= call.head)
      && (call.committed ==> t.actors[id].result.Ok?)
      && (t.actors[id].result.Err? ==> t.actors[id].result.error == MalformedResponse)
  {
    hide *;
    var call := s.actors[id];
    var a := ReachableStands(w, s);
    ActorOf(w, s, a, id);
    PagingMeans(w, s.db.stream.Some?, a, call, s.maximumCommitRetries);
    PageRefusedExactly(w, s.db, a, call.request, call.head, call.decisions, call.committed);
    PageKeeps(w, s.db, a, call.request, call.head, call.decisions, call.committed);
    PageTurns(w, s, id);
  }

  lemma PagingMeans(w: World, created: bool, a: Authority, call: Actor, retries: nat)
    requires ActorInv(w, created, a, call, retries) && call.Paging?
    ensures PagingInv(w, a, call.request, call.head, call.decisions, call.committed)
  {
    hide PagingInv;
  }

  lemma PageTurns(w: World, s: D1Authority.System, id: string)
    requires id in s.actors && s.actors[id].Paging?
    ensures var call, t := s.actors[id], D1Authority.Next(w, s, Access(id));
      var response := PageResponse(s.db, call.request, w.limits, call.head, call.decisions);
      var valid := ResponseCheck(response, Some(w.limits));
      && t.db == s.db && id in t.actors
      && t.actors[id] == Done(call.request, if valid.Fail? then Err(valid.error) else Ok(response), call.committed)
  {
    hide ResponseCheck, PageResponse;
  }

  /** The same of one page over the tables of an authority. */
  lemma PageRefusedExactly(w: World, db: Db, a: Authority, request: Request, head: int, ds: seq<Decision>, committed: bool)
    requires Sound(w, a) && Holds(w, db, a) && PagingInv(w, a, request, head, ds, committed)
    ensures var valid := ResponseCheck(PageResponse(db, request, w.limits, head, ds), Some(w.limits));
      && (valid.Pass? <==> forall d | d in ds && d.Accepted? :: d.sequence <= head)
      && (valid.Fail? ==> valid.error == MalformedResponse)
  {
    hide *;
    PagingParts(w, a, request, head, ds, committed);
    PageIsRespond(w, db, a, request, head, ds);
    RespondIs(a, request, w.limits, head, ds);
    var response := Respond(a.log[..head], request, w.limits, ds);
    ResponseCheckIsValidResponse(response, Some(w.limits));
    SoundMeans(w, a);
    CoherentParts(w, a);
    RequestIsBatch(w, request);
    AnswersAreHonestDecisions(a, request.proposals, ds);
    if forall d | d in ds && d.Accepted? :: d.sequence <= head {
      WithinHeadIsHonest(a, response, head, ds);
      HonestIsValid(w, response, a);
    }
    ValidIsWithinHead(response);
    PageFits(a, request, w.limits, head, ds);
    if exists d :: d in ds && d.Accepted? && d.sequence > head {
      BeyondHeadIsMalformed(w, a, request, head, ds);
    }
  }

  /** Up to its decisions the answer is in order; the first decision that is not is refused for
      disagreeing with the head. */
  lemma BeyondHeadIsMalformed(w: World, a: Authority, request: Request, head: int, ds: seq<Decision>)
    requires Sound(w, a) && 0 <= request.baseSequence <= head <= |a.log|
    requires 1 <= request.maximumEntries && 1 <= w.limits.maximumEntries
    requires DistinctDecisions(ds) && forall i | 0 <= i < |ds| :: HonestDecision(ds[i], |a.log|, a)
    requires WithinLimits(Respond(a.log[..head], request, w.limits, ds), Some(w.limits))
    ensures var valid := ResponseCheck(Respond(a.log[..head], request, w.limits, ds), Some(w.limits));
      valid.Fail? ==> valid.error == MalformedResponse
  {
    var response := Respond(a.log[..head], request, w.limits, ds);
    RespondIs(a, request, w.limits, head, ds);
    PageIsValid(w, a, response, head);
    hide *;
    forall i: nat | i < |ds| && DecisionCheck(response, i).Fail? ensures DecisionCheck(response, i).error == MalformedResponse {
      OnlyMalformed(w, a, response, i);
    }
    FirstIsMalformed(response, ds);
  }

  lemma PageIsValid(w: World, a: Authority, response: Response, head: int)
    requires Sound(w, a) && 0 <= response.requestedBase <= response.through <= head == response.head <= |a.log|
    requires response.entries == a.log[response.requestedBase..response.through]
    requires response.requestedBase < head ==> response.requestedBase < response.through
    requires WithinLimits(response, Some(w.limits))
    ensures HeaderCheck(response, Some(w.limits)).Pass?
    ensures FirstFailure(PageChecker(response), |response.entries|).Pass?
  {
    hide *;
    SoundMeans(w, a);
    CoherentLogIsValid(w, a);
    var es := response.entries;
    assert forall i | 0 <= i < |es| :: es[i] == a.log[response.requestedBase + i];
    SliceIsDistinct(a.log, es, response.requestedBase);
    HeaderPasses(w, response);
    PageCheckIsValidPage(response);
    PageFrom(response);
  }

  lemma HeaderPasses(w: World, response: Response)
    requires 0 <= response.requestedBase <= response.through <= response.head <= MAX_SAFE
    requires |response.entries| == response.through - response.requestedBase
    requires response.requestedBase < response.head ==> response.requestedBase < response.through
    requires WithinLimits(response, Some(w.limits))
    ensures HeaderCheck(response, Some(w.limits)).Pass? && HeaderCheck(response, None).Pass?
    ensures IsLogSequence(response.requestedBase, true) && IsLogSequence(response.through, true)
    ensures IsLogSequence(response.head, true)
  {
  }

  lemma PageFrom(response: Response)
    requires IsLogSequence(response.requestedBase, true) && IsLogSequence(response.through, true)
    requires IsLogSequence(response.head, true)
    requires response.requestedBase <= response.through <= response.head
    requires |response.entries| == response.through - response.requestedBase
    requires response.requestedBase < response.head ==> response.entries != []
    requires DistinctEntries(response.entries)
    requires forall i | 0 <= i < |response.entries| ::
      ValidEntry(response.entries[i]) && response.entries[i].sequence == response.requestedBase + i + 1
    ensures ValidPage(response)
  {
    hide ValidEntry, DistinctEntries, IsLogSequence;
  }

  lemma OnlyMalformed(w: World, a: Authority, response: Response, i: nat)
    requires Sound(w, a) && i < |response.decisions| && HonestDecision(response.decisions[i], |a.log|, a)
    requires DecisionCheck(response, i).Fail?
    ensures DecisionCheck(response, i).error == MalformedResponse
  {
    var d := response.decisions[i];
    assert StoredCoherent(a, d.operationId);
  }

  lemma FirstIsMalformed(response: Response, ds: seq<Decision>)
    requires response.decisions == ds
    requires forall i: nat | i < |ds| && DecisionCheck(response, i).Fail? :: DecisionCheck(response, i).error == MalformedResponse
    ensures var found := FirstFailure(DecisionsChecker(response), |ds|); found.Fail? ==> found.error == MalformedResponse
  {
    hide DecisionCheck;
    assert forall i: nat :: DecisionsChecker(response)(i) == DecisionCheck(response, i);
  }

  lemma RequestIsBatch(w: World, request: Request)
    requires ValidRequest(request, w.limits)
    ensures |request.proposals| <= w.limits.maximumProposals
    ensures forall i, j | 0 <= i < j < |request.proposals| :: request.proposals[i].operationId != request.proposals[j].operationId
  {
  }

  lemma WithinHeadIsHonest(a: Authority, response: Response, head: int, ds: seq<Decision>)
    requires response.decisions == ds && response.head == head && DistinctDecisions(ds)
    requires 0 <= response.requestedBase <= response.through <= head <= |a.log|
    requires response.entries == a.log[response.requestedBase..response.through]
    requires response.requestedBase < head ==> response.requestedBase < response.through
    requires forall i | 0 <= i < |ds| :: HonestDecision(ds[i], |a.log|, a)
    requires forall d | d in ds && d.Accepted? :: d.sequence <= head
    ensures Honest(response, a)
  {
    forall i | 0 <= i < |ds| ensures HonestDecision(ds[i], head, a) {
      assert HonestDecision(ds[i], |a.log|, a) && ds[i] in ds;
    }
  }

  lemma ValidIsWithinHead(response: Response)
    ensures ValidResponse(response) ==> forall d | d in response.decisions && d.Accepted? :: d.sequence <= response.head
  {
    if ValidResponse(response) {
      forall d | d in response.decisions && d.Accepted? ensures d.sequence <= response.head {
        var i :| 0 <= i < |response.decisions| && response.decisions[i] == d;
        assert AgreesWithPage(response.decisions[i], response);
      }
    }
  }

  lemma PageFits(a: Authority, request: Request, limits: Limits, head: int, ds: seq<Decision>)
    requires 0 <= request.baseSequence <= head <= |a.log| && 1 <= request.maximumEntries && 1 <= limits.maximumEntries
    requires Answers(a, request.proposals, ds) && |request.proposals| <= limits.maximumProposals
    ensures WithinLimits(Respond(a.log[..head], request, limits, ds), Some(limits))
  {
  }

  /** Two calls, and nobody else. */
  function Two(db: Db, x: Actor, y: Actor): D1Authority.System {
    D1Authority.System(db, map["x" := x, "y" := y], 0)
  }

  lemma XMoves(w: World, db: Db, x: Actor, y: Actor)
    ensures var turned := Turn(w, db, x, 0);
      && D1Authority.Next(w, Two(db, x, y), Access("x")) == Two(turned.db, turned.actor, y)
      && "x" in Two(db, x, y).actors && (x.Committing? || Fits(Two(db, x, y), Access("x")))
  {
    hide Turn;
    assert "x" != "y";
    var m := map["x" := x, "y" := y];
    assert m["x" := Turn(w, db, x, 0).actor] == map["x" := Turn(w, db, x, 0).actor, "y" := y];
  }

  lemma YMoves(w: World, db: Db, x: Actor, y: Actor)
    ensures var turned := Turn(w, db, y, 0);
      && D1Authority.Next(w, Two(db, x, y), Access("y")) == Two(turned.db, x, turned.actor)
      && "y" in Two(db, x, y).actors
      && ((y.Committing? ==> Size(db) + |y.work.request.proposals| <= MAX_SAFE) ==> Fits(Two(db, x, y), Access("y")))
  {
    hide Turn;
    assert "x" != "y";
    var m := map["x" := x, "y" := y];
    assert m["y" := Turn(w, db, y, 0).actor] == map["x" := x, "y" := Turn(w, db, y, 0).actor];
  }

  lemma CallsBegin(w: World, db: Db, x: Actor, y: Actor, request: Request)
    requires ValidRequest(request, w.limits)
    ensures x.Idle? ==> D1Authority.Next(w, Two(db, x, y), Call("x", request)) == Two(db, Opening(request, 0), y)
    ensures y.Idle? ==> D1Authority.Next(w, Two(db, x, y), Call("y", request)) == Two(db, x, Opening(request, 0))
    ensures "x" in Two(db, x, y).actors && "y" in Two(db, x, y).actors
    ensures Fits(Two(db, x, y), Call("x", request)) && Fits(Two(db, x, y), Call("y", request))
  {
    RequestCheckIsValidRequest(request, w.limits);
    hide RequestCheck, ValidRequest;
    assert "x" != "y";
    var m := map["x" := x, "y" := y];
    assert m["x" := Opening(request, 0)] == map["x" := Opening(request, 0), "y" := y];
    assert m["y" := Opening(request, 0)] == map["x" := x, "y" := Opening(request, 0)];
  }

  /** It does fail, in a run of two valid calls with the same request: one reads the stream, the other
      commits the operation, the first then finds its decision, and its answer from the old head is
      refused although the operation is decided. */
  lemma AnAnswerCanBeRefused(w: World, p: Proposal, operation: Operation)
    returns (states: seq<D1Authority.System>, steps: seq<D1Authority.Step>)
    requires Lawful(w) && w.log.decide(w.initial, p) == Accept(operation)
    requires ValidIdentity(p.operationId, p.clientId, p.clientSequence, p.intentHash)
    ensures D1Runs.IsRun(w, {"x", "y"}, 0, states, steps) && |states| > 0
    ensures var s := states[|states| - 1];
      && "x" in s.actors && s.actors["x"] == Done(Request(0, 1, [p]), Err(MalformedResponse), false)
      && p.operationId in s.db.decisions
  {
    var request := Request(0, 1, [p]);
    var created := Db(Some(StreamRow(0, w.initial)), map[], map[]);
    var work := Work(request, 0, 0, 0, w.initial, [], []);
    var d := Accepted(p.operationId, 1, operation);
    var drafted := Judge(w.log, work, p);
    var later := OneAcceptance(w, created, drafted, p, operation);
    OneProposalIsValid(w, p);
    FirstCallMoves(w, p, operation, created, work, drafted, later);
    LastCallMoves(w, p, d, later, work);
    hide *;
    SmallSize(created, drafted);
    states, steps := [Two(EMPTY, Idle, Idle)], [];
    TwoStart(w);
    CallsBegin(w, EMPTY, Idle, Idle, request);
    states, steps := RunGoesOn(w, states, steps, Two(EMPTY, Idle, Idle), Call("x", request));
    XMoves(w, EMPTY, Opening(request, 0), Idle);
    states, steps := RunGoesOn(w, states, steps, Two(EMPTY, Opening(request, 0), Idle), Access("x"));
    XMoves(w, created, Reading(request, 0), Idle);
    states, steps := RunGoesOn(w, states, steps, Two(created, Reading(request, 0), Idle), Access("x"));
    CallsBegin(w, created, Looking(work), Idle, request);
    states, steps := RunGoesOn(w, states, steps, Two(created, Looking(work), Idle), Call("y", request));
    YMoves(w, created, Looking(work), Opening(request, 0));
    states, steps := RunGoesOn(w, states, steps, Two(created, Looking(work), Opening(request, 0)), Access("y"));
    YMoves(w, created, Looking(work), Reading(request, 0));
    states, steps := RunGoesOn(w, states, steps, Two(created, Looking(work), Reading(request, 0)), Access("y"));
    YMoves(w, created, Looking(work), Looking(work));
    states, steps := RunGoesOn(w, states, steps, Two(created, Looking(work), Looking(work)), Access("y"));
    YMoves(w, created, Looking(work), Claiming(work));
    states, steps := RunGoesOn(w, states, steps, Two(created, Looking(work), Claiming(work)), Access("y"));
    YMoves(w, created, Looking(work), Committing(drafted));
    states, steps := RunGoesOn(w, states, steps, Two(created, Looking(work), Committing(drafted)), Access("y"));
    var answering := Paging(request, 1, [d], true);
    XMoves(w, later, Looking(work), answering);
    states, steps := RunGoesOn(w, states, steps, Two(later, Looking(work), answering), Access("x"));
    XMoves(w, later, Paging(request, 0, [d], false), answering);
    states, steps := RunGoesOn(w, states, steps, Two(later, Paging(request, 0, [d], false), answering), Access("x"));
    LastOfTwo(later, Done(request, Err(MalformedResponse), false), answering);
  }

  lemma SmallSize(db: Db, work: Work)
    requires db.stream == Some(StreamRow(0, work.state)) || (db.stream.Some? && db.stream.value.head == 0)
    requires |work.request.proposals| == 1
    ensures Size(db) + |work.request.proposals| <= MAX_SAFE
  {
  }

  /** A run takes one more step from its last state. */
  lemma RunGoesOn(w: World, states: seq<D1Authority.System>, steps: seq<D1Authority.Step>,
                  s: D1Authority.System, step: D1Authority.Step)
    returns (longer: seq<D1Authority.System>, more: seq<D1Authority.Step>)
    requires D1Runs.IsRun(w, {"x", "y"}, 0, states, steps) && |states| > 0 && states[|states| - 1] == s
    requires step.actor in s.actors && Fits(s, step)
    ensures D1Runs.IsRun(w, {"x", "y"}, 0, longer, more)
    ensures |longer| > 0 && longer[|longer| - 1] == D1Authority.Next(w, s, step)
  {
    hide D1Authority.Next, Fits, D1Runs.Start;
    longer, more := states + [D1Authority.Next(w, s, step)], steps + [step];
  }

  lemma OneProposalIsValid(w: World, p: Proposal)
    requires Lawful(w) && ValidIdentity(p.operationId, p.clientId, p.clientSequence, p.intentHash)
    ensures ValidRequest(Request(0, 1, [p]), w.limits)
  {
  }

  lemma FirstCallMoves(w: World, p: Proposal, operation: Operation, created: Db, work: Work, drafted: Work, later: Db)
    requires w.log.decide(w.initial, p) == Accept(operation)
    requires created == Db(Some(StreamRow(0, w.initial)), map[], map[])
    requires work == Work(Request(0, 1, [p]), 0, 0, 0, w.initial, [], []) && drafted == Judge(w.log, work, p)
    requires ExecBatch(created, Batch(drafted)) == Ok(later) && later.stream.Some?
    ensures Turn(w, EMPTY, Opening(work.request, 0), 0) == Turned(created, Reading(work.request, 0))
    ensures Turn(w, created, Opening(work.request, 0), 0) == Turned(created, Reading(work.request, 0))
    ensures Turn(w, created, Reading(work.request, 0), 0) == Turned(created, Looking(work))
    ensures Turn(w, created, Looking(work), 0) == Turned(created, Claiming(work))
    ensures Turn(w, created, Claiming(work), 0) == Turned(created, Committing(drafted))
    ensures Turn(w, created, Committing(drafted), 0)
         == Turned(later, Paging(work.request, 1, [Accepted(p.operationId, 1, operation)], true))
  {
    hide ExecBatch;
    assert drafted.decisions == [Accepted(p.operationId, 1, operation)];
  }

  lemma LastCallMoves(w: World, p: Proposal, d: Decision, later: Db, work: Work)
    requires Lawful(w) && d.Accepted? && d.sequence == 1 && d.operationId == p.operationId != ""
    requires work == Work(Request(0, 1, [p]), 0, 0, 0, w.initial, [], [])
    requires later.decisions == map[p.operationId := Store(p, d)]
    ensures Turn(w, later, Looking(work), 0) == Turned(later, Paging(work.request, 0, [d], false))
    ensures Turn(w, later, Paging(work.request, 0, [d], false), 0)
         == Turned(later, Done(work.request, Err(MalformedResponse), false))
  {
    assert Found(work, d).decisions == [d] && ReadStoredDecision(later, p) == Ok(Some(d));
    var response := PageResponse(later, work.request, w.limits, 0, [d]);
    assert response == Response(0, 0, 0, [], [d]);
    AheadOfHead(w, response, d);
    hide ResponseCheck;
  }

  lemma TwoStart(w: World)
    ensures D1Runs.IsRun(w, {"x", "y"}, 0, [Two(EMPTY, Idle, Idle)], [])
  {
    var m := D1Runs.Start({"x", "y"}, 0).actors;
    assert m.Keys == {"x", "y"} && m["x"] == Idle && m["y"] == Idle;
    assert m == map["x" := Idle, "y" := Idle];
  }

  lemma LastOfTwo(db: Db, x: Actor, y: Actor)
    ensures "x" in Two(db, x, y).actors && Two(db, x, y).actors["x"] == x && Two(db, x, y).db == db
  {
    assert "x" != "y";
  }

  lemma OneAcceptance(w: World, db: Db, drafted: Work, p: Proposal, operation: Operation) returns (later: Db)
    requires db == Db(Some(StreamRow(0, w.initial)), map[], map[])
    requires var d := Accepted(p.operationId, 1, operation);
      && drafted.initialHead == 0 && drafted.head == 1
      && drafted.statements == [InsertDecision(Store(p, d)), InsertEntry(Commit(p, 1, operation))]
    ensures ExecBatch(db, Batch(drafted)) == Ok(later)
    ensures later.stream == Some(StreamRow(1, drafted.state))
    ensures later.decisions == map[p.operationId := Store(p, Accepted(p.operationId, 1, operation))]
  {
    var batch := Batch(drafted);
    var one := Write(db, batch[0]);
    var two := Write(one, batch[1]);
    later := Write(two, batch[2]);
    ExecNext(db, batch, 0, db);
    ExecNext(db, batch, 1, one);
    ExecNext(db, batch, 2, two);
    assert batch[..3] == batch;
  }

  lemma ExecNext(db: Db, statements: seq<Statement>, k: nat, before: Db)
    requires k < |statements| && ExecBatch(db, statements[..k]) == Ok(before)
    ensures ExecBatch(db, statements[..k + 1]) == Exec(before, statements[k])
  {
    assert statements[..k + 1][..k] == statements[..k];
  }

  lemma AheadOfHead(w: World, response: Response, d: Decision)
    requires Lawful(w) && d.Accepted? && d.operationId != "" && d.sequence == 1
    requires response == Response(0, 0, 0, [], [d])
    ensures ResponseCheck(response, Some(w.limits)) == Fail(MalformedResponse)
  {
    assert FirstFailure(DecisionsChecker(response), 0).Pass?;
    assert DecisionsChecker(response)(0) == DecisionCheck(response, 0);
    assert response.decisions[..0] == [];
  }
}
