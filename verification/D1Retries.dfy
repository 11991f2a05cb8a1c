/** src/next/d1.ts:246-265: when a call of the durable authority gives up, and when it need not. */
module D1Retries {
  import opened Protocol
  import opened Validators
  import opened LogServer
  import opened D1Tables
  import opened D1Authority
  import opened D1Runs
  import opened D1Calls
  import opened D1Alone

  /* ---- Lost commits ---- */

  /** The call tries to commit and cannot: the database is locked, or another call was there first. */
  predicate Loses(s: System, step: Step, id: string) {
    && id in s.actors && s.actors[id].Committing? && step.actor == id
    && (step.Locked? || (step.Access? && !Undisturbed(s.db, s.actors[id].work)))
  }

  predicate Begins(s: System, step: Step, id: string) {
    step.Call? && step.actor == id && id in s.actors && (s.actors[id].Idle? || s.actors[id].Done?)
  }

  /** How many commits the latest call of this actor has lost by the n-th state. */
  function Losses(states: seq<System>, steps: seq<Step>, id: string, n: nat): nat
    requires n <= |steps| && n < |states|
  {
    if n == 0 then 0
    else if Begins(states[n - 1], steps[n - 1], id) then 0
    else Losses(states, steps, id, n - 1) + (if Loses(states[n - 1], steps[n - 1], id) then 1 else 0)
  }

  predicate GaveUp(actor: Actor) { actor.Done? && actor.result == Err(CommitConflict) }

  /** What the losses so far say about where the call is. */
  predicate Counted(actor: Actor, losses: nat, retries: nat) {
    && losses <= retries + 1
    && (GaveUp(actor) <==> losses == retries + 1)
    && (actor.Opening? || actor.Reading? ==> actor.attempt == losses)
    && (actor.Looking? || actor.Claiming? || actor.Committing? ==> actor.work.attempt == losses)
  }

  /** No validation of a request speaks of a commit. */
  lemma RequestErrorIsAnother(request: Request, limits: Limits)
    ensures RequestCheck(request, limits) != Fail(CommitConflict)
  {
    var ps := request.proposals;
    assert forall i: nat :: BatchChecker(ps)(i) == ProposalCheck(ps, i);
  }

  lemma LockedStartsOver(w: World, s: System, id: string)
    requires id in s.actors && s.actors[id].Committing?
    ensures var t := Next(w, s, Locked(id));
      t.db == s.db && id in t.actors && StartsOver(s.actors[id].work, t.actors[id], s.maximumCommitRetries)
  {
  }

  /** In every reachable state, a lost commit changes no table and starts the call over, with the
      same request, as long as attempts are left; the last one ends it in a commit conflict. */
  lemma LostCommitStartsOver(w: World, s: System, step: Step, id: string)
    requires Lawful(w) && Reachable(w, s) && step.actor in s.actors && Fits(s, step) && Loses(s, step, id)
    ensures var work, t := s.actors[id].work, Next(w, s, step);
      && t.db == s.db && id in t.actors
      && t.actors[id] ==
         if work.attempt < s.maximumCommitRetries then Opening(work.request, work.attempt + 1)
         else Done(work.request, Err(CommitConflict), false)
  {
    hide Reachable, Next, Lawful, Undisturbed;
    if step.Access? {
      CommitsExactlyWhenUndisturbed(w, s, id);
    } else {
      LockedStartsOver(w, s, id);
    }
    NextKeepsActors(w, s, step);
  }

  lemma NextKeepsActors(w: World, s: System, step: Step)
    requires step.actor in s.actors
    ensures var t := Next(w, s, step);
      && t.actors.Keys == s.actors.Keys && t.maximumCommitRetries == s.maximumCommitRetries
      && forall j | j in s.actors && j != step.actor :: t.actors[j] == s.actors[j]
  {
    hide Turn, Retry, RequestCheck;
  }

  /** An access that is no commit and reads no page: the attempt stays, and a failure is of another kind. */
  lemma ReadingKeepsAttempt(w: World, db: Db, actor: Actor, losses: nat, retries: nat)
    requires Counted(actor, losses, retries) && !actor.Committing? && !actor.Paging?
    ensures Counted(Turn(w, db, actor, retries).actor, losses, retries)
  {
    hide ResponseCheck, PositionAvailable;
  }

  lemma PagingKeepsCount(w: World, s: System, id: string, losses: nat)
    requires Lawful(w) && Reachable(w, s) && id in s.actors && s.actors[id].Paging?
    requires Counted(s.actors[id], losses, s.maximumCommitRetries)
    ensures id in Next(w, s, Access(id)).actors
    ensures Counted(Next(w, s, Access(id)).actors[id], losses, s.maximumCommitRetries)
  {
    hide Lawful, Reachable, Next;
    RefusedExactlyBeyondHead(w, s, id);
  }

  /** One step of a run, for the count of one actor. */
  lemma StepCounts(w: World, s: System, step: Step, id: string, losses: nat)
    requires Lawful(w) && Reachable(w, s) && step.actor in s.actors && Fits(s, step) && id in s.actors
    requires Counted(s.actors[id], losses, s.maximumCommitRetries)
    ensures id in Next(w, s, step).actors
    ensures Counted(Next(w, s, step).actors[id],
                    if Begins(s, step, id) then 0 else losses + (if Loses(s, step, id) then 1 else 0),
                    s.maximumCommitRetries)
  {
    NextKeepsActors(w, s, step);
    hide Lawful, Reachable, Fits, Turn, RequestCheck, Undisturbed;
    if step.actor == id {
      if Loses(s, step, id) {
        LostCommitStartsOver(w, s, step, id);
      } else {
        match step
        case Call(_, request) => RequestErrorIsAnother(request, w.limits);
        case Locked(_) =>
        case Access(_) =>
          if s.actors[id].Paging? {
            PagingKeepsCount(w, s, id, losses);
          } else if s.actors[id].Committing? {
            CommitsExactlyWhenUndisturbed(w, s, id);
          } else {
            ReadingKeepsAttempt(w, s.db, s.actors[id], losses, s.maximumCommitRetries);
          }
      }
    }
  }

  /** In every run and for every actor: the latest call has ended in a commit conflict if and only if
      it has lost one commit more than it may retry. It never loses more, and otherwise what it has
      lost is the number of its attempt. */
  lemma {:induction false} GivesUpExactlyAfterLosses(w: World, ids: set<string>, retries: nat,
                                                     states: seq<System>, steps: seq<Step>, n: nat, id: string)
    requires Lawful(w) && IsRun(w, ids, retries, states, steps) && n <= |steps| && id in ids
    ensures n < |states| && id in states[n].actors && states[n].maximumCommitRetries == retries
    ensures Counted(states[n].actors[id], Losses(states, steps, id, n), retries)
  {
    hide Lawful, Next, Fits, Counted, Begins, Loses;
    if n == 0 {
      StartCounts(ids, retries, id);
    } else {
      GivesUpExactlyAfterLosses(w, ids, retries, states, steps, n - 1, id);
      OfRun(w, ids, retries, states, steps, n - 1);
      StepCounts(w, states[n - 1], steps[n - 1], id, Losses(states, steps, id, n - 1));
      NextKeepsActors(w, states[n - 1], steps[n - 1]);
    }
  }

  lemma StartCounts(ids: set<string>, retries: nat, id: string)
    requires id in ids
    ensures Counted(Start(ids, retries).actors[id], 0, retries)
  {
  }

  lemma OfRun(w: World, ids: set<string>, retries: nat, states: seq<System>, steps: seq<Step>, n: nat)
    requires IsRun(w, ids, retries, states, steps) && n < |states|
    ensures Reachable(w, states[n])
  {
    hide IsRun;
  }

  /* ---- A call that nobody disturbs ---- */

  /** The result and the tables that the in-memory server gives on the authority a. */
  ghost predicate AnsweredLike(w: World, a: Authority, request: Request, db: Db, result: Result<Response>) {
    && 0 <= w.limits.maximumEntries
    && match Synchronize(w, a, request)
       case Ok(answer) => result == Ok(answer.response) && Holds(w, db, answer.after)
       case Err(error) => result == Err(error) && Holds(w, db, a)
  }

  /** The page that the call is about to read is the one that the in-memory server sends. */
  ghost predicate PageIsTheirs(w: World, a: Authority, request: Request, db: Db, head: int, ds: seq<Decision>) {
    var response := PageResponse(db, request, w.limits, head, ds);
    && 0 <= w.limits.maximumEntries
    && Synchronize(w, a, request).Ok? && Synchronize(w, a, request).value.response == response
    && Holds(w, db, Synchronize(w, a, request).value.after)
    && ResponseCheck(response, Some(w.limits)).Pass?
  }

  /** The call has read nothing that has changed since. */
  ghost predicate UpToDate(w: World, a: Authority, request: Request, db: Db, work: Work, retries: nat) {
    && work.request == request
    && Holds(w, db, a) && db.stream.Some?
    && WorkInv(w, a, work, retries)
    && Future(w, a, a, work)
  }

  ghost predicate OnTrack(w: World, a: Authority, request: Request, db: Db, actor: Actor, retries: nat) {
    match actor
    case Idle => false
    case Opening(r, attempt) => r == request && Holds(w, db, a) && ValidRequest(request, w.limits) && attempt <= retries
    case Reading(r, attempt) =>
      r == request && Holds(w, db, a) && db.stream.Some? && ValidRequest(request, w.limits) && attempt <= retries
    case Looking(work) => UpToDate(w, a, request, db, work, retries) && |work.decisions| < |request.proposals|
    case Claiming(work) =>
      && UpToDate(w, a, request, db, work, retries) && |work.decisions| < |request.proposals|
      && ReadStoredDecision(db, request.proposals[|work.decisions|]) == Ok(None)
    case Committing(work) => UpToDate(w, a, request, db, work, retries) && |work.decisions| == |request.proposals|
    case Paging(r, head, ds, _) => r == request && PageIsTheirs(w, a, request, db, head, ds)
    case Done(r, result, _) => r == request && AnsweredLike(w, a, request, db, result)
  }

  /** How many accesses are left at most. */
  function Left(request: Request, actor: Actor): int {
    match actor
    case Idle => 0
    case Opening(_, _) => 2 * |request.proposals| + 4
    case Reading(_, _) => 2 * |request.proposals| + 3
    case Looking(work) => 2 * (|request.proposals| - |work.decisions|) + 2
    case Claiming(work) => 2 * (|request.proposals| - |work.decisions|) + 1
    case Committing(_) => 2
    case Paging(_, _, _, _) => 1
    case Done(_, _, _) => 0
  }

  lemma ProceedsOnTrack(w: World, a: Authority, request: Request, db: Db, work: Work, retries: nat)
    requires Lawful(w) && Sound(w, a) && UpToDate(w, a, request, db, work, retries)
    ensures OnTrack(w, a, request, db, Proceed(work), retries)
    ensures Left(request, Proceed(work)) <= 2 * (|request.proposals| - |work.decisions|) + 2
  {
    hide *;
    UpToDateParts(w, a, request, db, work, retries);
    CountedWork(w, a, work, retries);
    if |work.decisions| == |request.proposals| && work.statements == [] {
      ReadOnlyIsTheirs(w, db, a, work, retries);
      PageFrom(w, a, request, db, a, work);
    }
    ProceedMeans(w, a, request, db, work, retries);
  }

  lemma UpToDateParts(w: World, a: Authority, request: Request, db: Db, work: Work, retries: nat)
    requires UpToDate(w, a, request, db, work, retries)
    ensures work.request == request && Holds(w, db, a) && db.stream.Some? && WorkInv(w, a, work, retries)
    ensures Future(w, a, a, work)
  {
    hide Holds, WorkInv, Future;
  }

  lemma ProceedMeans(w: World, a: Authority, request: Request, db: Db, work: Work, retries: nat)
    requires UpToDate(w, a, request, db, work, retries) && work.request == request
    requires |work.decisions| <= |request.proposals|
    requires |work.decisions| == |request.proposals| && work.statements == [] ==>
      PageIsTheirs(w, a, request, db, work.head, work.decisions)
    ensures OnTrack(w, a, request, db, Proceed(work), retries)
    ensures Left(request, Proceed(work)) <= 2 * (|request.proposals| - |work.decisions|) + 2
  {
    hide UpToDate, PageIsTheirs, AnsweredLike;
  }

  lemma CountedWork(w: World, a: Authority, work: Work, retries: nat)
    requires WorkInv(w, a, work, retries)
    ensures |work.decisions| <= |work.request.proposals| && work.attempt <= retries
  {
    hide Plan, Answers, RowIds, RowSlots, ProposalIds, Slots;
  }

  lemma PageFrom(w: World, a: Authority, request: Request, db: Db, c: Authority, work: Work)
    requires 1 <= w.limits.maximumEntries && Holds(w, db, c)
    requires Synchronize(w, a, request) == Ok(Answer(c, PageResponse(db, request, w.limits, work.head, work.decisions)))
    requires ResponseCheck(PageResponse(db, request, w.limits, work.head, work.decisions), Some(w.limits)).Pass?
    ensures PageIsTheirs(w, a, request, db, work.head, work.decisions)
  {
    hide Synchronize, ResponseCheck, PageResponse, Holds;
  }

  lemma OpeningOnTrack(w: World, a: Authority, request: Request, db: Db, actor: Actor, retries: nat)
    requires OnTrack(w, a, request, db, actor, retries) && actor.Opening?
    ensures var t := Turn(w, db, actor, retries);
      OnTrack(w, a, request, t.db, t.actor, retries) && Left(request, t.actor) < Left(request, actor)
  {
    hide ValidRequest;
    StreamCreated(w, db, a);
  }

  lemma ReadingOnTrack(w: World, a: Authority, request: Request, db: Db, actor: Actor, retries: nat)
    requires Lawful(w) && Sound(w, a) && OnTrack(w, a, request, db, actor, retries) && actor.Reading?
    ensures var t := Turn(w, db, actor, retries);
      OnTrack(w, a, request, t.db, t.actor, retries) && Left(request, t.actor) < Left(request, actor)
  {
    hide Lawful, Sound, Future, WorkInv, Proceed, Synchronize, ValidRequest;
    LimitsAreNatural(w);
    StreamIsTheirs(w, db, a);
    hide Holds;
    if request.baseSequence <= db.stream.value.head {
      var stream := db.stream.value;
      StreamReadKeeps(w, db, a, request, actor.attempt, retries);
      FreshWork(w, a, request, actor.attempt);
      ProceedsOnTrack(w, a, request, db, Work(request, actor.attempt, stream.head, stream.head, stream.state, [], []), retries);
    } else {
      RequestCheckIsValidRequest(request, w.limits);
      BaseFails(w, a, request);
    }
  }

  lemma FreshWork(w: World, a: Authority, request: Request, attempt: nat)
    requires Sound(w, a)
    ensures Future(w, a, a, Work(request, attempt, |a.log|, |a.log|, a.state, [], []))
  {
    hide Coherent;
  }

  lemma LookingOnTrack(w: World, a: Authority, request: Request, db: Db, actor: Actor, retries: nat)
    requires Lawful(w) && Sound(w, a) && OnTrack(w, a, request, db, actor, retries) && actor.Looking?
    ensures var t := Turn(w, db, actor, retries);
      OnTrack(w, a, request, t.db, t.actor, retries) && Left(request, t.actor) < Left(request, actor)
  {
    hide Lawful, Sound, Holds, Future, WorkInv, Proceed, Synchronize, ReadStoredDecision, Found, ValidRequest;
    LimitsAreNatural(w);
    var work := actor.work;
    var p := request.proposals[|work.decisions|];
    match ReadStoredDecision(db, p)
    case Err(error) => ErrorsLikeTheirs(w, a, request, db, work, retries, error);
    case Ok(None) =>
    case Ok(Some(d)) =>
      FoundIsRemembered(w, db, a, p, d);
      FoundKeeps(w, a, work, d, retries);
      SameStatements(w, a, work, d);
      ProceedsOnTrack(w, a, request, db, Found(work, d), retries);
  }

  lemma ErrorsLikeTheirs(w: World, a: Authority, request: Request, db: Db, work: Work, retries: nat, error: Error)
    requires Lawful(w) && Sound(w, a) && UpToDate(w, a, request, db, work, retries)
    requires |work.decisions| < |request.proposals|
    requires var p := request.proposals[|work.decisions|];
      || ReadStoredDecision(db, p) == Err(error)
      || (ReadStoredDecision(db, p) == Ok(None) && !PositionAvailable(db, p)
          && error == ClientSequenceConflict(p.clientId, p.clientSequence))
    ensures AnsweredLike(w, a, request, db, Err(error))
  {
    hide Lawful, Sound, Holds, Future, WorkInv, Synchronize, ReadStoredDecision, PositionAvailable, DecideAll, ValidRequest;
    LimitsAreNatural(w);
    WorkParts(w, a, work, retries);
    ReadErrorIsTheirs(w, db, a, work, retries, error);
    ErrorIsTheirs(w, a, request, error);
  }

  lemma ClaimingOnTrack(w: World, a: Authority, request: Request, db: Db, actor: Actor, retries: nat)
    requires Lawful(w) && Sound(w, a) && OnTrack(w, a, request, db, actor, retries) && actor.Claiming?
    ensures var t := Turn(w, db, actor, retries);
      OnTrack(w, a, request, t.db, t.actor, retries) && Left(request, t.actor) < Left(request, actor)
  {
    hide Lawful, Sound, Holds, Future, WorkInv, Proceed, Synchronize, ReadStoredDecision, Judge, PositionAvailable, ValidRequest;
    LimitsAreNatural(w);
    var work := actor.work;
    var p := request.proposals[|work.decisions|];
    if PositionAvailable(db, p) {
      WorkParts(w, a, work, retries);
      JudgedKeeps(w, a, work, retries);
      NotThereIsFree(w, db, a, work, p);
      JudgeShape(w.log, work, p);
      ProceedsOnTrack(w, a, request, db, Judge(w.log, work, p), retries);
    } else {
      ErrorsLikeTheirs(w, a, request, db, work, retries, ClientSequenceConflict(p.clientId, p.clientSequence));
    }
  }

  lemma CommittingOnTrack(w: World, a: Authority, request: Request, db: Db, actor: Actor, retries: nat)
    requires Lawful(w) && Sound(w, a) && OnTrack(w, a, request, db, actor, retries) && actor.Committing?
    requires |a.log| + |request.proposals| <= MAX_SAFE
    ensures var t := Turn(w, db, actor, retries);
      OnTrack(w, a, request, t.db, t.actor, retries) && Left(request, t.actor) < Left(request, actor)
  {
    hide Lawful, Sound, Holds, Future, WorkInv, Synchronize, ExecBatch, Batch, PageIsTheirs, ResponseCheck;
    var work := actor.work;
    var c := CommitIsTheirs(w, db, a, work, retries);
    var d := CommitKeeps(w, db, a, work, retries);
    PageFrom(w, a, request, ExecBatch(db, Batch(work)).value, c, work);
  }

  lemma PagingOnTrack(w: World, a: Authority, request: Request, db: Db, actor: Actor, retries: nat)
    requires OnTrack(w, a, request, db, actor, retries) && actor.Paging?
    ensures var t := Turn(w, db, actor, retries);
      OnTrack(w, a, request, t.db, t.actor, retries) && Left(request, t.actor) < Left(request, actor)
  {
    hide Synchronize, ResponseCheck, PageResponse, Holds;
  }

  /** Each access of an undisturbed call brings it nearer to the in-memory server's answer. */
  lemma TurnStaysOnTrack(w: World, a: Authority, request: Request, db: Db, actor: Actor, retries: nat)
    requires Lawful(w) && Sound(w, a) && OnTrack(w, a, request, db, actor, retries)
    requires actor.Committing? ==> |a.log| + |request.proposals| <= MAX_SAFE
    ensures var t := Turn(w, db, actor, retries);
      && OnTrack(w, a, request, t.db, t.actor, retries)
      && (Left(request, t.actor) < Left(request, actor) || t.actor.Done?)
  {
    hide Lawful, Sound, OnTrack, Left, Turn;
    match actor
    case Idle => NeverIdle(w, a, request, db, retries);
    case Opening(_, _) => OpeningOnTrack(w, a, request, db, actor, retries);
    case Reading(_, _) => ReadingOnTrack(w, a, request, db, actor, retries);
    case Looking(_) => LookingOnTrack(w, a, request, db, actor, retries);
    case Claiming(_) => ClaimingOnTrack(w, a, request, db, actor, retries);
    case Committing(_) => CommittingOnTrack(w, a, request, db, actor, retries);
    case Paging(_, _, _, _) => PagingOnTrack(w, a, request, db, actor, retries);
    case Done(_, _, _) => DoneStays(w, db, actor, retries);
  }

  lemma NeverIdle(w: World, a: Authority, request: Request, db: Db, retries: nat)
    ensures !OnTrack(w, a, request, db, Idle, retries)
  {
  }

  lemma DoneStays(w: World, db: Db, actor: Actor, retries: nat)
    requires actor.Done?
    ensures Turn(w, db, actor, retries) == Turned(db, actor)
  {
  }

  /** From the i-th state to the j-th, this call only makes its accesses, and the steps of the other
      calls change no table. */
  ghost predicate Quiet(states: seq<System>, steps: seq<Step>, id: string, i: nat, j: nat)
    requires i <= j <= |steps| && |states| == |steps| + 1
  {
    forall k | i <= k < j :: QuietAt(states, steps, id, k)
  }

  predicate QuietAt(states: seq<System>, steps: seq<Step>, id: string, k: nat)
    requires k < |steps| && |states| == |steps| + 1
  {
    if steps[k].actor == id then steps[k].Access? else states[k + 1].db == states[k].db
  }

  lemma QuietParts(states: seq<System>, steps: seq<Step>, id: string, i: nat, j: nat)
    requires i < j <= |steps| && |states| == |steps| + 1 && Quiet(states, steps, id, i, j)
    ensures Quiet(states, steps, id, i, j - 1)
    ensures if steps[j - 1].actor == id then steps[j - 1].Access? else states[j].db == states[j - 1].db
  {
    assert QuietAt(states, steps, id, j - 1);
  }

  function Accesses(steps: seq<Step>, id: string, i: nat, j: nat): nat
    requires i <= j <= |steps|
  {
    if i == j then 0 else Accesses(steps, id, i, j - 1) + (if steps[j - 1].actor == id then 1 else 0)
  }

  lemma AccessMeans(w: World, s: System, id: string)
    requires id in s.actors
    ensures var t, turned := Next(w, s, Access(id)), Turn(w, s.db, s.actors[id], s.maximumCommitRetries);
      t.db == turned.db && id in t.actors && t.actors[id] == turned.actor
  {
    hide Turn;
  }

  lemma RoomToCommit(w: World, a: Authority, request: Request, s: System, id: string, retries: nat)
    requires id in s.actors && s.actors[id].Committing? && Fits(s, Access(id))
    requires OnTrack(w, a, request, s.db, s.actors[id], retries)
    ensures |a.log| + |request.proposals| <= MAX_SAFE
  {
    hide WorkInv, Future, HoldsRows;
  }

  /** One step of a quiet stretch. */
  lemma QuietStep(w: World, a: Authority, request: Request, s: System, step: Step, id: string)
    requires Lawful(w) && Sound(w, a) && id in s.actors && step.actor in s.actors && Fits(s, step)
    requires OnTrack(w, a, request, s.db, s.actors[id], s.maximumCommitRetries)
    requires if step.actor == id then step.Access? else Next(w, s, step).db == s.db
    ensures var t := Next(w, s, step);
      && id in t.actors && OnTrack(w, a, request, t.db, t.actors[id], s.maximumCommitRetries)
      && (t.actors[id].Done?
          || Left(request, t.actors[id]) + (if step.actor == id then 1 else 0) <= Left(request, s.actors[id]))
  {
    NextKeepsActors(w, s, step);
    hide Lawful, Sound, OnTrack, Left, Next, Turn, Fits;
    if step.actor == id {
      AccessMeans(w, s, id);
      if s.actors[id].Committing? {
        RoomToCommit(w, a, request, s, id, s.maximumCommitRetries);
      }
      TurnStaysOnTrack(w, a, request, s.db, s.actors[id], s.maximumCommitRetries);
    }
  }

  lemma {:induction false} QuietStretch(w: World, ids: set<string>, retries: nat, states: seq<System>, steps: seq<Step>,
                                        i: nat, j: nat, id: string, a: Authority, request: Request)
    requires Lawful(w) && Sound(w, a) && IsRun(w, ids, retries, states, steps) && i <= j <= |steps| && id in ids
    requires |states| == |steps| + 1 && Quiet(states, steps, id, i, j)
    requires id in states[i].actors && OnTrack(w, a, request, states[i].db, states[i].actors[id], retries)
    ensures id in states[j].actors && OnTrack(w, a, request, states[j].db, states[j].actors[id], retries)
    ensures states[j].actors[id].Done?
         || Left(request, states[j].actors[id]) + Accesses(steps, id, i, j) <= Left(request, states[i].actors[id])
  {
    hide Lawful, Sound, OnTrack, Left, Next, Fits, Losses, Counted, Quiet;
    if i < j {
      QuietParts(states, steps, id, i, j);
      QuietStretch(w, ids, retries, states, steps, i, j - 1, id, a, request);
      GivesUpExactlyAfterLosses(w, ids, retries, states, steps, j - 1, id);
      QuietStep(w, a, request, states[j - 1], steps[j - 1], id);
      if states[j - 1].actors[id].Done? && steps[j - 1].actor == id {
        AccessMeans(w, states[j - 1], id);
        DoneStays(w, states[j - 1].db, states[j - 1].actors[id], retries);
      } else {
        NextKeepsActors(w, states[j - 1], steps[j - 1]);
      }
    }
  }

  /** A call that nobody disturbs from some attempt on is answered, whatever it lost before: after at
      most two accesses per proposal and four more it has the in-memory server's answer, or its error,
      on the authority that the tables held, and they hold what that server would leave. */
  lemma UndisturbedCallIsAnswered(w: World, ids: set<string>, retries: nat, states: seq<System>, steps: seq<Step>,
                                  i: nat, j: nat, id: string) returns (a: Authority)
    requires Lawful(w) && IsRun(w, ids, retries, states, steps) && i <= j <= |steps| && id in ids
    requires |states| == |steps| + 1 && Quiet(states, steps, id, i, j)
    requires id in states[i].actors && states[i].actors[id].Opening?
    requires Accesses(steps, id, i, j) >= 2 * |states[i].actors[id].request.proposals| + 4
    ensures Sound(w, a) && Holds(w, states[i].db, a) && 0 <= w.limits.maximumEntries
    ensures var request := states[i].actors[id].request;
      && id in states[j].actors && states[j].actors[id].Done?
      && match Synchronize(w, a, request)
         case Ok(answer) => states[j].actors[id].result == Ok(answer.response) && Holds(w, states[j].db, answer.after)
         case Err(error) => states[j].actors[id].result == Err(error) && Holds(w, states[j].db, a)
  {
    hide *;
    LimitsAreNatural(w);
    GivesUpExactlyAfterLosses(w, ids, retries, states, steps, i, id);
    OfRun(w, ids, retries, states, steps, i);
    a := ReachableStands(w, states[i]);
    ActorOf(w, states[i], a, id);
    var request := states[i].actors[id].request;
    OpeningIsOnTrack(w, a, states[i], id);
    QuietStretch(w, ids, retries, states, steps, i, j, id, a, request);
    NothingLeft(w, a, request, states[j].db, states[j].actors[id], retries, states[i].actors[id], Accesses(steps, id, i, j));
    OnTrackDone(w, a, request, states[j].db, states[j].actors[id], retries);
  }

  lemma OpeningIsOnTrack(w: World, a: Authority, s: System, id: string)
    requires id in s.actors && s.actors[id].Opening? && Holds(w, s.db, a)
    requires ActorInv(w, s.db.stream.Some?, a, s.actors[id], s.maximumCommitRetries)
    ensures OnTrack(w, a, s.actors[id].request, s.db, s.actors[id], s.maximumCommitRetries)
  {
  }

  lemma NothingLeft(w: World, a: Authority, request: Request, db: Db, actor: Actor, retries: nat, first: Actor, accesses: nat)
    requires OnTrack(w, a, request, db, actor, retries) && first.Opening? && accesses >= 2 * |request.proposals| + 4
    requires actor.Done? || Left(request, actor) + accesses <= Left(request, first)
    ensures actor.Done?
  {
    hide UpToDate, PageIsTheirs, AnsweredLike, ValidRequest, Holds;
  }

  lemma OnTrackDone(w: World, a: Authority, request: Request, db: Db, actor: Actor, retries: nat)
    requires OnTrack(w, a, request, db, actor, retries) && actor.Done?
    ensures actor.request == request && 0 <= w.limits.maximumEntries
    ensures match Synchronize(w, a, request)
      case Ok(answer) => actor.result == Ok(answer.response) && Holds(w, db, answer.after)
      case Err(error) => actor.result == Err(error) && Holds(w, db, a)
  {
    hide Synchronize, Holds;
  }
}
