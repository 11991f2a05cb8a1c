/** The protocol with the durable authority in place of the in-memory one: the clients and the network
    of ProtocolRuns, and calls of D1Authority that handle any copy of any request ever sent, their
    database accesses interleaved with each other and with everything the clients do. */
module DurableRuns {
  import opened Protocol
  import opened Validators
  import opened LogServer
  import opened Replicas
  import opened Knowledge
  import opened Clients
  import opened ClientSteps
  import opened D1Tables
  import Network = ProtocolRuns
  import Guarantees
  import Calls = D1Authority
  import D1Runs
  import D1Calls

  /** The tables and the calls, and for which client each call works. */
  datatype System = System(
    streamId: string,
    clients: map<string, Client>,
    requests: set<(string, Request)>,
    responses: set<(string, Response)>,
    durable: Calls.System,
    callers: map<string, string>)

  /** A client's own step; a call that begins on a copy of a request, makes an access, or finds the
      database locked; an answer that is put on the network, as often as it likes. */
  datatype Step =
    | Local(step: Network.Step)
    | Begin(actor: string, client: string, request: Request)
    | Access(actor: string)
    | Locked(actor: string)
    | Reply(actor: string)

  /** The system as it would be with the authority a in memory. */
  function View(s: System, a: Authority): Network.System {
    Network.System(s.streamId, a, s.clients, s.requests, s.responses)
  }

  function Start(w: World, streamId: string, firsts: map<string, int>, actors: set<string>, retries: nat): System {
    System(streamId, Network.Start(w, streamId, firsts).clients, {}, {}, D1Runs.Start(actors, retries), map[])
  }

  predicate Free(actor: Calls.Actor) { actor.Idle? || actor.Done? }

  /** A client's step is as in ProtocolRuns, where only handling a request looks at the authority. */
  ghost predicate Allowed(w: World, s: System, step: Step) {
    match step
    case Local(l) => !l.Handle? && Network.Allowed(w, View(s, Initial(w)), l)
    case Begin(id, client, request) => id in s.durable.actors && Free(s.durable.actors[id]) && (client, request) in s.requests
    case Access(id) => id in s.durable.actors && D1Runs.Fits(s.durable, Calls.Access(id))
    case Locked(id) => id in s.durable.actors
    case Reply(id) =>
      && id in s.durable.actors && id in s.callers
      && s.durable.actors[id].Done? && s.durable.actors[id].result.Ok?
  }

  function Next(w: World, s: System, step: Step): Result<System>
    requires Allowed(w, s, step) && 0 <= w.limits.maximumEntries
  {
    match step
    case Local(l) =>
      (match Network.Next(w, View(s, Initial(w)), l)
       case Err(error) => Err(error)
       case Ok(t) => Ok(s.(clients := t.clients, requests := t.requests)))
    case Begin(id, client, request) =>
      Ok(s.(durable := Calls.Next(w, s.durable, Calls.Call(id, request)), callers := s.callers[id := client]))
    case Access(id) => Ok(s.(durable := Calls.Next(w, s.durable, Calls.Access(id))))
    case Locked(id) => Ok(s.(durable := Calls.Next(w, s.durable, Calls.Locked(id))))
    case Reply(id) => Ok(s.(responses := s.responses + {(s.callers[id], s.durable.actors[id].result.value)}))
  }

  /* ---- The invariant ---- */

  function RequestOf(actor: Calls.Actor): Request
    requires !actor.Idle?
  {
    match actor
    case Opening(request, _) => request
    case Reading(request, _) => request
    case Looking(work) => work.request
    case Claiming(work) => work.request
    case Committing(work) => work.request
    case Paging(request, _, _, _) => request
    case Done(request, _, _) => request
  }

  /** Every call at work works on a request that its client sent. */
  ghost predicate Called(s: System) {
    forall id | id in s.durable.actors && !s.durable.actors[id].Idle? ::
      id in s.callers && (s.callers[id], RequestOf(s.durable.actors[id])) in s.requests
  }

  /** A call that was not answered gave up on committing, or was refused its answer; either way the
      same request may be tried again. */
  predicate EndsWell(actor: Calls.Actor) {
    actor.Done? && actor.result.Err? ==> actor.result.error == CommitConflict || actor.result.error == MalformedResponse
  }

  ghost predicate EndWell(s: System) {
    forall id | id in s.durable.actors :: EndsWell(s.durable.actors[id])
  }

  ghost predicate Inv(w: World, s: System, a: Authority) {
    && Network.SystemInv(w, View(s, a))
    && D1Runs.Inv(w, s.durable, a)
    && Called(s)
    && EndWell(s)
  }

  lemma InvParts(w: World, s: System, a: Authority)
    requires Inv(w, s, a)
    ensures Network.SystemInv(w, View(s, a)) && D1Runs.Inv(w, s.durable, a) && Called(s) && EndWell(s)
  {
    hide Network.SystemInv, D1Runs.Inv, Called, EndWell;
  }

  lemma InvFrom(w: World, s: System, a: Authority)
    requires Network.SystemInv(w, View(s, a)) && D1Runs.Inv(w, s.durable, a) && Called(s) && EndWell(s)
    ensures Inv(w, s, a)
  {
    hide Network.SystemInv, D1Runs.Inv, Called, EndWell;
  }

  lemma StartIsSafe(w: World, streamId: string, firsts: map<string, int>, actors: set<string>, retries: nat)
    requires forall id | id in firsts :: id != "" && 1 <= firsts[id] <= MAX_SAFE
    ensures Inv(w, Start(w, streamId, firsts, actors, retries), Initial(w))
  {
    hide Network.SystemInv, D1Runs.Inv;
    Network.StartIsSafe(w, streamId, firsts);
    D1Runs.StartHolds(w, actors, retries);
    assert View(Start(w, streamId, firsts, actors, retries), Initial(w)) == Network.Start(w, streamId, firsts);
  }

  /* ---- A client's step ---- */

  /** It does not look at the authority. */
  lemma LocalIgnoresAuthority(w: World, s: System, a: Authority, b: Authority, l: Network.Step)
    requires l.client in s.clients && 0 <= w.limits.maximumEntries && !l.Handle?
    ensures match Network.Next(w, View(s, a), l)
      case Err(error) => Network.Next(w, View(s, b), l) == Err(error)
      case Ok(t) =>
        && t.authority == a && t.streamId == s.streamId && t.responses == s.responses
        && Network.Next(w, View(s, b), l) == Ok(t.(authority := b))
  {
    hide Enqueued, Delivered, Compacted, Acknowledged;
  }

  lemma AllowedIgnoresAuthority(w: World, s: System, a: Authority, l: Network.Step)
    requires !l.Handle? && Network.Allowed(w, View(s, Initial(w)), l)
    ensures Network.Allowed(w, View(s, a), l) && l.client in s.clients
  {
  }

  ghost predicate Grows(s: System, t: System) {
    && t.streamId == s.streamId
    && t.clients.Keys == s.clients.Keys
    && forall id | id in s.clients :: Continues(s.clients[id], t.clients[id])
  }

  lemma LocalKeeps(w: World, s: System, a: Authority, l: Network.Step)
    requires Lawful(w) && Inv(w, s, a) && Allowed(w, s, Local(l)) && 0 <= w.limits.maximumEntries
    ensures Next(w, s, Local(l)).Ok?
    ensures Inv(w, Next(w, s, Local(l)).value, a) && Grows(s, Next(w, s, Local(l)).value)
  {
    hide *;
    InvParts(w, s, a);
    LocalMeans(w, s, l);
    AllowedIgnoresAuthority(w, s, a, l);
    Network.StepIsSafe(w, View(s, a), l);
    LocalIgnoresAuthority(w, s, a, Initial(w), l);
    var t := Network.Next(w, View(s, a), l).value;
    var next := s.(clients := t.clients, requests := t.requests);
    LocalIs(w, s, a, l, t);
    MoreRequests(s, t, a);
    InvFrom(w, next, a);
  }

  lemma LocalMeans(w: World, s: System, l: Network.Step)
    requires Allowed(w, s, Local(l))
    ensures !l.Handle? && Network.Allowed(w, View(s, Initial(w)), l)
  {
    hide Network.Allowed;
  }

  lemma LocalIs(w: World, s: System, a: Authority, l: Network.Step, t: Network.System)
    requires Allowed(w, s, Local(l)) && l.client in s.clients && 0 <= w.limits.maximumEntries
    requires Network.Next(w, View(s, Initial(w)), l) == Ok(t.(authority := Initial(w)))
    requires t.authority == a && t.streamId == s.streamId && t.responses == s.responses
    ensures var next := s.(clients := t.clients, requests := t.requests);
      Next(w, s, Local(l)) == Ok(next) && View(next, a) == t && next.durable == s.durable
  {
    hide Network.Next, Network.Allowed;
  }

  lemma MoreRequests(s: System, t: Network.System, a: Authority)
    requires Network.Advances(View(s, a), t) && Called(s) && EndWell(s)
    ensures var next := s.(clients := t.clients, requests := t.requests);
      Called(next) && EndWell(next) && Grows(s, next)
  {
    hide Extends, Continues, EndsWell;
  }

  /* ---- What a call finds ---- */

  lemma TurnKeepsRequest(w: World, db: Db, actor: Calls.Actor, retries: nat)
    requires !actor.Idle?
    ensures var next := Calls.Turn(w, db, actor, retries).actor; !next.Idle? && RequestOf(next) == RequestOf(actor)
  {
    hide ExecBatch, ResponseCheck, Calls.PageResponse, Calls.ReadStoredDecision, Calls.PositionAvailable;
  }

  /** An operation that is found was decided under the identity it was issued with. */
  lemma FoundIsOwn(w: World, db: Db, a: Authority, issued: seq<Proposal>, p: Proposal)
    requires D1Tables.Holds(w, db, a) && Attributed(issued, a) && p in issued
    ensures Calls.ReadStoredDecision(db, p).Ok?
  {
    assert p.operationId in a.decisions ==> Remembers(a, p);
  }

  /** A position that is taken was taken by the operation it was issued to. */
  lemma PositionIsOwn(w: World, db: Db, a: Authority, id: string, first: int, issued: seq<Proposal>, p: Proposal)
    requires D1Tables.Holds(w, db, a) && Coherent(w, a) && ValidIssue(id, first, issued) && Owned(id, first, issued, a)
    requires p in issued
    ensures Calls.PositionAvailable(db, p)
  {
    hide D1Tables.HoldsRows;
    HeldDecisions(w, db, a);
    CoherentParts(w, a);
    hide Coherent, LogCoherent, PositionsCoherent;
    var m :| 0 <= m < |issued| && issued[m] == p;
    forall k | k in db.decisions && SlotOfStored(db.decisions[k]) == SlotOf(p)
      ensures db.decisions[k].operationId == p.operationId
    {
      assert StoredCoherent(a, k) && a.decisions[k].clientId == id;
    }
  }

  lemma HeldDecisions(w: World, db: Db, a: Authority)
    requires D1Tables.Holds(w, db, a)
    ensures db.decisions == a.decisions && (db.stream.Some? ==> db.stream.value.head == |a.log|)
  {
  }

  /** A call on a request that a client sent ends well, whatever happened between its accesses. */
  lemma TurnEndsWell(w: World, db: Db, a: Authority, actor: Calls.Actor, retries: nat,
                     id: string, first: int, issued: seq<Proposal>, cursor: int)
    requires Sound(w, a) && D1Tables.Holds(w, db, a) && D1Runs.ActorInv(w, db.stream.Some?, a, actor, retries)
    requires !actor.Idle? && EndsWell(actor)
    requires IssueInv(w, id, first, issued, a) && RequestInv(RequestOf(actor), issued, cursor, a, w.limits) && cursor <= |a.log|
    ensures EndsWell(Calls.Turn(w, db, actor, retries).actor)
  {
    SoundMeans(w, a);
    HeldDecisions(w, db, a);
    IssueParts(w, id, first, issued, a);
    RequestMeans(RequestOf(actor), issued, cursor, a, w.limits);
    hide Sound, Coherent, D1Tables.Holds, IssueInv, ValidIssue, Attributed, Owned, InOrder, Judged, RequestInv, D1Runs.WorkInv,
         D1Runs.PagingInv, D1Runs.DoneInv, ExecBatch, ResponseCheck, Calls.PageResponse, Calls.ReadStoredDecision,
         Calls.PositionAvailable, Calls.Judge, ValidRequest, Calls.Proceed, Calls.Retry, EndsWell, WithStream;
    ProceedEndsWell();
    UnfinishedEndWell();
    match actor
    case Looking(work) =>
      FoundIsOwn(w, db, a, issued, work.request.proposals[|work.decisions|]);
    case Claiming(work) =>
      PositionIsOwn(w, db, a, id, first, issued, work.request.proposals[|work.decisions|]);
    case Committing(work) => RetryEndsWell(work, retries);
    case Paging(request, head, ds, committed) =>
      D1Calls.PageRefusedExactly(w, db, a, request, head, ds, committed);
      PageEndsWell(w, db, request, head, ds, committed);
    case _ =>
  }

  lemma ProceedEndsWell()
    ensures forall work :: EndsWell(Calls.Proceed(work))
  {
  }

  lemma UnfinishedEndWell()
    ensures forall actor: Calls.Actor | !actor.Done? :: EndsWell(actor)
  {
  }

  lemma RetryEndsWell(work: Calls.Work, retries: nat)
    ensures EndsWell(Calls.Retry(work, retries))
  {
  }

  lemma PageEndsWell(w: World, db: Db, request: Request, head: int, ds: seq<Decision>, committed: bool)
    requires var valid := ResponseCheck(Calls.PageResponse(db, request, w.limits, head, ds), Some(w.limits));
      valid.Fail? ==> valid.error == MalformedResponse
    ensures EndsWell(Calls.Turn(w, db, Calls.Paging(request, head, ds, committed), 0).actor)
    ensures forall retries :: Calls.Turn(w, db, Calls.Paging(request, head, ds, committed), retries)
                           == Calls.Turn(w, db, Calls.Paging(request, head, ds, committed), 0)
  {
    hide ResponseCheck, Calls.PageResponse;
  }

  lemma RequestMeans(q: Request, issued: seq<Proposal>, cursor: int, a: Authority, limits: Limits)
    requires RequestInv(q, issued, cursor, a, limits)
    ensures ValidRequest(q, limits) && q.baseSequence <= cursor
    ensures forall i | 0 <= i < |q.proposals| :: q.proposals[i] in issued
  {
    hide ValidRequest;
    forall i | 0 <= i < |q.proposals| ensures q.proposals[i] in issued {
      assert q.proposals[i] in q.proposals;
    }
  }

  /** The client behind a call, and what its request is. */
  lemma CallerOf(w: World, s: System, a: Authority, id: string) returns (cursor: int)
    requires Inv(w, s, a) && id in s.durable.actors && !s.durable.actors[id].Idle?
    ensures id in s.callers && s.callers[id] in s.clients
    ensures (s.callers[id], RequestOf(s.durable.actors[id])) in s.requests
    ensures var c := s.clients[s.callers[id]];
      && IssueInv(w, s.callers[id], c.first, c.issued, a)
      && cursor == KnownTo(c).cursor && cursor <= |a.log|
      && RequestInv(RequestOf(s.durable.actors[id]), c.issued, cursor, a, w.limits)
  {
    hide *;
    InvParts(w, s, a);
    CalledMeans(s, id);
    ViewIs(s, a);
    var caller := s.callers[id];
    cursor := Network.SentParts(w, View(s, a), caller, RequestOf(s.durable.actors[id]));
    Network.IssueOf(w, s.clients, a, caller);
    Network.ClientOf(w, View(s, a), caller);
    ClientParts(w, caller, s.clients[caller], s.streamId, a);
  }

  lemma ViewIs(s: System, a: Authority)
    ensures View(s, a) == Network.System(s.streamId, a, s.clients, s.requests, s.responses)
  {
  }

  lemma CalledMeans(s: System, id: string)
    requires Called(s) && id in s.durable.actors && !s.durable.actors[id].Idle?
    ensures id in s.callers && (s.callers[id], RequestOf(s.durable.actors[id])) in s.requests
  {
  }

  /* ---- Steps of a call ---- */

  lemma BeginKeeps(w: World, s: System, a: Authority, id: string, client: string, request: Request)
    requires Lawful(w) && Inv(w, s, a) && Allowed(w, s, Begin(id, client, request)) && 0 <= w.limits.maximumEntries
    ensures Next(w, s, Begin(id, client, request)).Ok?
    ensures Inv(w, Next(w, s, Begin(id, client, request)).value, a)
  {
    hide *;
    InvParts(w, s, a);
    BeginMeans(w, s, id, client, request);
    ViewIs(s, a);
    var cursor := Network.SentParts(w, View(s, a), client, request);
    RequestMeans(request, s.clients[client].issued, cursor, a, w.limits);
    RequestCheckIsValidRequest(request, w.limits);
    var step := Calls.Call(id, request);
    CallIsAllowed(s.durable, a, id, request);
    D1Runs.OtherStep(w, s.durable, a, step);
    BeginIs(w, s, a, id, client, request);
    InvFrom(w, Next(w, s, Begin(id, client, request)).value, a);
  }

  lemma BeginMeans(w: World, s: System, id: string, client: string, request: Request)
    requires Allowed(w, s, Begin(id, client, request))
    ensures id in s.durable.actors && Free(s.durable.actors[id]) && (client, request) in s.requests
  {
  }

  lemma CallIsAllowed(d: Calls.System, a: Authority, id: string, request: Request)
    requires id in d.actors
    ensures D1Runs.Allowed(d, a, Calls.Call(id, request)) && !D1Runs.Commits(d, Calls.Call(id, request))
  {
  }

  lemma BeginIs(w: World, s: System, a: Authority, id: string, client: string, request: Request)
    requires Allowed(w, s, Begin(id, client, request)) && 0 <= w.limits.maximumEntries
    requires RequestCheck(request, w.limits).Pass? && Called(s) && EndWell(s)
    ensures Next(w, s, Begin(id, client, request)).Ok?
    ensures var next := Next(w, s, Begin(id, client, request)).value;
      && View(next, a) == View(s, a) && next.durable == Calls.Next(w, s.durable, Calls.Call(id, request))
      && Called(next) && EndWell(next)
  {
    hide RequestCheck;
  }

  lemma AccessKeeps(w: World, s: System, a: Authority, id: string) returns (c: Authority)
    requires Lawful(w) && Inv(w, s, a) && Allowed(w, s, Access(id)) && 0 <= w.limits.maximumEntries
    ensures Next(w, s, Access(id)).Ok?
    ensures Inv(w, Next(w, s, Access(id)).value, c) && Extends(a, c)
  {
    hide *;
    InvParts(w, s, a);
    AccessMeans(w, s, id);
    var step := Calls.Access(id);
    D1Runs.FitsIsAllowed(w, s.durable, a, step);
    c := D1Runs.StepRefines(w, s.durable, a, step);
    AccessIs(w, s, a, c, id);
    CallsEndWell(w, s, a, id);
    if D1Runs.Commits(s.durable, step) {
      CommitKeepsView(w, s, a, c, id);
    } else {
      NothingPublished(w, s, a, c, id);
    }
    InvFrom(w, Next(w, s, Access(id)).value, c);
  }

  lemma AccessMeans(w: World, s: System, id: string)
    requires Allowed(w, s, Access(id))
    ensures id in s.durable.actors && D1Runs.Fits(s.durable, Calls.Access(id))
    ensures Calls.Access(id).actor == id
  {
    hide D1Runs.Fits;
  }

  lemma AccessIs(w: World, s: System, a: Authority, c: Authority, id: string)
    requires Allowed(w, s, Access(id)) && 0 <= w.limits.maximumEntries && Called(s)
    ensures Next(w, s, Access(id)).Ok?
    ensures var next := Next(w, s, Access(id)).value;
      && View(next, c) == View(s, c)
      && next.durable == Calls.Next(w, s.durable, Calls.Access(id))
      && Called(next)
  {
    hide Calls.Turn, D1Runs.Fits;
    if !s.durable.actors[id].Idle? {
      TurnKeepsRequest(w, s.durable.db, s.durable.actors[id], s.durable.maximumCommitRetries);
    }
    IdleStays(w, s.durable.db, s.durable.maximumCommitRetries);
  }

  lemma IdleStays(w: World, db: Db, retries: nat)
    ensures Calls.Turn(w, db, Calls.Idle, retries) == Calls.Turned(db, Calls.Idle)
  {
  }

  lemma CallsEndWell(w: World, s: System, a: Authority, id: string)
    requires Inv(w, s, a) && Allowed(w, s, Access(id)) && 0 <= w.limits.maximumEntries
    ensures Next(w, s, Access(id)).Ok? && EndWell(Next(w, s, Access(id)).value)
  {
    hide *;
    InvParts(w, s, a);
    AccessMeans(w, s, id);
    var actor := s.durable.actors[id];
    D1Runs.ActorOf(w, s.durable, a, id);
    IdleStays(w, s.durable.db, s.durable.maximumCommitRetries);
    OthersEndWell(w, s, id);
    if !actor.Idle? {
      var cursor := CallerOf(w, s, a, id);
      var caller := s.callers[id];
      ActorEndsWell(s, id);
      TurnEndsWell(w, s.durable.db, a, actor, s.durable.maximumCommitRetries,
                   caller, s.clients[caller].first, s.clients[caller].issued, cursor);
    }
  }

  lemma ActorEndsWell(s: System, id: string)
    requires EndWell(s) && id in s.durable.actors
    ensures EndsWell(s.durable.actors[id])
  {
    hide EndsWell;
  }

  lemma OthersEndWell(w: World, s: System, id: string)
    requires Allowed(w, s, Access(id)) && 0 <= w.limits.maximumEntries && EndWell(s)
    ensures Next(w, s, Access(id)).Ok? && EndsWell(Calls.Idle)
    ensures EndsWell(Calls.Turn(w, s.durable.db, s.durable.actors[id], s.durable.maximumCommitRetries).actor) ==>
      EndWell(Next(w, s, Access(id)).value)
  {
    hide Calls.Turn, D1Runs.Fits;
  }

  /** A commit is what the in-memory authority would have done with the same request, without the
      answer on the network yet. */
  lemma CommitKeepsView(w: World, s: System, a: Authority, c: Authority, id: string)
    requires Lawful(w) && Inv(w, s, a) && id in s.durable.actors && 0 <= w.limits.maximumEntries
    requires D1Runs.Allowed(s.durable, a, Calls.Access(id)) && D1Runs.Commits(s.durable, Calls.Access(id))
    requires 1 <= w.limits.maximumEntries
    requires D1Runs.Refines(w, s.durable, Calls.Access(id), Calls.Next(w, s.durable, Calls.Access(id)), a, c)
    ensures Network.SystemInv(w, View(s, c))
  {
    hide *;
    InvParts(w, s, a);
    ViewIs(s, a);
    ViewIs(s, c);
    CommitMeans(w, s, a, c, id);
    var cursor := CallerOf(w, s, a, id);
    var caller, q := s.callers[id], RequestOf(s.durable.actors[id]);
    Network.HandleKeeps(w, View(s, a), caller, q);
    var t := Network.Next(w, View(s, a), Network.Handle(caller, q)).value;
    HandledIs(w, s, a, caller, q, t);
    FewerResponses(w, t, s.responses);
  }

  lemma CommitMeans(w: World, s: System, a: Authority, c: Authority, id: string)
    requires id in s.durable.actors && 1 <= w.limits.maximumEntries
    requires D1Runs.Allowed(s.durable, a, Calls.Access(id)) && D1Runs.Commits(s.durable, Calls.Access(id))
    requires D1Runs.Refines(w, s.durable, Calls.Access(id), Calls.Next(w, s.durable, Calls.Access(id)), a, c)
    ensures !s.durable.actors[id].Idle?
    ensures var q := RequestOf(s.durable.actors[id]);
      && |a.log| + |q.proposals| <= MAX_SAFE
      && Synchronize(w, a, q).Ok? && Synchronize(w, a, q).value.after == c
  {
    hide ExecBatch, Synchronize, Calls.Next;
  }

  lemma HandledIs(w: World, s: System, a: Authority, caller: string, q: Request, t: Network.System)
    requires caller in s.clients && 0 <= w.limits.maximumEntries && Synchronize(w, a, q).Ok?
    requires Network.Next(w, View(s, a), Network.Handle(caller, q)) == Ok(t)
    ensures t.authority == Synchronize(w, a, q).value.after && s.responses <= t.responses
    ensures t == View(s, t.authority).(responses := t.responses)
  {
    hide Synchronize;
  }

  lemma FewerResponses(w: World, t: Network.System, responses: set<(string, Response)>)
    requires Network.SystemInv(w, t) && responses <= t.responses
    ensures Network.SystemInv(w, t.(responses := responses))
  {
    hide Sound, Fifo, Network.Issues, Network.Replicated, Network.Apart, Network.Authored, RequestInv, Honest;
  }

  lemma NothingPublished(w: World, s: System, a: Authority, c: Authority, id: string)
    requires id in s.durable.actors && 1 <= w.limits.maximumEntries && !D1Runs.Commits(s.durable, Calls.Access(id))
    requires D1Runs.Refines(w, s.durable, Calls.Access(id), Calls.Next(w, s.durable, Calls.Access(id)), a, c)
    ensures c == a
  {
    hide Calls.Next, D1Runs.Commits;
  }

  lemma LockedKeeps(w: World, s: System, a: Authority, id: string)
    requires Lawful(w) && Inv(w, s, a) && Allowed(w, s, Locked(id)) && 0 <= w.limits.maximumEntries
    ensures Next(w, s, Locked(id)).Ok? && Inv(w, Next(w, s, Locked(id)).value, a)
  {
    hide *;
    InvParts(w, s, a);
    LockedIs(w, s, a, id);
    D1Runs.OtherStep(w, s.durable, a, Calls.Locked(id));
    InvFrom(w, Next(w, s, Locked(id)).value, a);
  }

  lemma LockedIs(w: World, s: System, a: Authority, id: string)
    requires Allowed(w, s, Locked(id)) && 0 <= w.limits.maximumEntries && Called(s) && EndWell(s)
    ensures id in s.durable.actors && D1Runs.Allowed(s.durable, a, Calls.Locked(id))
    ensures !D1Runs.Commits(s.durable, Calls.Locked(id)) && Next(w, s, Locked(id)).Ok?
    ensures var next := Next(w, s, Locked(id)).value;
      && View(next, a) == View(s, a) && next.durable == Calls.Next(w, s.durable, Calls.Locked(id))
      && Called(next) && EndWell(next)
  {
  }

  /** An answer on the network is honest and no newer than its client. */
  lemma ReplyKeeps(w: World, s: System, a: Authority, id: string)
    requires Lawful(w) && Inv(w, s, a) && Allowed(w, s, Reply(id)) && 0 <= w.limits.maximumEntries
    ensures Next(w, s, Reply(id)).Ok? && Inv(w, Next(w, s, Reply(id)).value, a)
  {
    hide *;
    InvParts(w, s, a);
    ReplyMeans(w, s, id);
    var call := s.durable.actors[id];
    D1Runs.ActorOf(w, s.durable, a, id);
    D1Calls.DoneMeans(w, s.durable.db.stream.Some?, a, call, s.durable.maximumCommitRetries);
    var cursor := CallerOf(w, s, a, id);
    RequestMeans(RequestOf(call), s.clients[s.callers[id]].issued, cursor, a, w.limits);
    ReplyIs(w, s, a, id);
    OneMoreAnswer(w, View(s, a), s.callers[id], call.result.value);
    InvFrom(w, Next(w, s, Reply(id)).value, a);
  }

  lemma ReplyMeans(w: World, s: System, id: string)
    requires Allowed(w, s, Reply(id))
    ensures id in s.durable.actors && id in s.callers
    ensures s.durable.actors[id].Done? && s.durable.actors[id].result.Ok? && !s.durable.actors[id].Idle?
    ensures RequestOf(s.durable.actors[id]) == s.durable.actors[id].request
  {
  }

  lemma ReplyIs(w: World, s: System, a: Authority, id: string)
    requires Allowed(w, s, Reply(id)) && 0 <= w.limits.maximumEntries && Called(s) && EndWell(s)
    ensures Next(w, s, Reply(id)).Ok?
    ensures var next := Next(w, s, Reply(id)).value;
      && View(next, a) == View(s, a).(responses := s.responses + {(s.callers[id], s.durable.actors[id].result.value)})
      && View(s, a).responses == s.responses && View(s, a).clients == s.clients && View(s, a).authority == a
      && next.durable == s.durable && Called(next) && EndWell(next)
  {
  }

  lemma OneMoreAnswer(w: World, t: Network.System, client: string, response: Response)
    requires Network.SystemInv(w, t) && client in t.clients
    requires Honest(response, t.authority) && response.requestedBase <= KnownTo(t.clients[client]).cursor
    ensures Network.SystemInv(w, t.(responses := t.responses + {(client, response)}))
  {
    hide Sound, Fifo, Network.Issues, Network.Replicated, Network.Apart, Network.Authored, RequestInv, Honest;
  }

  /* ---- Runs ---- */

  /** Whichever step comes next, it succeeds, and the system goes on standing for one with an
      authority in memory. */
  lemma StepIsSafe(w: World, s: System, a: Authority, step: Step) returns (c: Authority)
    requires Lawful(w) && Inv(w, s, a) && Allowed(w, s, step) && 0 <= w.limits.maximumEntries
    ensures Next(w, s, step).Ok?
    ensures Inv(w, Next(w, s, step).value, c) && Extends(a, c) && Grows(s, Next(w, s, step).value)
  {
    hide *;
    c := a;
    ExtendsItself(a);
    match step
    case Local(l) => LocalKeeps(w, s, a, l);
    case Begin(id, client, request) => BeginKeeps(w, s, a, id, client, request); OnlyLocalMoves(w, s, step);
    case Access(id) => c := AccessKeeps(w, s, a, id); OnlyLocalMoves(w, s, step);
    case Locked(id) => LockedKeeps(w, s, a, id); OnlyLocalMoves(w, s, step);
    case Reply(id) => ReplyKeeps(w, s, a, id); OnlyLocalMoves(w, s, step);
  }

  lemma OnlyLocalMoves(w: World, s: System, step: Step)
    requires Allowed(w, s, step) && 0 <= w.limits.maximumEntries && !step.Local? && Next(w, s, step).Ok?
    ensures Grows(s, Next(w, s, step).value)
  {
    hide Calls.Next, D1Runs.Fits;
  }

  ghost predicate IsRun(w: World, streamId: string, firsts: map<string, int>, actors: set<string>, retries: nat,
                        states: seq<System>, steps: seq<Step>)
    requires Lawful(w)
  {
    && (forall id | id in firsts :: id != "" && 1 <= firsts[id] <= MAX_SAFE)
    && |states| == |steps| + 1
    && states[0] == Start(w, streamId, firsts, actors, retries)
    && forall i | 0 <= i < |steps| :: Allowed(w, states[i], steps[i]) && Next(w, states[i], steps[i]) == Ok(states[i + 1])
  }

  lemma {:induction false} RunsAreSafe(w: World, streamId: string, firsts: map<string, int>, actors: set<string>, retries: nat,
                                       states: seq<System>, steps: seq<Step>, i: nat, j: nat)
    returns (a: Authority, c: Authority)
    requires Lawful(w) && IsRun(w, streamId, firsts, actors, retries, states, steps) && i <= j < |states|
    ensures Inv(w, states[i], a) && Inv(w, states[j], c) && Extends(a, c) && Grows(states[i], states[j])
    decreases j
  {
    hide *;
    LimitsAreNatural(w);
    RunMeans(w, streamId, firsts, actors, retries, states, steps);
    if i < j {
      var b;
      a, b := RunsAreSafe(w, streamId, firsts, actors, retries, states, steps, i, j - 1);
      c := StepIsSafe(w, states[j - 1], b, steps[j - 1]);
      ExtendsTransitive(a, b, c);
      GrowsTransitive(states[i], states[j - 1], states[j]);
    } else {
      if j == 0 {
        a := Initial(w);
        StartIsSafe(w, streamId, firsts, actors, retries);
      } else {
        var b, d := RunsAreSafe(w, streamId, firsts, actors, retries, states, steps, j - 1, j - 1);
        a := StepIsSafe(w, states[j - 1], d, steps[j - 1]);
      }
      c := a;
      ExtendsItself(a);
      ItselfGrows(states[j]);
    }
  }

  lemma RunMeans(w: World, streamId: string, firsts: map<string, int>, actors: set<string>, retries: nat,
                 states: seq<System>, steps: seq<Step>)
    requires Lawful(w) && IsRun(w, streamId, firsts, actors, retries, states, steps)
    ensures forall id | id in firsts :: id != "" && 1 <= firsts[id] <= MAX_SAFE
    ensures |states| == |steps| + 1 && states[0] == Start(w, streamId, firsts, actors, retries)
    ensures forall i | 0 <= i < |steps| :: Allowed(w, states[i], steps[i]) && Next(w, states[i], steps[i]) == Ok(states[i + 1])
  {
    hide Start, Allowed, Next;
  }

  lemma ItselfGrows(s: System)
    ensures Grows(s, s)
  {
  }

  lemma GrowsTransitive(s: System, t: System, u: System)
    requires Grows(s, t) && Grows(t, u)
    ensures Grows(s, u)
  {
    hide Continues;
    forall id | id in s.clients ensures Continues(s.clients[id], u.clients[id]) {
      Network.ContinuesTransitive(s.clients[id], t.clients[id], u.clients[id]);
    }
  }

  ghost predicate Reachable(w: World, s: System)
    requires Lawful(w)
  {
    exists streamId, firsts, actors, retries, states, steps ::
      IsRun(w, streamId, firsts, actors, retries, states, steps) && s in states
  }

  lemma ReachableStands(w: World, s: System) returns (a: Authority)
    requires Lawful(w) && Reachable(w, s)
    ensures Inv(w, s, a)
  {
    hide Lawful, IsRun, Inv;
    var streamId, firsts, actors, retries, states, steps :|
      IsRun(w, streamId, firsts, actors, retries, states, steps) && s in states;
    var i :| 0 <= i < |states| && states[i] == s;
    var c;
    a, c := RunsAreSafe(w, streamId, firsts, actors, retries, states, steps, i, i);
  }

  /* ---- What every run keeps ---- */

  /** No step of a client raises an error, whichever answers of whichever calls arrive when. */
  lemma NoErrorIsRaised(w: World, s: System, step: Step)
    requires Lawful(w) && Reachable(w, s) && Allowed(w, s, step)
    ensures 0 <= w.limits.maximumEntries && Next(w, s, step).Ok?
  {
    hide *;
    LimitsAreNatural(w);
    var a := ReachableStands(w, s);
    var c := StepIsSafe(w, s, a, step);
  }

  /** No call finds an identity, intent or position conflict or an unknown base: it is answered, or
      ends in a commit conflict after its last retry, or is refused an answer beyond its head. */
  lemma EveryCallEndsWell(w: World, s: System, id: string)
    requires Lawful(w) && Reachable(w, s) && id in s.durable.actors && s.durable.actors[id].Done?
    ensures s.durable.actors[id].result.Ok?
         || s.durable.actors[id].result.error == CommitConflict
         || s.durable.actors[id].result.error == MalformedResponse
  {
    hide *;
    var a := ReachableStands(w, s);
    InvParts(w, s, a);
    ActorEndsWell(s, id);
    EndMeans(s.durable.actors[id]);
  }

  lemma EndMeans(actor: Calls.Actor)
    requires EndsWell(actor) && actor.Done?
    ensures actor.result.Ok? || actor.result.error == CommitConflict || actor.result.error == MalformedResponse
  {
  }

  /** In every reachable state the in-memory server answers any copy of any request that was sent, on
      the authority that the tables hold; so does a call that nobody disturbs
      (D1Retries.UndisturbedCallIsAnswered). */
  lemma SentRequestIsAnswerable(w: World, s: System, client: string, request: Request) returns (a: Authority)
    requires Lawful(w) && Reachable(w, s) && (client, request) in s.requests
    requires D1Runs.Size(s.durable.db) + |request.proposals| <= MAX_SAFE
    ensures D1Tables.Holds(w, s.durable.db, a) && 0 <= w.limits.maximumEntries
    ensures Synchronize(w, a, request).Ok?
    ensures Honest(Synchronize(w, a, request).value.response, Synchronize(w, a, request).value.after)
  {
    hide *;
    a := ReachableStands(w, s);
    InvParts(w, s, a);
    HeldBy(w, s, a);
    ViewIs(s, a);
    SizeIsHead(w, s.durable.db, a);
    Network.HandledRequest(w, View(s, a), client, request);
  }

  lemma SizeIsHead(w: World, db: Db, a: Authority)
    requires D1Tables.Holds(w, db, a)
    ensures D1Runs.Size(db) == |a.log|
  {
    hide HoldsRows;
  }

  /** The replica's confirmed part is a prefix of the log that the tables hold. */
  ghost predicate ConfirmsTables(w: World, r: Replica, db: Db) {
    && 0 <= r.confirmedSequence - |r.confirmedLog| <= r.confirmedSequence <= D1Runs.Size(db)
    && (forall i | 0 <= i < |r.confirmedLog| ::
          var n := r.confirmedSequence - |r.confirmedLog| + i + 1;
          n in db.entries && db.entries[n] == r.confirmedLog[i])
    && r.confirmedState == Replay(w.log.apply, w.initial, SelectPage(db, 0, r.confirmedSequence, r.confirmedSequence))
    && (db.stream.Some? && r.confirmedSequence == db.stream.value.head ==> r.confirmedState == db.stream.value.state)
  }

  /** Whole-run safety over the tables: in every state of every run each replica's confirmed part is a
      prefix of the stored log; rows stay, and no cursor ever moves back. */
  lemma EveryRunIsSafe(w: World, streamId: string, firsts: map<string, int>, actors: set<string>, retries: nat,
                       states: seq<System>, steps: seq<Step>, i: nat, j: nat, id: string)
    requires Lawful(w) && IsRun(w, streamId, firsts, actors, retries, states, steps) && i <= j < |states|
    requires id in states[i].clients
    ensures id in states[j].clients
    ensures states[i].clients[id].record.replica.confirmedSequence <= states[j].clients[id].record.replica.confirmedSequence
    ensures ConfirmsTables(w, states[j].clients[id].record.replica, states[j].durable.db)
    ensures forall n | n in states[i].durable.db.entries ::
      n in states[j].durable.db.entries && states[j].durable.db.entries[n] == states[i].durable.db.entries[n]
    ensures forall k | k in states[i].durable.db.decisions ::
      k in states[j].durable.db.decisions && states[j].durable.db.decisions[k] == states[i].durable.db.decisions[k]
  {
    hide *;
    var a, c := RunsAreSafe(w, streamId, firsts, actors, retries, states, steps, i, j);
    GrowsMeans(states[i], states[j], id);
    HeldBy(w, states[i], a);
    HeldBy(w, states[j], c);
    RowsStay(w, states[i].durable.db, states[j].durable.db, a, c);
    InvParts(w, states[j], c);
    ViewIs(states[j], c);
    Guarantees.ConfirmedIsCanonical(w, View(states[j], c), id);
    PrefixOfTables(w, states[j].clients[id].record.replica, states[j].durable.db, c);
  }

  lemma GrowsMeans(s: System, t: System, id: string)
    requires Grows(s, t) && id in s.clients
    ensures id in t.clients
    ensures s.clients[id].record.replica.confirmedSequence <= t.clients[id].record.replica.confirmedSequence
  {
  }

  lemma HeldBy(w: World, s: System, a: Authority)
    requires Inv(w, s, a)
    ensures D1Tables.Holds(w, s.durable.db, a)
  {
    hide Network.SystemInv, Sound, D1Tables.Holds, Called, EndWell;
  }

  lemma RowsStay(w: World, db: Db, later: Db, a: Authority, c: Authority)
    requires D1Tables.Holds(w, db, a) && D1Tables.Holds(w, later, c) && Extends(a, c)
    ensures forall n | n in db.entries :: n in later.entries && later.entries[n] == db.entries[n]
    ensures forall k | k in db.decisions :: k in later.decisions && later.decisions[k] == db.decisions[k]
  {
    forall n | n in db.entries ensures n in later.entries && later.entries[n] == db.entries[n] {
      assert c.log[..|a.log|][n - 1] == c.log[n - 1];
    }
  }

  lemma PrefixOfTables(w: World, r: Replica, db: Db, a: Authority)
    requires Guarantees.ConfirmsPrefix(w, r, a) && a.state == Replay(w.log.apply, w.initial, a.log)
    requires D1Tables.Holds(w, db, a)
    ensures ConfirmsTables(w, r, db)
  {
    hide Replay;
    PageIsSlice(w, db, a, 0, r.confirmedSequence, r.confirmedSequence);
    assert a.log[0..r.confirmedSequence] == a.log[..r.confirmedSequence];
    assert a.log[..|a.log|] == a.log;
    forall i | 0 <= i < |r.confirmedLog|
      ensures var n := r.confirmedSequence - |r.confirmedLog| + i + 1; n in db.entries && db.entries[n] == r.confirmedLog[i]
    {
      var base := r.confirmedSequence - |r.confirmedLog|;
      assert a.log[base..r.confirmedSequence][i] == a.log[base + i];
    }
  }

  /** Client order and conservation hold as with the authority in memory. */
  lemma ClientOrderIsKept(w: World, s: System, id: string) returns (a: Authority, n: nat)
    requires Lawful(w) && Reachable(w, s) && id in s.clients
    ensures D1Tables.Holds(w, s.durable.db, a) && Guarantees.IsGapFreePrefix(s.clients[id], id, a, n)
  {
    hide *;
    a := ReachableStands(w, s);
    InvParts(w, s, a);
    HeldBy(w, s, a);
    ViewIs(s, a);
    n := Guarantees.DecidedIsPrefix(w, View(s, a), id);
  }

  lemma NothingIsLost(w: World, s: System, id: string, sequence: int) returns (a: Authority, t: Guarantees.Standing)
    requires Lawful(w) && Reachable(w, s) && id in s.clients
    requires s.clients[id].first <= sequence < s.clients[id].record.replica.nextClientSequence
    ensures D1Tables.Holds(w, s.durable.db, a) && Guarantees.Accounted(t, id, s.clients[id], a, sequence)
  {
    hide *;
    a := ReachableStands(w, s);
    InvParts(w, s, a);
    HeldBy(w, s, a);
    ViewIs(s, a);
    Network.ClientOf(w, View(s, a), id);
    t := Guarantees.ClientAccounts(w, id, s.clients[id], s.streamId, a, sequence);
  }

  /** Each row of the decisions is what the interpreter said of an issued proposal. */
  lemma EveryDecisionIsJudged(w: World, s: System, operationId: string) returns (a: Authority, id: string, p: Proposal)
    requires Lawful(w) && Reachable(w, s) && operationId in s.durable.db.decisions
    ensures D1Tables.Holds(w, s.durable.db, a)
    ensures id in s.clients && p in s.clients[id].issued && p.operationId == operationId
    ensures Guarantees.IsJudged(w, p, a)
  {
    hide *;
    a := ReachableStands(w, s);
    InvParts(w, s, a);
    HeldBy(w, s, a);
    ViewIs(s, a);
    RowsAreDecisions(w, s.durable.db, a);
    id, p := Guarantees.DecisionIsJudged(w, View(s, a), operationId);
  }

  lemma RowsAreDecisions(w: World, db: Db, a: Authority)
    requires D1Tables.Holds(w, db, a)
    ensures db.decisions == a.decisions
  {
  }
}
