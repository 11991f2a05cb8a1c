/** The whole protocol as a step system: one authority, any number of clients, and a network that
    may lose, duplicate, delay and reorder. Requests and responses once sent stay available, so any
    copy may be handled or delivered, at any time, any number of times, or never. */
module ProtocolRuns {
  import opened Protocol
  import opened Validators
  import opened LogServer
  import opened Replicas
  import opened MergeLaws
  import opened Knowledge
  import opened DurableRecords
  import opened Clients
  import opened ClientSteps

  datatype System = System(
    streamId: string,
    authority: Authority,
    clients: map<string, Client>,
    requests: set<(string, Request)>,
    responses: set<(string, Response)>)

  datatype Step =
    | Issue(client: string, operationId: string, intentHash: string, intent: Intent)
    | Send(client: string, maximumProposals: int, maximumEntries: int)
    | Handle(client: string, request: Request)
    | Deliver(client: string, response: Response)
    | CompactLog(client: string, through: int)
    | Acknowledge(client: string, ids: set<string>)

  /** Clients start as createReplicaState leaves them. */
  function Joined(w: World, streamId: string, id: string, first: int): Client {
    Client(first, Record(SCHEMA_VERSION, streamId, Replica(id, first, 0, w.initial, [], []), []), [], {}, [], {})
  }

  /** createReplicaState throws exactly on an empty identity or a bad sequence; otherwise it makes the
      replica a client joins with, and the record around it is valid. */
  lemma CreatedIsJoined(w: World, streamId: string, id: string, first: int)
    ensures Create(id, w.initial, first).Ok? <==> id != "" && 1 <= first <= MAX_SAFE
    ensures Create(id, w.initial, first).Ok? ==>
      && Create(id, w.initial, first).value == Joined(w, streamId, id, first).record.replica
      && ValidRecord(Joined(w, streamId, id, first).record, streamId)
  {
  }

  function Start(w: World, streamId: string, firsts: map<string, int>): System {
    System(streamId, Initial(w), map id | id in firsts :: Joined(w, streamId, id, firsts[id]), {}, {})
  }

  /** What the environment may do: only known clients act, operation identities are fresh, batches
      and pages keep to the limits, only messages once sent arrive, only confirmed entries are
      compacted, and sequences stay within the safe integers. */
  ghost predicate Allowed(w: World, s: System, step: Step) {
    && step.client in s.clients
    && var c := s.clients[step.client];
    match step
    case Issue(_, operationId, intentHash, _) =>
      && operationId != "" && intentHash != ""
      && (forall id | id in s.clients :: operationId !in ProposalIds(s.clients[id].issued))
      && c.first + |c.issued| < MAX_SAFE
    case Send(_, maximumProposals, maximumEntries) =>
      0 <= maximumProposals <= w.limits.maximumProposals && 1 <= maximumEntries <= MAX_SAFE
    case Handle(id, request) => (id, request) in s.requests && |s.authority.log| + |request.proposals| <= MAX_SAFE
    case Deliver(id, response) => (id, response) in s.responses
    case CompactLog(_, through) => 0 <= through <= KnownTo(c).cursor
    case Acknowledge(_, _) => true
  }

  function WithClient(s: System, id: string, c: Client): System { s.(clients := s.clients[id := c]) }

  /** The step as the code takes it; an error stands for the error it throws. */
  function Next(w: World, s: System, step: Step): Result<System>
    requires step.client in s.clients && 0 <= w.limits.maximumEntries
  {
    var c := s.clients[step.client];
    match step
    case Issue(id, operationId, intentHash, intent) =>
      var next :- Enqueued(c, s.streamId, operationId, intentHash, intent);
      Ok(WithClient(s, id, next))
    case Send(id, maximumProposals, maximumEntries) =>
      var request :- StorePrepare(c.record, s.streamId, maximumProposals, maximumEntries);
      Ok(s.(requests := s.requests + {(id, request)}))
    case Handle(id, request) =>
      var answer :- Synchronize(w, s.authority, request);
      Ok(s.(authority := answer.after, responses := s.responses + {(id, answer.response)}))
    case Deliver(id, response) =>
      var next :- Delivered(c, s.streamId, response, w.replica);
      Ok(WithClient(s, id, next))
    case CompactLog(id, through) =>
      var next :- Compacted(c, s.streamId, through);
      Ok(WithClient(s, id, next))
    case Acknowledge(id, ids) =>
      var next :- Acknowledged(c, s.streamId, ids);
      Ok(WithClient(s, id, next))
  }

  /* ---- The invariant ---- */

  ghost predicate Apart(clients: map<string, Client>) {
    forall i, j | i in clients && j in clients && i != j ::
      ProposalIds(clients[i].issued) !! ProposalIds(clients[j].issued)
  }

  ghost predicate Issues(w: World, clients: map<string, Client>, a: Authority) {
    forall id | id in clients :: IssueInv(w, id, clients[id].first, clients[id].issued, a)
  }

  ghost predicate Replicated(w: World, streamId: string, clients: map<string, Client>, a: Authority) {
    forall id | id in clients :: ReplicaInv(w, id, clients[id], streamId, a)
  }

  ghost predicate Authored(clients: map<string, Client>, a: Authority) {
    forall k | k in a.decisions :: a.decisions[k].clientId in clients
  }

  ghost predicate RequestsInv(w: World, s: System) {
    forall m | m in s.requests ::
      && m.0 in s.clients
      && RequestInv(m.1, s.clients[m.0].issued, KnownTo(s.clients[m.0]).cursor, s.authority, w.limits)
  }

  ghost predicate ResponsesInv(s: System) {
    forall m | m in s.responses ::
      && m.0 in s.clients
      && Honest(m.1, s.authority)
      && m.1.requestedBase <= KnownTo(s.clients[m.0]).cursor
  }

  ghost predicate SystemInv(w: World, s: System) {
    && Sound(w, s.authority)
    && Fifo(s.authority.log)
    && Issues(w, s.clients, s.authority)
    && Replicated(w, s.streamId, s.clients, s.authority)
    && Apart(s.clients)
    && Authored(s.clients, s.authority)
    && RequestsInv(w, s)
    && ResponsesInv(s)
  }

  /** Nothing that has happened is undone: decisions are permanent, no cursor moves back, no
      report is withdrawn, and no acknowledgement is forgotten. */
  ghost predicate Advances(s: System, t: System) {
    && t.streamId == s.streamId
    && Extends(s.authority, t.authority)
    && t.clients.Keys == s.clients.Keys
    && (forall id | id in s.clients :: Continues(s.clients[id], t.clients[id]))
    && s.requests <= t.requests
    && s.responses <= t.responses
  }

  lemma StartIsSafe(w: World, streamId: string, firsts: map<string, int>)
    requires forall id | id in firsts :: id != "" && 1 <= firsts[id] <= MAX_SAFE
    ensures SystemInv(w, Start(w, streamId, firsts))
  {
    var s := Start(w, streamId, firsts);
    InitialIsSound(w);
    hide IssueInv, ReplicaInv, Sound, RequestInv, Honest;
    forall id | id in firsts
      ensures IssueInv(w, id, s.clients[id].first, s.clients[id].issued, s.authority)
      ensures ReplicaInv(w, id, s.clients[id], streamId, s.authority)
    {
      JoinedIsHonest(w, streamId, id, firsts[id]);
    }
  }

  lemma JoinedIsHonest(w: World, streamId: string, id: string, first: int)
    requires id != "" && 1 <= first <= MAX_SAFE
    ensures IssueInv(w, id, first, [], Initial(w))
    ensures ReplicaInv(w, id, Joined(w, streamId, id, first), streamId, Initial(w))
  {
  }

  /* ---- Handling a request ---- */

  /** One proposal of a request, all earlier ones of it being decided. */
  lemma ProposalKeepsIssues(w: World, clients: map<string, Client>, a: Authority, id: string, m: nat)
    requires Coherent(w, a) && Fifo(a.log) && Issues(w, clients, a) && Apart(clients)
    requires id in clients && IsNext(clients[id].issued, m, a)
    ensures DecideProposal(w.log, a, clients[id].issued[m]).Ok?
    ensures var b := DecideProposal(w.log, a, clients[id].issued[m]).value.after;
      Coherent(w, b) && Fifo(b.log) && Issues(w, clients, b)
  {
    hide Coherent, Fifo, IssueInv, DecideProposal, Extends, Remembers;
    var c := clients[id];
    var p := c.issued[m];
    assert IssueInv(w, id, c.first, c.issued, a);
    OwnProposalIsDecided(w, id, c.first, c.issued, a, m);
    OwnProposalKeepsIssue(w, id, c.first, c.issued, a, m);
    OwnProposalKeepsFifo(w, id, c.first, c.issued, a, m);
    IssuedIsValid(w, id, c.first, c.issued, a, m);
    DecideProposalKeepsCoherence(w, a, p);
    var b := DecideProposal(w.log, a, p).value.after;
    forall j | j in clients ensures IssueInv(w, j, clients[j].first, clients[j].issued, b) {
      if j != id {
        assert p in c.issued && p.operationId in ProposalIds(c.issued);
        OtherProposalKeepsIssue(w, j, clients[j].first, clients[j].issued, a, p);
      }
    }
  }

  lemma IssuedIsValid(w: World, id: string, first: int, issued: seq<Proposal>, a: Authority, m: nat)
    requires IssueInv(w, id, first, issued, a) && m < |issued|
    ensures var p := issued[m];
      ValidIdentity(p.operationId, p.clientId, p.clientSequence, p.intentHash) && p.clientId == id
  {
  }

  lemma {:induction false} BatchKeepsIssues(w: World, clients: map<string, Client>, a: Authority, id: string, q: Request, cursor: int, n: nat)
    requires Coherent(w, a) && Fifo(a.log) && Issues(w, clients, a) && Apart(clients)
    requires id in clients && RequestInv(q, clients[id].issued, cursor, a, w.limits) && n <= |q.proposals|
    ensures DecideAll(w.log, a, q.proposals[..n]).Ok?
    ensures var b := DecideAll(w.log, a, q.proposals[..n]).value.after;
      && Coherent(w, b) && Fifo(b.log) && Issues(w, clients, b)
      && b.decisions.Keys == a.decisions.Keys + ProposalIds(q.proposals[..n])
  {
    hide *;
    var ps := q.proposals;
    if n == 0 {
      assert ps[..0] == [];
      DecideNone(w, a);
      return;
    }
    assert ps[..n][..n - 1] == ps[..n - 1] && ps[..n] == ps[..n - 1] + [ps[n - 1]];
    var m := FindIssued(w, clients, a, id, q, cursor, n - 1);
    BatchKeepsIssues(w, clients, a, id, q, cursor, n - 1);
    var b := DecideAll(w.log, a, ps[..n - 1]).value.after;
    EarlierAreDecided(w, clients[id].first, clients[id].issued, a, b, id, q, cursor, n - 1, m);
    ProposalKeepsIssues(w, clients, b, id, m);
    DecideOneMore(w, a, ps, n - 1, b);
    AddProposalId(ps[..n - 1], ps[n - 1]);
  }

  lemma IssueOf(w: World, clients: map<string, Client>, a: Authority, id: string)
    requires Issues(w, clients, a) && id in clients
    ensures IssueInv(w, id, clients[id].first, clients[id].issued, a)
    ensures ValidIssue(id, clients[id].first, clients[id].issued)
    ensures Owned(id, clients[id].first, clients[id].issued, a)
  {
    hide ValidIssue, Attributed, Owned, InOrder, Judged;
  }

  lemma FindIssued(w: World, clients: map<string, Client>, a: Authority, id: string, q: Request, cursor: int, n: nat) returns (m: nat)
    requires id in clients && RequestInv(q, clients[id].issued, cursor, a, w.limits) && n < |q.proposals|
    requires Issues(w, clients, a)
    ensures m < |clients[id].issued| && clients[id].issued[m] == q.proposals[n]
    ensures ValidIssue(id, clients[id].first, clients[id].issued)
  {
    assert q.proposals[n] in q.proposals;
    m :| 0 <= m < |clients[id].issued| && clients[id].issued[m] == q.proposals[n];
  }

  lemma EarlierAreDecided(w: World, first: int, issued: seq<Proposal>, a: Authority, b: Authority, id: string,
                          q: Request, cursor: int, n: nat, m: nat)
    requires ValidIssue(id, first, issued) && RequestInv(q, issued, cursor, a, w.limits)
    requires n < |q.proposals| && m < |issued| && issued[m] == q.proposals[n]
    requires b.decisions.Keys == a.decisions.Keys + ProposalIds(q.proposals[..n])
    ensures IsNext(issued, m, b)
  {
    var ps := q.proposals;
    assert ps[n] in ps;
    forall i | 0 <= i < m ensures issued[i].operationId in b.decisions {
      assert issued[i] in issued && issued[i].clientSequence < ps[n].clientSequence;
      if issued[i].operationId !in a.decisions {
        var j :| 0 <= j < |ps| && ps[j] == issued[i];
        assert ps[j].clientId == ps[n].clientId;
        assert j < n && ps[..n][j] == issued[i];
        assert issued[i] in ps[..n];
      }
    }
  }

  lemma DecideOneMore(w: World, a: Authority, ps: seq<Proposal>, n: nat, b: Authority)
    requires n < |ps| && ps[..n + 1][..n] == ps[..n] && ps[..n + 1] == ps[..n] + [ps[n]]
    requires DecideAll(w.log, a, ps[..n]).Ok? && DecideAll(w.log, a, ps[..n]).value.after == b
    requires DecideProposal(w.log, b, ps[n]).Ok?
    ensures DecideAll(w.log, a, ps[..n + 1]).Ok?
    ensures DecideAll(w.log, a, ps[..n + 1]).value.after == DecideProposal(w.log, b, ps[n]).value.after
    ensures DecideProposal(w.log, b, ps[n]).value.after.decisions.Keys == b.decisions.Keys + {ps[n].operationId}
  {
  }

  /** A request that was sent is always decided, and answered honestly. */
  lemma HandledRequest(w: World, s: System, id: string, q: Request)
    requires Lawful(w) && SystemInv(w, s) && (id, q) in s.requests
    requires |s.authority.log| + |q.proposals| <= MAX_SAFE
    ensures 1 <= w.limits.maximumEntries && Synchronize(w, s.authority, q).Ok?
    ensures var answer := Synchronize(w, s.authority, q).value;
      && Sound(w, answer.after) && Extends(s.authority, answer.after)
      && Fifo(answer.after.log) && Issues(w, s.clients, answer.after)
      && Honest(answer.response, answer.after)
      && answer.response.requestedBase == q.baseSequence
      && answer.after.decisions.Keys == s.authority.decisions.Keys + ProposalIds(q.proposals)
      && Answers(answer.after, q.proposals, answer.response.decisions)
  {
    hide *;
    var a := s.authority;
    var cursor := SentParts(w, s, id, q);
    assert q.proposals[..|q.proposals|] == q.proposals;
    BatchKeepsIssues(w, s.clients, a, id, q, cursor, |q.proposals|);
    SentIsInRange(w, s, id, q, cursor);
    DecidedLogGrows(w.log, a, q.proposals);
    SelfCheckFailsOnlyOnOverflow(w, a, q);
    SynchronizeKeepsSound(w, a, q);
    AnswerMeans(w, a, q);
  }

  lemma SentParts(w: World, s: System, id: string, q: Request) returns (cursor: int)
    requires SystemInv(w, s) && (id, q) in s.requests
    ensures id in s.clients && cursor == KnownTo(s.clients[id]).cursor
    ensures RequestInv(q, s.clients[id].issued, cursor, s.authority, w.limits)
    ensures Sound(w, s.authority) && Coherent(w, s.authority) && Fifo(s.authority.log)
    ensures Issues(w, s.clients, s.authority) && Apart(s.clients)
  {
    hide Coherent, Fifo, Issues, Apart, RequestInv, Authored, ResponsesInv, Replicated;
    assert (id, q).0 == id && (id, q).1 == q;
    cursor := KnownTo(s.clients[id]).cursor;
  }

  lemma SentIsInRange(w: World, s: System, id: string, q: Request, cursor: int)
    requires Lawful(w) && SystemInv(w, s) && id in s.clients && cursor == KnownTo(s.clients[id]).cursor
    requires RequestInv(q, s.clients[id].issued, cursor, s.authority, w.limits)
    ensures ValidRequest(q, w.limits) && q.baseSequence <= |s.authority.log| && 1 <= w.limits.maximumEntries
  {
    hide Sound, Fifo, Issues, Apart, RequestsInv, Authored, ResponsesInv, ValidRequest, Learned, Project;
    assert ReplicaInv(w, id, s.clients[id], s.streamId, s.authority);
  }

  lemma AnswerMeans(w: World, a: Authority, q: Request)
    requires 1 <= w.limits.maximumEntries && Synchronize(w, a, q).Ok?
    ensures DecideAll(w.log, a, q.proposals).Ok?
    ensures var answer := Synchronize(w, a, q).value;
      && answer.after == DecideAll(w.log, a, q.proposals).value.after
      && answer.response.requestedBase == q.baseSequence
  {
    hide ResponseCheck, RequestCheck, DecideAll;
  }

  lemma HandleKeeps(w: World, s: System, id: string, q: Request)
    requires Lawful(w) && SystemInv(w, s) && (id, q) in s.requests && id in s.clients
    requires |s.authority.log| + |q.proposals| <= MAX_SAFE
    ensures Next(w, s, Handle(id, q)).Ok?
    ensures var t := Next(w, s, Handle(id, q)).value;
      SystemInv(w, t) && t.clients == s.clients && Extends(s.authority, t.authority)
  {
    hide *;
    HandledRequest(w, s, id, q);
    var answer := Synchronize(w, s.authority, q).value;
    var a, b := s.authority, answer.after;
    var t := s.(authority := b, responses := s.responses + {(id, answer.response)});
    var cursor := SentParts(w, s, id, q);
    InvParts(w, s);
    IssueOf(w, s.clients, a, id);
    SoundMeans(w, a);
    SoundMeans(w, b);
    AuthorityGrowthKeepsClients(w, s, b);
    StillAuthored(s.clients, a, b, id, q, answer.response.decisions, cursor, w.limits);
    OneMoreResponse(w, s, b, id, answer.response, cursor, q);
    HandledMeans(w, s, id, q, answer, t);
    InvFromAll(w, t);
  }

  lemma HandledMeans(w: World, s: System, id: string, q: Request, answer: Answer, t: System)
    requires id in s.clients && 0 <= w.limits.maximumEntries
    requires Synchronize(w, s.authority, q) == Ok(answer)
    requires t == s.(authority := answer.after, responses := s.responses + {(id, answer.response)})
    ensures Next(w, s, Handle(id, q)) == Ok(t)
  {
    hide Synchronize;
  }

  lemma InvParts(w: World, s: System)
    requires SystemInv(w, s)
    ensures Sound(w, s.authority) && Fifo(s.authority.log) && Issues(w, s.clients, s.authority)
    ensures Replicated(w, s.streamId, s.clients, s.authority) && Apart(s.clients)
    ensures Authored(s.clients, s.authority) && RequestsInv(w, s) && ResponsesInv(s)
  {
    hide Sound, Fifo, Issues, Replicated, Apart, Authored, RequestsInv, ResponsesInv;
  }

  lemma InvFromAll(w: World, s: System)
    requires Sound(w, s.authority) && Fifo(s.authority.log) && Issues(w, s.clients, s.authority)
    requires Replicated(w, s.streamId, s.clients, s.authority) && Apart(s.clients)
    requires Authored(s.clients, s.authority) && RequestsInv(w, s) && ResponsesInv(s)
    ensures SystemInv(w, s)
  {
    hide Sound, Fifo, Issues, Replicated, Apart, Authored, RequestsInv, ResponsesInv;
  }

  /** As the authority grows, what is said of replicas and of messages under way stays true. */
  lemma AuthorityGrowthKeepsClients(w: World, s: System, b: Authority)
    requires Coherent(w, s.authority) && Coherent(w, b) && Extends(s.authority, b)
    requires Replicated(w, s.streamId, s.clients, s.authority) && RequestsInv(w, s) && ResponsesInv(s)
    ensures Replicated(w, s.streamId, s.clients, b)
    ensures RequestsInv(w, s.(authority := b)) && ResponsesInv(s.(authority := b))
  {
    hide Coherent, Extends, ReplicaInv, Honest, RequestInv;
    forall id | id in s.clients ensures ReplicaInv(w, id, s.clients[id], s.streamId, b) {
      ReplicaInvStays(w, id, s.clients[id], s.streamId, s.authority, b);
    }
    forall m | m in s.requests
      ensures m.0 in s.clients
      ensures RequestInv(m.1, s.clients[m.0].issued, KnownTo(s.clients[m.0]).cursor, b, w.limits)
    {
      RequestInvStays(m.1, s.clients[m.0].issued, KnownTo(s.clients[m.0]).cursor, KnownTo(s.clients[m.0]).cursor,
                      s.authority, b, w.limits);
    }
    forall m | m in s.responses ensures Honest(m.1, b) {
      HonestStaysHonest(m.1, s.authority, b);
    }
  }

  lemma RequestInvStays(q: Request, issued: seq<Proposal>, cursor: int, later: int, a: Authority, b: Authority, limits: Limits)
    requires RequestInv(q, issued, cursor, a, limits) && cursor <= later && Extends(a, b)
    ensures RequestInv(q, issued, later, b, limits)
  {
    hide ValidRequest;
  }

  lemma StillAuthored(clients: map<string, Client>, a: Authority, b: Authority, id: string, q: Request,
                      ds: seq<Decision>, cursor: int, limits: Limits)
    requires Authored(clients, a) && Extends(a, b) && id in clients
    requires RequestInv(q, clients[id].issued, cursor, a, limits)
    requires ValidIssue(id, clients[id].first, clients[id].issued)
    requires b.decisions.Keys == a.decisions.Keys + ProposalIds(q.proposals) && Answers(b, q.proposals, ds)
    ensures Authored(clients, b)
  {
    hide ValidRequest;
    forall k | k in b.decisions ensures b.decisions[k].clientId in clients {
      if k !in a.decisions {
        var i :| 0 <= i < |q.proposals| && q.proposals[i].operationId == k;
        assert Remembers(b, q.proposals[i]) && q.proposals[i] in q.proposals;
      }
    }
  }

  lemma OneMoreResponse(w: World, s: System, b: Authority, id: string, response: Response, cursor: int, q: Request)
    requires RequestsInv(w, s.(authority := b)) && ResponsesInv(s.(authority := b)) && Honest(response, b)
    requires id in s.clients && cursor == KnownTo(s.clients[id]).cursor
    requires RequestInv(q, s.clients[id].issued, cursor, s.authority, w.limits)
    requires response.requestedBase == q.baseSequence
    ensures var t := s.(authority := b, responses := s.responses + {(id, response)});
      RequestsInv(w, t) && ResponsesInv(t)
  {
    hide Honest, ValidRequest;
  }

  /* ---- Steps of a client ---- */

  /** A client's step changes only that client; nothing of it is lost, and what it adds is new. */
  lemma ClientStepKeeps(w: World, s: System, id: string, next: Client)
    requires SystemInv(w, s) && id in s.clients
    requires ClientInv(w, id, next, s.streamId, s.authority) && Continues(s.clients[id], next)
    requires Apart(s.clients[id := next])
    ensures SystemInv(w, WithClient(s, id, next))
  {
    hide *;
    InvParts(w, s);
    IssueOf(w, s.clients, s.authority, id);
    OneClientReplaced(w, s, id, next);
    MessagesStay(w, s, id, next);
    InvFromAll(w, WithClient(s, id, next));
  }

  lemma OneClientReplaced(w: World, s: System, id: string, next: Client)
    requires Issues(w, s.clients, s.authority) && Replicated(w, s.streamId, s.clients, s.authority)
    requires Authored(s.clients, s.authority) && id in s.clients
    requires ClientInv(w, id, next, s.streamId, s.authority)
    ensures var t := WithClient(s, id, next);
      && Issues(w, t.clients, t.authority) && Replicated(w, t.streamId, t.clients, t.authority)
      && Authored(t.clients, t.authority)
      && t.authority == s.authority && t.streamId == s.streamId && t.clients == s.clients[id := next]
  {
    hide IssueInv, ReplicaInv;
  }

  lemma MessagesStay(w: World, s: System, id: string, next: Client)
    requires RequestsInv(w, s) && ResponsesInv(s) && id in s.clients && Continues(s.clients[id], next)
    requires ClientInv(w, id, next, s.streamId, s.authority)
    ensures RequestsInv(w, WithClient(s, id, next)) && ResponsesInv(WithClient(s, id, next))
  {
    hide Honest, RequestInv, ClientInv, KnownTo;
    var c := s.clients[id];
    forall q | RequestInv(q, c.issued, KnownTo(c).cursor, s.authority, w.limits)
      ensures RequestInv(q, next.issued, KnownTo(next).cursor, s.authority, w.limits)
    {
      LaterIssueIsNotOwed(w, id, c, next, s.streamId, s.authority, q);
    }
  }

  /** What a client issues later comes after everything in a request it sent before. */
  lemma LaterIssueIsNotOwed(w: World, id: string, c: Client, next: Client, streamId: string, a: Authority, q: Request)
    requires Continues(c, next) && ClientInv(w, id, next, streamId, a)
    requires RequestInv(q, c.issued, KnownTo(c).cursor, a, w.limits)
    ensures RequestInv(q, next.issued, KnownTo(next).cursor, a, w.limits)
  {
    hide Attributed, Owned, InOrder, Judged, ReplicaInv, ValidRequest;
    forall p, x | p in q.proposals && x in next.issued && x.clientSequence < p.clientSequence
      ensures x in q.proposals || x.operationId in a.decisions
    {
      assert p in c.issued;
      var i :| 0 <= i < |c.issued| && c.issued[i] == p;
      var j :| 0 <= j < |next.issued| && next.issued[j] == x;
      assert next.issued[i] == p && j < i;
      assert c.issued[j] == x && x in c.issued;
    }
  }

  /** Whatever the authority has decided, some client issued. */
  lemma DecidedIsIssued(w: World, clients: map<string, Client>, a: Authority, operationId: string) returns (id: string)
    requires Issues(w, clients, a) && Authored(clients, a) && operationId in a.decisions
    ensures id in clients && operationId in ProposalIds(clients[id].issued)
  {
    id := a.decisions[operationId].clientId;
    IssueOf(w, clients, a, id);
    var i := a.decisions[operationId].clientSequence - clients[id].first;
    hide Issues, IssueInv;
    assert clients[id].issued[i] in clients[id].issued;
  }

  lemma FreshIsUndecided(w: World, clients: map<string, Client>, a: Authority, operationId: string)
    requires Issues(w, clients, a) && Authored(clients, a)
    requires forall id | id in clients :: operationId !in ProposalIds(clients[id].issued)
    ensures operationId !in a.decisions
  {
    hide Issues, Authored, ProposalIds;
    if operationId in a.decisions {
      var id := DecidedIsIssued(w, clients, a, operationId);
      assert false;
    }
  }

  lemma SameIssueStaysApart(clients: map<string, Client>, id: string, next: Client)
    requires Apart(clients) && id in clients && next.issued == clients[id].issued
    ensures Apart(clients[id := next])
  {
  }

  lemma FreshIssueStaysApart(clients: map<string, Client>, id: string, next: Client, p: Proposal)
    requires Apart(clients) && id in clients && next.issued == clients[id].issued + [p]
    requires forall j | j in clients :: p.operationId !in ProposalIds(clients[j].issued)
    ensures Apart(clients[id := next])
  {
    hide ProposalIds;
    AddProposalId(clients[id].issued, p);
  }

  lemma ClientOf(w: World, s: System, id: string)
    requires SystemInv(w, s) && id in s.clients
    ensures ClientInv(w, id, s.clients[id], s.streamId, s.authority) && Sound(w, s.authority) && Apart(s.clients)
  {
    hide Sound, Fifo, Apart, Authored, RequestsInv, ResponsesInv, IssueInv, ReplicaInv;
  }

  /* ---- Steps ---- */

  /** The client that its own step leads to. */
  function ClientNext(w: World, s: System, step: Step): Result<Client>
    requires step.client in s.clients && !step.Send? && !step.Handle?
  {
    var c := s.clients[step.client];
    match step
    case Issue(_, operationId, intentHash, intent) => Enqueued(c, s.streamId, operationId, intentHash, intent)
    case Deliver(_, response) => Delivered(c, s.streamId, response, w.replica)
    case CompactLog(_, through) => Compacted(c, s.streamId, through)
    case Acknowledge(_, ids) => Acknowledged(c, s.streamId, ids)
  }

  lemma ClientNextIsNext(w: World, s: System, step: Step)
    requires step.client in s.clients && 0 <= w.limits.maximumEntries && !step.Send? && !step.Handle?
    requires ClientNext(w, s, step).Ok?
    ensures Next(w, s, step) == Ok(WithClient(s, step.client, ClientNext(w, s, step).value))
  {
    hide Enqueued, Delivered, Compacted, Acknowledged, WithClient;
  }

  lemma OneClientAdvances(s: System, id: string, next: Client)
    requires id in s.clients && Continues(s.clients[id], next)
    ensures Advances(s, WithClient(s, id, next))
  {
  }

  lemma DeliveredIsHonest(w: World, s: System, id: string, response: Response)
    requires ResponsesInv(s) && (id, response) in s.responses
    ensures id in s.clients && Honest(response, s.authority)
    ensures response.requestedBase <= KnownTo(s.clients[id]).cursor
  {
    hide Honest;
    assert (id, response).0 == id && (id, response).1 == response;
  }

  lemma ClientNextKeeps(w: World, s: System, step: Step)
    requires Lawful(w) && SystemInv(w, s) && Allowed(w, s, step) && !step.Send? && !step.Handle?
    ensures step.client in s.clients && ClientNext(w, s, step).Ok?
    ensures var next := ClientNext(w, s, step).value;
      && ClientInv(w, step.client, next, s.streamId, s.authority)
      && Continues(s.clients[step.client], next)
      && Apart(s.clients[step.client := next])
  {
    hide Sound, SystemInv, ClientInv, KnownTo, Continues, Apart, ProposalIds, Issues, Authored, ResponsesInv, Honest,
         Enqueued, Delivered, Compacted, Acknowledged, Lawful, Merge;
    var id := step.client;
    var c, a := s.clients[id], s.authority;
    ClientOf(w, s, id);
    InvParts(w, s);
    match step
    case Issue(_, operationId, intentHash, intent) =>
      FreshIsUndecided(w, s.clients, a, operationId);
      EnqueueKeeps(w, id, c, s.streamId, a, operationId, intentHash, intent);
      var p := Proposal(operationId, id, c.first + |c.issued|, intentHash, intent);
      FreshIssueStaysApart(s.clients, id, ClientNext(w, s, step).value, p);
    case Deliver(_, response) =>
      DeliveredIsHonest(w, s, id, response);
      DeliverKeeps(w, id, c, s.streamId, a, response);
      SameIssueStaysApart(s.clients, id, ClientNext(w, s, step).value);
    case CompactLog(_, through) =>
      CompactKeeps(w, id, c, s.streamId, a, through);
      SameIssueStaysApart(s.clients, id, ClientNext(w, s, step).value);
    case Acknowledge(_, ids) =>
      AcknowledgeKeeps(w, id, c, s.streamId, a, ids);
      SameIssueStaysApart(s.clients, id, ClientNext(w, s, step).value);
  }

  lemma SendKeeps(w: World, s: System, id: string, maximumProposals: int, maximumEntries: int)
    requires Lawful(w) && SystemInv(w, s) && id in s.clients
    requires 0 <= maximumProposals <= w.limits.maximumProposals && 1 <= maximumEntries <= MAX_SAFE
    ensures Next(w, s, Send(id, maximumProposals, maximumEntries)).Ok?
    ensures var t := Next(w, s, Send(id, maximumProposals, maximumEntries)).value; SystemInv(w, t) && Advances(s, t)
  {
    hide *;
    var c, a := s.clients[id], s.authority;
    LimitsAreNatural(w);
    ClientOf(w, s, id);
    InvParts(w, s);
    SendIsHonest(w, id, c, s.streamId, a, maximumProposals, maximumEntries);
    var q := StorePrepare(c.record, s.streamId, maximumProposals, maximumEntries).value;
    OneMoreRequest(w, s, id, q);
    ExtendsItself(a);
    SendMeans(w, s, id, maximumProposals, maximumEntries, q);
    InvFromAll(w, s.(requests := s.requests + {(id, q)}));
  }

  lemma SendMeans(w: World, s: System, id: string, maximumProposals: int, maximumEntries: int, q: Request)
    requires id in s.clients && 0 <= w.limits.maximumEntries && Extends(s.authority, s.authority)
    requires StorePrepare(s.clients[id].record, s.streamId, maximumProposals, maximumEntries) == Ok(q)
    ensures Next(w, s, Send(id, maximumProposals, maximumEntries)) == Ok(s.(requests := s.requests + {(id, q)}))
    ensures Advances(s, s.(requests := s.requests + {(id, q)}))
  {
    hide StorePrepare, Extends;
  }

  lemma OneMoreRequest(w: World, s: System, id: string, q: Request)
    requires RequestsInv(w, s) && ResponsesInv(s) && id in s.clients
    requires RequestInv(q, s.clients[id].issued, KnownTo(s.clients[id]).cursor, s.authority, w.limits)
    ensures RequestsInv(w, s.(requests := s.requests + {(id, q)}))
    ensures ResponsesInv(s.(requests := s.requests + {(id, q)}))
  {
    hide RequestInv, Honest, KnownTo;
  }

  /** No step that the environment allows can raise an error, whatever was lost, repeated, delayed
      or reordered before it; it keeps the invariant and undoes nothing. */
  lemma StepIsSafe(w: World, s: System, step: Step)
    requires Lawful(w) && SystemInv(w, s) && Allowed(w, s, step)
    ensures Next(w, s, step).Ok?
    ensures SystemInv(w, Next(w, s, step).value) && Advances(s, Next(w, s, step).value)
  {
    LimitsAreNatural(w);
    hide Lawful, Next, SystemInv, Continues, Extends, ProposalIds, Sound;
    match step
    case Send(id, maximumProposals, maximumEntries) => SendKeeps(w, s, id, maximumProposals, maximumEntries);
    case Handle(id, request) => HandleKeeps(w, s, id, request); OnlyAuthorityAdvances(w, s, id, request);
    case _ =>
      ClientNextKeeps(w, s, step);
      var next := ClientNext(w, s, step).value;
      ClientNextIsNext(w, s, step);
      ClientStepKeeps(w, s, step.client, next);
      OneClientAdvances(s, step.client, next);
  }

  lemma OnlyAuthorityAdvances(w: World, s: System, id: string, q: Request)
    requires id in s.clients && 0 <= w.limits.maximumEntries && Next(w, s, Handle(id, q)).Ok?
    requires Extends(s.authority, Next(w, s, Handle(id, q)).value.authority)
    ensures Advances(s, Next(w, s, Handle(id, q)).value)
  {
    hide Extends, Synchronize;
  }

  /* ---- Runs ---- */

  /** A run: each state leads to the next by a step that the environment allows. */
  ghost predicate IsRun(w: World, streamId: string, firsts: map<string, int>, states: seq<System>, steps: seq<Step>)
    requires Lawful(w)
  {
    && (forall id | id in firsts :: id != "" && 1 <= firsts[id] <= MAX_SAFE)
    && |states| == |steps| + 1
    && states[0] == Start(w, streamId, firsts)
    && forall i | 0 <= i < |steps| :: Allowed(w, states[i], steps[i]) && Next(w, states[i], steps[i]) == Ok(states[i + 1])
  }

  lemma ItselfAdvances(s: System)
    ensures Advances(s, s)
  {
  }

  lemma AdvancesTransitive(s: System, t: System, u: System)
    requires Advances(s, t) && Advances(t, u)
    ensures Advances(s, u)
  {
    hide Extends, Continues;
    ExtendsTransitive(s.authority, t.authority, u.authority);
    forall id | id in s.clients ensures Continues(s.clients[id], u.clients[id]) {
      ContinuesTransitive(s.clients[id], t.clients[id], u.clients[id]);
    }
  }

  lemma ContinuesTransitive(c: Client, d: Client, e: Client)
    requires Continues(c, d) && Continues(d, e)
    ensures Continues(c, e)
  {
  }

  lemma NoStepFails(w: World, s: System)
    requires Lawful(w) && SystemInv(w, s)
    ensures forall step | Allowed(w, s, step) :: Next(w, s, step).Ok?
  {
    hide SystemInv, Next;
    forall step | Allowed(w, s, step) ensures Next(w, s, step).Ok? {
      StepIsSafe(w, s, step);
    }
  }

  /** Every state of every run meets the invariant, whichever step comes next succeeds, and nothing
      of an earlier state is undone by a later one. */
  lemma {:induction false} RunsAreSafe(
    w: World, streamId: string, firsts: map<string, int>, states: seq<System>, steps: seq<Step>, i: nat, j: nat)
    requires Lawful(w) && IsRun(w, streamId, firsts, states, steps) && i <= j < |states|
    ensures SystemInv(w, states[j]) && Advances(states[i], states[j])
    ensures forall step | Allowed(w, states[j], step) :: Next(w, states[j], step).Ok?
  {
    hide Lawful, SystemInv, Advances, Allowed, Next, Start;
    if i < j {
      RunsAreSafe(w, streamId, firsts, states, steps, i, j - 1);
      StepIsSafe(w, states[j - 1], steps[j - 1]);
      AdvancesTransitive(states[i], states[j - 1], states[j]);
    } else {
      ItselfAdvances(states[j]);
      if j == 0 {
        StartIsSafe(w, streamId, firsts);
      } else {
        RunsAreSafe(w, streamId, firsts, states, steps, j - 1, j - 1);
        StepIsSafe(w, states[j - 1], steps[j - 1]);
      }
    }
    NoStepFails(w, states[j]);
  }

  /** s is a state of some run. */
  ghost predicate Reachable(w: World, s: System)
    requires Lawful(w)
  {
    exists streamId, firsts, states, steps :: IsRun(w, streamId, firsts, states, steps) && s in states
  }

  lemma ReachableIsSafe(w: World, s: System)
    requires Lawful(w) && Reachable(w, s)
    ensures SystemInv(w, s)
  {
    hide Lawful, IsRun, SystemInv;
    var streamId, firsts, states, steps :| IsRun(w, streamId, firsts, states, steps) && s in states;
    var i :| 0 <= i < |states| && states[i] == s;
    RunsAreSafe(w, streamId, firsts, states, steps, i, i);
  }

  /** No honest run raises a protocol error: in every reachable state, every step that the
      environment allows succeeds, whatever was lost, repeated, delayed or reordered before. */
  lemma NoErrorIsRaised(w: World, s: System, step: Step)
    requires Lawful(w) && Reachable(w, s) && Allowed(w, s, step)
    ensures step.client in s.clients && 0 <= w.limits.maximumEntries && Next(w, s, step).Ok?
  {
    hide *;
    LimitsAreNatural(w);
    AllowedIsKnown(w, s, step);
    ReachableIsSafe(w, s);
    StepIsSafe(w, s, step);
  }

  lemma AllowedIsKnown(w: World, s: System, step: Step)
    requires Allowed(w, s, step)
    ensures step.client in s.clients
  {
  }
}
