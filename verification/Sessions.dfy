/** src/client/sync-session.ts: the loop that drains a client's proposals and the authority's pages.
    Session gives one call of it on values; RunSyncSession runs the loop over the mutable store and
    the mutable server and is proved equal to it. */
module Sessions {
  import opened Protocol
  import opened Validators
  import opened LogServer
  import opened InMemoryServer
  import opened Replicas
  import opened MergeLaws
  import opened Knowledge
  import opened DurableRecords
  import opened Clients
  import opened ClientSteps
  import opened ProtocolRuns

  datatype Ended = Ended(outcome: Outcome, record: Record, authority: Authority, rounds: nat)

  predicate HasMoreEntries(response: Response) { response.through < response.head }

  /** What the transport writes on its envelopes. */
  datatype Endpoint = Endpoint(protocolVersion: int, streamId: string)

  function HomeOf(streamId: string): Endpoint { Endpoint(PROTOCOL_VERSION, streamId) }

  function Wrap(at: Endpoint, response: Response): Envelope<Response> {
    Envelope(at.protocolVersion, at.streamId, response)
  }

  function EnvelopeCheck(streamId: string, envelope: Envelope<Response>): (r: Outcome)
    ensures r.Pass? <==> Endpoint(envelope.protocolVersion, envelope.streamId) == HomeOf(streamId)
  {
    if envelope.protocolVersion != PROTOCOL_VERSION then Fail(ClientProtocol)
    else if envelope.streamId != streamId then Fail(ClientProtocol)
    else Pass
  }

  function Session(w: World, at: Endpoint, streamId: string, record: Record, a: Authority,
                   maximumProposals: int, maximumEntries: int, maximumRounds: nat): Ended
    requires 0 <= w.limits.maximumEntries
    decreases maximumRounds
  {
    if maximumRounds == 0 then Ended(Fail(RoundsExceeded), record, a, 0)
    else
      match StorePrepare(record, streamId, maximumProposals, maximumEntries)
      case Err(error) => Ended(Fail(error), record, a, 1)
      case Ok(request) =>
        match LogServer.Synchronize(w, a, request)
        case Err(error) => Ended(Fail(error), record, a, 1)
        case Ok(answer) =>
          match EnvelopeCheck(streamId, Wrap(at, answer.response))
          case Fail(error) => Ended(Fail(error), record, answer.after, 1)
          case Pass =>
            match StoreMerge(record, streamId, answer.response, w.replica)
            case Err(error) => Ended(Fail(error), record, answer.after, 1)
            case Ok(next) =>
              if !HasMoreEntries(answer.response) && next.replica.outbox == [] then
                Ended(Pass, next, answer.after, 1)
              else
                Later(Session(w, at, streamId, next, answer.after, maximumProposals, maximumEntries, maximumRounds - 1), 1)
  }

  function Later(ended: Ended, rounds: nat): Ended { ended.(rounds := ended.rounds + rounds) }

  method RunSyncSession(store: ReplicaStore, server: InMemoryLogServer, at: Endpoint,
                        maximumProposals: int, maximumEntries: int, maximumSyncRounds: nat)
    returns (outcome: Outcome, rounds: nat)
    requires store.interpreter == server.world.replica && 0 <= server.world.limits.maximumEntries
    modifies store`record, server
    ensures Ended(outcome, store.record, server.Value(), rounds)
         == Session(server.world, at, store.streamId, old(store.record), old(server.Value()),
                    maximumProposals, maximumEntries, maximumSyncRounds)
  {
    hide StorePrepare, StoreMerge, LogServer.Synchronize, Pendings, ValidRecord, Merge;
    ghost var all := Session(server.world, at, store.streamId, store.record, server.Value(),
                             maximumProposals, maximumEntries, maximumSyncRounds);
    rounds := 0;
    while rounds < maximumSyncRounds
      invariant rounds <= maximumSyncRounds
      invariant all == Later(Session(server.world, at, store.streamId, store.record, server.Value(),
                                     maximumProposals, maximumEntries, maximumSyncRounds - rounds), rounds)
    {
      rounds := rounds + 1;
      var request := store.PrepareSyncRequest(maximumProposals, maximumEntries);
      if request.Err? {
        return Fail(request.error), rounds;
      }
      var response := server.Synchronize(request.value);
      if response.Err? {
        return Fail(response.error), rounds;
      }
      var envelope := Wrap(at, response.value);
      outcome := EnvelopeCheck(store.streamId, envelope);
      if outcome.Fail? {
        return;
      }
      var merged := store.MergeSyncResponse(envelope.message);
      if merged.Err? {
        return Fail(merged.error), rounds;
      }
      var status := StatusFromRecord(store.record);
      if !HasMoreEntries(envelope.message) && status.pending == 0 && status.awaiting == 0 {
        return Pass, rounds;
      }
    }
    return Fail(RoundsExceeded), rounds;
  }

  /** An answer that names another version or stream is never merged. */
  lemma ForeignAnswersAreNotMerged(w: World, at: Endpoint, streamId: string, record: Record, a: Authority,
                                   maximumProposals: int, maximumEntries: int, maximumRounds: nat)
    requires 0 <= w.limits.maximumEntries && at != HomeOf(streamId)
    ensures var ended := Session(w, at, streamId, record, a, maximumProposals, maximumEntries, maximumRounds);
      ended.outcome.Fail? && ended.record == record && ended.rounds <= 1
  {
    hide StorePrepare, LogServer.Synchronize, StoreMerge;
  }

  /* ---- The bound ---- */

  /** How many steps of y cover x. */
  function Ceil(x: int, y: int): nat
    requires 1 <= y
  {
    if x <= 0 then 0 else 1 + Ceil(x - y, y)
  }

  /** Ceil is division rounded up. */
  lemma {:induction false} CeilIsCeiling(x: nat, y: int)
    requires 1 <= y
    ensures x <= Ceil(x, y) * y < x + y
  {
    if x > 0 {
      if x > y {
        CeilIsCeiling(x - y, y);
      }
      var rest := Ceil(x - y, y);
      assert (1 + rest) * y == y + rest * y;
    }
  }

  lemma {:induction false} CeilIsMonotone(x: int, z: int, y: int)
    requires 1 <= y && x <= z
    ensures Ceil(x, y) <= Ceil(z, y)
  {
    if x > 0 {
      CeilIsMonotone(x - y, z - y, y);
    }
  }

  /** Rounds enough for P pending proposals and a lag of D entries. */
  function Needed(P: nat, D: nat, p: int, e: int): nat
    requires 1 <= p && 1 <= e
  {
    Ceil(P, p) + Ceil(D + P, e)
  }

  /** One round sends up to p proposals, of which grown are new to the log, and reads up to e entries. */
  lemma RoundLowersNeeded(P: nat, D: nat, p: int, e: int, P': nat, D': nat, grown: nat)
    requires 1 <= p && 1 <= e
    requires P' <= P - Min(p, P) && grown <= Min(p, P) && D' == Max(0, D + grown - e)
    ensures Needed(P', D', p, e) <= Max(0, Needed(P, D, p, e) - 1)
    ensures Needed(P', D', p, e) == 0 <==> P' == 0 && D' == 0
  {
    if P > p {
      CeilIsMonotone(P', P - p, p);
    }
    CeilIsMonotone(P', P, p);
    CeilIsMonotone(D' + P', D + P, e);
    if D + grown >= e {
      CeilIsMonotone(D' + P', D + P - e, e);
    }
  }

  /* ---- One round ---- */

  function PendingOf(c: Client, a: Authority): seq<Proposal> { OpenProposals(c.issued, KnownTo(c), a) }

  lemma {:induction false} SizeOfAscending(ps: seq<Proposal>)
    requires Ascending(ps)
    ensures |set p | p in ps| == |ps|
  {
    if ps == [] {
      assert (set p | p in ps) == {};
    } else {
      var init, last := ps[..|ps| - 1], ps[|ps| - 1];
      SizeOfAscending(init);
      LastIsApart(ps);
      var before := set p | p in init;
      assert last !in before && (set p | p in ps) == before + {last};
    }
  }

  lemma LastIsApart(ps: seq<Proposal>)
    requires ps != [] && Ascending(ps)
    ensures ps[|ps| - 1] !in ps[..|ps| - 1]
    ensures forall p :: p in ps <==> p in ps[..|ps| - 1] || p == ps[|ps| - 1]
  {
    var init, last := ps[..|ps| - 1], ps[|ps| - 1];
    assert ps == init + [last];
    forall p | p in init ensures p != last {
      var i :| 0 <= i < |init| && init[i] == p;
    }
  }

  lemma SubsetIsSmaller<T>(xs: set<T>, ys: set<T>)
    requires xs <= ys
    ensures |xs| <= |ys|
  {
    assert ys == xs + (ys - xs);
  }

  lemma FewerRemain(before: seq<Proposal>, n: nat, after: seq<Proposal>)
    requires Ascending(before) && Ascending(after) && n <= |before|
    requires forall p | p in after :: p in before && p !in before[..n]
    ensures |after| <= |before| - n
  {
    var all, gone, left := set p | p in before, set p | p in before[..n], set p | p in after;
    PrefixMembers(before, n);
    SizeOfAscending(before);
    SizeOfAscending(before[..n]);
    SizeOfAscending(after);
    assert left + gone <= all && left !! gone;
    SubsetIsSmaller(left + gone, all);
  }

  /** What is open after more is known was open before. */
  lemma OpenShrinks(w: World, issued: seq<Proposal>, k: Known, l: Known, a: Authority, b: Authority)
    requires Coherent(w, a) && Coherent(w, b) && Extends(a, b)
    requires k.cursor <= |a.log| && k.decided <= a.decisions.Keys
    requires k.cursor <= l.cursor && k.decided <= l.decided
    ensures forall p | p in issued && IsOpen(p.operationId, l, b) :: IsOpen(p.operationId, k, a)
    ensures forall p | p in issued && p.operationId in b.decisions && p.operationId in l.decided :: !IsOpen(p.operationId, l, b)
  {
    hide Coherent, Extends;
    forall p | p in issued && IsOpen(p.operationId, l, b) ensures IsOpen(p.operationId, k, a) {
      ViewStays(w, p, k, a, b);
    }
  }

  datatype Exchange = Exchange(request: Request, answer: Answer, after: System)

  /** One round of a session of an honest client. */
  ghost predicate IsRound(w: World, s: System, id: string, p: int, e: int, x: Exchange)
    requires id in s.clients && 0 <= w.limits.maximumEntries
  {
    var c := s.clients[id];
    && StorePrepare(c.record, s.streamId, p, e) == Ok(x.request)
    && LogServer.Synchronize(w, s.authority, x.request) == Ok(x.answer)
    && x.after.authority == x.answer.after
    && x.after.streamId == s.streamId
    && id in x.after.clients
    && StoreMerge(c.record, s.streamId, x.answer.response, w.replica) == Ok(x.after.clients[id].record)
  }

  ghost predicate Limited(w: World, p: int, e: int) {
    1 <= p <= w.limits.maximumProposals && 1 <= e <= MAX_SAFE
  }

  /** What the client asked for and learned in the round. */
  ghost predicate Exchanged(c: Client, a: Authority, p: int, e: int, x: Exchange, next: Client) {
    && x.request == Request(KnownTo(c).cursor, e, PendingOf(c, a)[..Max(0, Min(p, |PendingOf(c, a)|))])
    && Honest(x.answer.response, x.answer.after) && Extends(a, x.answer.after)
    && Answers(x.answer.after, x.request.proposals, x.answer.response.decisions)
    && KnownTo(next) == Join(KnownTo(c), x.answer.response)
    && next.issued == c.issued
    && x.answer.response.requestedBase == KnownTo(c).cursor
  }

  lemma RoundSucceeds(w: World, s: System, id: string, p: int, e: int) returns (x: Exchange)
    requires Lawful(w) && SystemInv(w, s) && id in s.clients && Limited(w, p, e)
    requires |s.authority.log| + |PendingOf(s.clients[id], s.authority)| <= MAX_SAFE
    ensures 0 <= w.limits.maximumEntries && IsRound(w, s, id, p, e, x) && SystemInv(w, x.after)
    ensures Exchanged(s.clients[id], s.authority, p, e, x, x.after.clients[id])
  {
    hide *;
    LimitsAreNatural(w);
    LimitedMeans(w, p, e);
    var c, a := s.clients[id], s.authority;
    ClientOf(w, s, id);
    SendIsHonest(w, id, c, s.streamId, a, p, e);
    var q := StorePrepare(c.record, s.streamId, p, e).value;
    SendKeeps(w, s, id, p, e);
    var s1 := s.(requests := s.requests + {(id, q)});
    SentSystem(w, s, id, p, e, q);
    PrefixIsShorter(c, a, p);
    HandledRequest(w, s1, id, q);
    HandleKeeps(w, s1, id, q);
    var answer := LogServer.Synchronize(w, a, q).value;
    var s2 := s1.(authority := answer.after, responses := s1.responses + {(id, answer.response)});
    HandledMeans(w, s1, id, q, answer, s2);
    ClientOf(w, s2, id);
    AnswerComesAfterCursor(w, s2, id, answer.response);
    DeliverKeeps(w, id, c, s.streamId, answer.after, answer.response);
    var next := Delivered(c, s.streamId, answer.response, w.replica).value;
    SameIssueStaysApart(s2.clients, id, next);
    ClientStepKeeps(w, s2, id, next);
    x := Exchange(q, answer, WithClient(s2, id, next));
    RoundIs(w, s, id, p, e, x, s2, next);
    ExchangeIs(c, a, p, e, x, next);
  }

  lemma LimitedMeans(w: World, p: int, e: int)
    requires Limited(w, p, e)
    ensures 1 <= p <= w.limits.maximumProposals && 1 <= e <= MAX_SAFE
  {
  }

  lemma PrefixIsShorter(c: Client, a: Authority, p: int)
    requires 1 <= p
    ensures var open := OpenProposals(c.issued, KnownTo(c), a);
      && PendingOf(c, a) == open
      && 0 <= Min(p, |open|) <= |open| && |open[..Min(p, |open|)]| <= |open|
  {
  }

  lemma ExchangeIs(c: Client, a: Authority, p: int, e: int, x: Exchange, next: Client)
    requires 1 <= p
    requires x.request == Request(KnownTo(c).cursor, e, OpenProposals(c.issued, KnownTo(c), a)[..Min(p, |OpenProposals(c.issued, KnownTo(c), a)|)])
    requires Honest(x.answer.response, x.answer.after) && Extends(a, x.answer.after)
    requires Answers(x.answer.after, x.request.proposals, x.answer.response.decisions)
    requires KnownTo(next) == Join(KnownTo(c), x.answer.response) && next.issued == c.issued
    requires x.answer.response.requestedBase == KnownTo(c).cursor
    ensures Exchanged(c, a, p, e, x, next)
  {
    hide Honest, Extends, Answers, OpenProposals;
  }

  lemma SentSystem(w: World, s: System, id: string, p: int, e: int, q: Request)
    requires id in s.clients && 0 <= w.limits.maximumEntries
    requires StorePrepare(s.clients[id].record, s.streamId, p, e) == Ok(q)
    ensures Next(w, s, Send(id, p, e)) == Ok(s.(requests := s.requests + {(id, q)}))
  {
    hide StorePrepare;
  }

  lemma AnswerComesAfterCursor(w: World, s: System, id: string, response: Response)
    requires SystemInv(w, s) && (id, response) in s.responses
    ensures id in s.clients && Honest(response, s.authority) && response.requestedBase <= KnownTo(s.clients[id]).cursor
  {
    hide *;
    InvParts(w, s);
    DeliveredIsHonest(w, s, id, response);
  }

  lemma RoundIs(w: World, s: System, id: string, p: int, e: int, x: Exchange, s2: System, next: Client)
    requires id in s.clients && 0 <= w.limits.maximumEntries
    requires StorePrepare(s.clients[id].record, s.streamId, p, e) == Ok(x.request)
    requires LogServer.Synchronize(w, s.authority, x.request) == Ok(x.answer)
    requires s2.authority == x.answer.after && s2.streamId == s.streamId && s2.clients == s.clients
    requires x.after == WithClient(s2, id, next)
    requires Delivered(s.clients[id], s.streamId, x.answer.response, w.replica) == Ok(next)
    ensures IsRound(w, s, id, p, e, x) && x.after.clients[id] == next
  {
    hide StorePrepare, LogServer.Synchronize, StoreMerge, Merge;
  }

  function PageSize(w: World, e: int): int { Min(e, w.limits.maximumEntries) }

  lemma AnswerIs(w: World, a: Authority, q: Request)
    requires 1 <= w.limits.maximumEntries && LogServer.Synchronize(w, a, q).Ok?
    ensures var answer := LogServer.Synchronize(w, a, q).value;
      && |a.log| <= |answer.after.log| <= |a.log| + |q.proposals|
      && answer.response.head == |answer.after.log|
      && 0 <= q.baseSequence <= |a.log| && 1 <= q.maximumEntries
      && answer.response.through == Min(q.baseSequence + PageSize(w, q.maximumEntries), |answer.after.log|)
  {
    RequestCheckIsValidRequest(q, w.limits);
    DecidedLogGrows(w.log, a, q.proposals);
    hide ResponseCheck, RequestCheck, DecideAll, ValidBatch;
  }

  /** How far one round gets: it settles min(p, P) proposals, which the log gains at most, and
      reads a page. */
  lemma RoundReads(w: World, id: string, c: Client, d: Client, streamId: string, a: Authority, p: int, e: int, x: Exchange)
    requires Lawful(w) && Sound(w, a) && ClientInv(w, id, c, streamId, a) && Limited(w, p, e)
    requires Exchanged(c, a, p, e, x, d) && LogServer.Synchronize(w, a, x.request) == Ok(x.answer)
    ensures var b := x.answer.after;
      && |a.log| <= |b.log| <= |a.log| + Min(p, |PendingOf(c, a)|)
      && KnownTo(c).cursor <= |a.log|
      && |b.log| - KnownTo(d).cursor == Max(0, |b.log| - KnownTo(c).cursor - PageSize(w, e))
      && (!HasMoreEntries(x.answer.response) <==> KnownTo(d).cursor == |b.log|)
    ensures KnownTo(c).cursor <= KnownTo(d).cursor && KnownTo(c).decided <= KnownTo(d).decided && 1 <= p
  {
    hide *;
    LimitsAreNatural(w);
    LimitedMeans(w, p, e);
    ClientParts(w, id, c, streamId, a);
    ExchangedMeans(c, a, p, e, x, d);
    AnswerIs(w, a, x.request);
    RoundArithmetic(w, c, d, e, x.answer);
  }

  lemma RoundSettles(w: World, id: string, c: Client, d: Client, streamId: string, a: Authority, b: Authority,
                     p: int, e: int, x: Exchange)
    requires Sound(w, a) && Sound(w, b) && ClientInv(w, id, c, streamId, a) && ClientInv(w, id, d, streamId, b)
    requires Exchanged(c, a, p, e, x, d) && x.answer.after == b && 1 <= p
    requires KnownTo(c).cursor <= KnownTo(d).cursor && KnownTo(c).decided <= KnownTo(d).decided
    ensures |PendingOf(d, b)| <= |PendingOf(c, a)| - Min(p, |PendingOf(c, a)|)
  {
    hide *;
    ClientParts(w, id, c, streamId, a);
    ClientParts(w, id, d, streamId, b);
    ExchangedMeans(c, a, p, e, x, d);
    DecidedIsKnown(w, c, a);
    PendingIs(id, c, a);
    PendingIs(id, d, b);
    OpenShrinks(w, c.issued, KnownTo(c), KnownTo(d), a, b);
    SentAreKnown(w, c, d, a, b, p, e, x);
    FewerRemain(PendingOf(c, a), Min(p, |PendingOf(c, a)|), PendingOf(d, b));
  }

  lemma SentAreKnown(w: World, c: Client, d: Client, a: Authority, b: Authority, p: int, e: int, x: Exchange)
    requires Sound(w, b) && Exchanged(c, a, p, e, x, d) && x.answer.after == b && 1 <= p
    ensures 0 <= Min(p, |PendingOf(c, a)|) <= |PendingOf(c, a)|
    ensures forall q | q in PendingOf(c, a)[..Min(p, |PendingOf(c, a)|)] ::
      q in PendingOf(c, a) && q.operationId in b.decisions && q.operationId in KnownTo(d).decided
  {
    hide *;
    ExchangedMeans(c, a, p, e, x, d);
    SoundMeans(w, b);
    CoherentParts(w, b);
    AnsweredAreDecided(x.request.proposals, b, x.answer.response.decisions);
    JoinKnows(KnownTo(c), x.answer.response);
    PrefixMembers(PendingOf(c, a), Min(p, |PendingOf(c, a)|));
  }

  lemma RoundMeans(w: World, s: System, id: string, p: int, e: int, x: Exchange)
    requires id in s.clients && 0 <= w.limits.maximumEntries && IsRound(w, s, id, p, e, x)
    ensures LogServer.Synchronize(w, s.authority, x.request) == Ok(x.answer)
    ensures x.after.authority == x.answer.after && id in x.after.clients && x.after.streamId == s.streamId
  {
    hide LogServer.Synchronize, StorePrepare, StoreMerge;
  }

  lemma ExchangedMeans(c: Client, a: Authority, p: int, e: int, x: Exchange, next: Client)
    requires Exchanged(c, a, p, e, x, next) && 1 <= p
    ensures Extends(a, x.answer.after)
    ensures x.request.baseSequence == KnownTo(c).cursor && x.request.maximumEntries == e
    ensures 0 <= Min(p, |PendingOf(c, a)|) <= |PendingOf(c, a)|
    ensures x.request.proposals == PendingOf(c, a)[..Min(p, |PendingOf(c, a)|)]
    ensures Answers(x.answer.after, x.request.proposals, x.answer.response.decisions)
    ensures KnownTo(next) == Join(KnownTo(c), x.answer.response) && next.issued == c.issued
  {
    hide Honest, Extends, Answers, PendingOf;
  }

  lemma RoundArithmetic(w: World, c: Client, d: Client, e: int, answer: Answer)
    requires 1 <= e && 1 <= w.limits.maximumEntries && 0 <= KnownTo(c).cursor <= |answer.after.log|
    requires answer.response.head == |answer.after.log|
    requires answer.response.through == Min(KnownTo(c).cursor + PageSize(w, e), |answer.after.log|)
    requires KnownTo(d) == Join(KnownTo(c), answer.response)
    ensures |answer.after.log| - KnownTo(d).cursor == Max(0, |answer.after.log| - KnownTo(c).cursor - PageSize(w, e))
    ensures !HasMoreEntries(answer.response) <==> KnownTo(d).cursor == |answer.after.log|
    ensures KnownTo(c).cursor <= KnownTo(d).cursor && KnownTo(c).decided <= KnownTo(d).decided
  {
  }

  lemma DecidedIsKnown(w: World, c: Client, a: Authority)
    requires Represents(w, c.record.replica, c.issued, KnownTo(c), a)
    ensures KnownTo(c).decided <= a.decisions.Keys
  {
  }

  lemma PendingIs(id: string, c: Client, a: Authority)
    requires ValidIssue(id, c.first, c.issued)
    ensures Ascending(PendingOf(c, a))
    ensures forall p :: p in PendingOf(c, a) <==> p in c.issued && IsOpen(p.operationId, KnownTo(c), a)
  {
    OpenAreAscending(id, c.first, c.issued, KnownTo(c), a);
  }

  lemma AnsweredAreDecided(ps: seq<Proposal>, a: Authority, ds: seq<Decision>)
    requires Answers(a, ps, ds) && DecisionsCoherent(a)
    ensures forall p | p in ps :: p.operationId in a.decisions && p.operationId in DecisionIds(ds)
  {
    forall p | p in ps ensures p.operationId in a.decisions && p.operationId in DecisionIds(ds) {
      var i :| 0 <= i < |ps| && ps[i] == p;
      assert Remembers(a, ps[i]) && StoredCoherent(a, ps[i].operationId) && ds[i] in ds;
    }
  }

  lemma JoinKnows(k: Known, response: Response)
    ensures Join(k, response).decided == k.decided + DecisionIds(response.decisions)
  {
  }

  lemma EmptyOutbox(w: World, c: Client, a: Authority)
    requires Sound(w, a) && c.record.replica.outbox == Project(c.issued, KnownTo(c), a)
    ensures c.record.replica.outbox == [] ==> PendingOf(c, a) == []
    ensures PendingOf(c, a) == [] && KnownTo(c).cursor == |a.log| ==> c.record.replica.outbox == []
  {
    var k := KnownTo(c);
    PendingsAreOpen(c.issued, k, a);
    if k.cursor == |a.log| {
      forall x | x in c.record.replica.outbox ensures x.proposal in PendingOf(c, a) {
        NothingAwaits(w, c.issued, k, a, x);
      }
      assert c.record.replica.outbox != [] ==> c.record.replica.outbox[0] in c.record.replica.outbox;
    }
  }

  /** At the head of the log every accepted operation is confirmed. */
  lemma NothingAwaits(w: World, issued: seq<Proposal>, k: Known, a: Authority, x: OutboxEntry)
    requires Sound(w, a) && k.cursor == |a.log| && x in Project(issued, k, a)
    ensures x.proposal in OpenProposals(issued, k, a)
  {
    ProjectedAreIssued(issued, k, a);
    assert x.proposal.operationId in a.decisions ==> StoredCoherent(a, x.proposal.operationId);
    OpenIsListed(issued, k, a, x.proposal);
  }

  lemma {:induction false} OpenIsListed(issued: seq<Proposal>, k: Known, a: Authority, p: Proposal)
    requires p in issued && IsOpen(p.operationId, k, a)
    ensures p in OpenProposals(issued, k, a)
  {
    if issued[|issued| - 1] != p {
      OpenIsListed(issued[..|issued| - 1], k, a, p);
    }
  }

  /* ---- The whole session ---- */

  /** A session that may take n rounds ends within needed rounds if there are as many, and with
      everything settled and confirmed; it fails only by running out of rounds. */
  ghost predicate Drains(ended: Ended, needed: nat, n: nat) {
    && (needed <= n ==> ended.outcome.Pass? && ended.rounds <= needed)
    && (ended.outcome.Pass? ==>
          && ended.record.replica.outbox == []
          && ended.record.replica.confirmedSequence == |ended.authority.log|
          && ended.record.replica.confirmedState == ended.authority.state)
    && (ended.outcome.Fail? ==> ended.outcome.error == RoundsExceeded && ended.rounds == n)
  }

  function Lag(c: Client, a: Authority): int { |a.log| - KnownTo(c).cursor }

  ghost predicate Ready(w: World, s: System, id: string, p: int, e: int) {
    && Lawful(w) && SystemInv(w, s) && id in s.clients && Limited(w, p, e)
    && |s.authority.log| + |PendingOf(s.clients[id], s.authority)| <= MAX_SAFE
  }

  lemma ReadyParts(w: World, s: System, id: string, p: int, e: int)
    requires Ready(w, s, id, p, e)
    ensures Lawful(w) && SystemInv(w, s) && id in s.clients && Limited(w, p, e)
    ensures |s.authority.log| + |PendingOf(s.clients[id], s.authority)| <= MAX_SAFE
    ensures 1 <= p && 1 <= PageSize(w, e) && 0 <= w.limits.maximumEntries && 0 <= Lag(s.clients[id], s.authority)
  {
    hide SystemInv, PendingOf;
    ClientOf(w, s, id);
    hide *;
    ClientParts(w, id, s.clients[id], s.streamId, s.authority);
    LimitsAreNatural(w);
    LimitedMeans(w, p, e);
    PageIsPositive(w, s.clients[id], s.authority, e);
  }

  lemma PageIsPositive(w: World, c: Client, a: Authority, e: int)
    requires 1 <= w.limits.maximumEntries && 1 <= e && KnownTo(c).cursor <= |a.log|
    ensures 1 <= PageSize(w, e) && 0 <= Lag(c, a)
  {
  }

  /** One round, and what is left to do after it. */
  lemma OneRound(w: World, s: System, id: string, p: int, e: int) returns (x: Exchange)
    requires Ready(w, s, id, p, e)
    ensures 0 <= w.limits.maximumEntries && id in s.clients && IsRound(w, s, id, p, e, x)
    ensures Ready(w, x.after, id, p, e) && 1 <= p && 1 <= PageSize(w, e)
    ensures 0 <= Lag(s.clients[id], s.authority) && 0 <= Lag(x.after.clients[id], x.after.authority)
    ensures var before := Needed(|PendingOf(s.clients[id], s.authority)|, Lag(s.clients[id], s.authority), p, PageSize(w, e));
      var after := Needed(|PendingOf(x.after.clients[id], x.after.authority)|, Lag(x.after.clients[id], x.after.authority), p, PageSize(w, e));
      && after <= Max(0, before - 1)
      && (after == 0 <==> !HasMoreEntries(x.answer.response) && x.after.clients[id].record.replica.outbox == [])
  {
    hide *;
    ReadyParts(w, s, id, p, e);
    x := RoundSucceeds(w, s, id, p, e);
    RoundMeans(w, s, id, p, e, x);
    var c, d, a, b := s.clients[id], x.after.clients[id], s.authority, x.after.authority;
    ClientOf(w, s, id);
    ClientOf(w, x.after, id);
    RoundReads(w, id, c, d, s.streamId, a, p, e, x);
    RoundSettles(w, id, c, d, s.streamId, a, b, p, e, x);
    ClientParts(w, id, d, s.streamId, b);
    EmptyOutbox(w, d, b);
    LagIs(c, a);
    LagIs(d, b);
    MaxIsNatural(Lag(c, a) + |b.log| - |a.log| - PageSize(w, e));
    RoundLowersNeeded(|PendingOf(c, a)|, Lag(c, a), p, PageSize(w, e), |PendingOf(d, b)|, Lag(d, b), |b.log| - |a.log|);
    StillReady(w, s, x.after, id, p, e);
  }

  lemma LagIs(c: Client, a: Authority)
    ensures Lag(c, a) == |a.log| - KnownTo(c).cursor
  {
  }

  lemma MaxIsNatural(n: int)
    ensures 0 <= Max(0, n)
  {
  }

  lemma StillReady(w: World, s: System, t: System, id: string, p: int, e: int)
    requires Ready(w, s, id, p, e) && SystemInv(w, t) && id in t.clients
    requires |PendingOf(t.clients[id], t.authority)| <= |PendingOf(s.clients[id], s.authority)| - Min(p, |PendingOf(s.clients[id], s.authority)|)
    requires |t.authority.log| <= |s.authority.log| + Min(p, |PendingOf(s.clients[id], s.authority)|)
    ensures Ready(w, t, id, p, e)
  {
    hide SystemInv, PendingOf, Lawful, Limited;
  }

  lemma {:induction false} SessionDrains(w: World, s: System, id: string, p: int, e: int, n: nat)
    requires Ready(w, s, id, p, e)
    ensures 0 <= w.limits.maximumEntries && id in s.clients && 1 <= p && 1 <= PageSize(w, e) && 0 <= Lag(s.clients[id], s.authority)
    ensures Drains(Session(w, HomeOf(s.streamId), s.streamId, s.clients[id].record, s.authority, p, e, n),
                   Max(1, Needed(|PendingOf(s.clients[id], s.authority)|, Lag(s.clients[id], s.authority), p, PageSize(w, e))), n)
    decreases n
  {
    hide *;
    ReadyParts(w, s, id, p, e);
    var c, a := s.clients[id], s.authority;
    var before := Needed(|PendingOf(c, a)|, Lag(c, a), p, PageSize(w, e));
    if n == 0 {
      NoRounds(w, s.streamId, c.record, a, p, e, before);
      return;
    }
    var x := OneRound(w, s, id, p, e);
    RoundMeans(w, s, id, p, e, x);
    var d, b := x.after.clients[id], x.after.authority;
    var after := Needed(|PendingOf(d, b)|, Lag(d, b), p, PageSize(w, e));
    SessionRound(w, s, id, p, e, n, x);
    if !HasMoreEntries(x.answer.response) && d.record.replica.outbox == [] {
      LastRound(w, x.after, id, p, e, before, n);
    } else {
      SessionDrains(w, x.after, id, p, e, n - 1);
      LaterDrains(Session(w, HomeOf(s.streamId), s.streamId, d.record, b, p, e, n - 1), before, after, n);
    }
  }

  lemma NoRounds(w: World, streamId: string, record: Record, a: Authority, p: int, e: int, before: nat)
    requires 0 <= w.limits.maximumEntries
    ensures Drains(Session(w, HomeOf(streamId), streamId, record, a, p, e, 0), Max(1, before), 0)
  {
  }

  lemma SessionRound(w: World, s: System, id: string, p: int, e: int, n: nat, x: Exchange)
    requires id in s.clients && 0 <= w.limits.maximumEntries && IsRound(w, s, id, p, e, x) && n > 0
    ensures id in x.after.clients && x.after.streamId == s.streamId
    ensures var next := x.after.clients[id].record;
      Session(w, HomeOf(s.streamId), s.streamId, s.clients[id].record, s.authority, p, e, n) ==
        if !HasMoreEntries(x.answer.response) && next.replica.outbox == [] then Ended(Pass, next, x.after.authority, 1)
        else Later(Session(w, HomeOf(s.streamId), s.streamId, next, x.after.authority, p, e, n - 1), 1)
  {
    hide StorePrepare, StoreMerge, LogServer.Synchronize;
  }

  lemma LaterDrains(rest: Ended, before: nat, after: nat, n: nat)
    requires n > 0 && after <= Max(0, before - 1) && after > 0 && Drains(rest, Max(1, after), n - 1)
    ensures Drains(Later(rest, 1), Max(1, before), n)
  {
  }

  lemma LastRound(w: World, s: System, id: string, p: int, e: int, before: nat, n: nat)
    requires Ready(w, s, id, p, e) && 1 <= PageSize(w, e) && n > 0 && 0 <= Lag(s.clients[id], s.authority)
    requires s.clients[id].record.replica.outbox == []
    requires Needed(|PendingOf(s.clients[id], s.authority)|, Lag(s.clients[id], s.authority), p, PageSize(w, e)) == 0
    ensures Drains(Ended(Pass, s.clients[id].record, s.authority, 1), Max(1, before), n)
  {
    hide *;
    ReadyParts(w, s, id, p, e);
    var c, a := s.clients[id], s.authority;
    ClientOf(w, s, id);
    ClientParts(w, id, c, s.streamId, a);
    NothingNeeded(|PendingOf(c, a)|, Lag(c, a), p, PageSize(w, e));
    SettledState(w, c, a);
    PassDrains(c, a, before, n);
  }

  lemma NothingNeeded(P: nat, D: nat, p: int, e: int)
    requires 1 <= p && 1 <= e && Needed(P, D, p, e) == 0
    ensures P == 0 && D == 0
  {
  }

  lemma SettledState(w: World, c: Client, a: Authority)
    requires Represents(w, c.record.replica, c.issued, KnownTo(c), a) && Coherent(w, a) && Lag(c, a) == 0
    ensures c.record.replica.confirmedSequence == |a.log| && c.record.replica.confirmedState == a.state
  {
    assert a.log[..|a.log|] == a.log;
  }

  lemma PassDrains(c: Client, a: Authority, before: nat, n: nat)
    requires c.record.replica.outbox == [] && n > 0
    requires c.record.replica.confirmedSequence == |a.log| && c.record.replica.confirmedState == a.state
    ensures Drains(Ended(Pass, c.record, a, 1), Max(1, before), n)
  {
  }

  /** With no other writer at work, a session of an honest client with P pending proposals and a lag
      of D entries ends within max(1, ceil(P/p) + ceil((D+P)/e)) rounds, where e is the smaller of the
      two page limits; then the outbox is empty and the confirmed state is the authority's. */
  lemma DrainIsBounded(w: World, s: System, id: string, p: int, e: int, n: nat)
    requires Lawful(w) && Reachable(w, s) && id in s.clients && Limited(w, p, e)
    requires |s.authority.log| + |Pendings(s.clients[id].record.replica.outbox)| <= MAX_SAFE
    ensures 0 <= w.limits.maximumEntries && 1 <= p && 1 <= PageSize(w, e)
    ensures Drains(Session(w, HomeOf(s.streamId), s.streamId, s.clients[id].record, s.authority, p, e, n),
                   RoundsNeeded(s.clients[id].record.replica, s.authority, p, PageSize(w, e)), n)
  {
    hide *;
    ReachableIsSafe(w, s);
    var c, a := s.clients[id], s.authority;
    ClientOf(w, s, id);
    ClientParts(w, id, c, s.streamId, a);
    PendingsAreOpen(c.issued, KnownTo(c), a);
    InTheirTerms(c, a);
    BecomesReady(w, s, id, p, e);
    SessionDrains(w, s, id, p, e, n);
    NeededIs(c.record.replica, a, |PendingOf(c, a)|, Lag(c, a), p, PageSize(w, e));
  }

  /** The bound, from what the client and the authority hold: P pending proposals, a lag of D. */
  function RoundsNeeded(r: Replica, a: Authority, p: int, e: int): nat
    requires 1 <= p && 1 <= e
  {
    var P, D := |Pendings(r.outbox)|, |a.log| - r.confirmedSequence;
    Max(1, Ceil(P, p) + Ceil(D + P, e))
  }

  lemma InTheirTerms(c: Client, a: Authority)
    ensures PendingOf(c, a) == OpenProposals(c.issued, KnownTo(c), a)
    ensures Lag(c, a) == |a.log| - c.record.replica.confirmedSequence
  {
  }

  lemma BecomesReady(w: World, s: System, id: string, p: int, e: int)
    requires Lawful(w) && SystemInv(w, s) && id in s.clients && Limited(w, p, e)
    requires |s.authority.log| + |PendingOf(s.clients[id], s.authority)| <= MAX_SAFE
    ensures Ready(w, s, id, p, e)
  {
    hide SystemInv, PendingOf, Lawful, Limited;
  }

  lemma NeededIs(r: Replica, a: Authority, P: nat, D: nat, p: int, e: int)
    requires 1 <= p && 1 <= e && P == |Pendings(r.outbox)| && D == |a.log| - r.confirmedSequence
    ensures Max(1, Needed(P, D, p, e)) == RoundsNeeded(r, a, p, e)
  {
  }
}
