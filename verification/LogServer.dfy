/** src/server.ts: the authority. Authority is the value the server's fields hold; Synchronize is
    one request handled on that value. InMemoryServer runs it on the mutable object. */
module LogServer {
  import opened Protocol
  import opened Validators

  /** A permanent decision together with the identity it was submitted under. */
  datatype Stored = Stored(
    operationId: string,
    clientId: string,
    clientSequence: int,
    intentHash: string,
    decision: Decision)

  datatype Authority = Authority(
    state: State,
    log: seq<Entry>,
    decisions: map<string, Stored>,
    positions: map<Position, string>)

  datatype Ruling = Ruling(after: Authority, decision: Decision)
  datatype Rulings = Rulings(after: Authority, decisions: seq<Decision>)
  datatype Answer = Answer(after: Authority, response: Response)

  function Initial(w: World): Authority { Authority(w.initial, [], map[], map[]) }

  function SlotOfStored(s: Stored): Position { (s.clientId, s.clientSequence) }

  function SlotOf(p: Proposal): Position { (p.clientId, p.clientSequence) }

  function Commit(p: Proposal, sequence: int, operation: Operation): Entry {
    Entry(sequence, p.operationId, Origin(p.clientId, p.clientSequence, p.intentHash), operation)
  }

  function Store(p: Proposal, d: Decision): Stored {
    Stored(p.operationId, p.clientId, p.clientSequence, p.intentHash, d)
  }

  function Remember(a: Authority, p: Proposal, d: Decision): Authority {
    a.(decisions := a.decisions[p.operationId := Store(p, d)],
       positions := a.positions[SlotOf(p) := p.operationId])
  }

  predicate SameIdentity(s: Stored, p: Proposal) {
    s.operationId == p.operationId && s.clientId == p.clientId && s.clientSequence == p.clientSequence
  }

  /** A known operation gets its old decision; a new one is judged against the current state. */
  function DecideProposal(interpreter: LogInterpreter, a: Authority, p: Proposal): Result<Ruling> {
    if p.operationId in a.decisions then
      var known := a.decisions[p.operationId];
      if !SameIdentity(known, p) then Err(IdentityConflict(p.operationId))
      else if known.intentHash != p.intentHash then Err(IntentConflict(p.operationId))
      else Ok(Ruling(a, known.decision))
    else if SlotOf(p) in a.positions && a.positions[SlotOf(p)] != p.operationId then
      Err(ClientSequenceConflict(p.clientId, p.clientSequence))
    else
      match interpreter.decide(a.state, p)
      case Reject(reason) =>
        var d := Rejected(p.operationId, reason);
        Ok(Ruling(Remember(a, p, d), d))
      case Accept(operation) =>
        var sequence := |a.log| + 1;
        var d := Accepted(p.operationId, sequence, operation);
        var b := a.(state := interpreter.apply(a.state, operation),
                    log := a.log + [Commit(p, sequence, operation)]);
        Ok(Ruling(Remember(b, p, d), d))
  }

  function DecideAll(interpreter: LogInterpreter, a: Authority, ps: seq<Proposal>): Result<Rulings> {
    if ps == [] then Ok(Rulings(a, []))
    else
      var before :- DecideAll(interpreter, a, ps[..|ps| - 1]);
      var ruling :- DecideProposal(interpreter, before.after, ps[|ps| - 1]);
      Ok(Rulings(ruling.after, before.decisions + [ruling.decision]))
  }

  lemma NextRuling(interpreter: LogInterpreter, a: Authority, ps: seq<Proposal>, i: nat)
    requires i < |ps| && DecideAll(interpreter, a, ps[..i]).Ok?
    ensures var before := DecideAll(interpreter, a, ps[..i]).value;
      DecideAll(interpreter, a, ps[..i + 1]) ==
        match DecideProposal(interpreter, before.after, ps[i])
        case Ok(ruling) => Ok(Rulings(ruling.after, before.decisions + [ruling.decision]))
        case Err(error) => Err(error)
  {
    assert ps[..i + 1][..i] == ps[..i];
  }

  lemma {:induction false} DecidePrefixFails(interpreter: LogInterpreter, a: Authority, ps: seq<Proposal>, i: nat)
    requires i <= |ps| && DecideAll(interpreter, a, ps[..i]).Err?
    ensures DecideAll(interpreter, a, ps) == Err(DecideAll(interpreter, a, ps[..i]).error)
  {
    if i < |ps| {
      assert ps[..|ps| - 1][..i] == ps[..i];
      DecidePrefixFails(interpreter, a, ps[..|ps| - 1], i);
    } else {
      assert ps[..i] == ps;
    }
  }

  /** At most maximum entries of the log after base. */
  function Page(log: seq<Entry>, base: int, maximum: int): seq<Entry>
    requires 0 <= base <= |log| && 0 <= maximum
  {
    log[base..Min(base + maximum, |log|)]
  }

  function Respond(log: seq<Entry>, request: Request, limits: Limits, decisions: seq<Decision>): Response
    requires 0 <= request.baseSequence <= |log|
    requires 0 <= request.maximumEntries && 0 <= limits.maximumEntries
  {
    var entries := Page(log, request.baseSequence, Min(request.maximumEntries, limits.maximumEntries));
    Response(request.baseSequence, request.baseSequence + |entries|, |log|, entries, decisions)
  }

  lemma DecidedLogGrows(interpreter: LogInterpreter, a: Authority, ps: seq<Proposal>)
    requires DecideAll(interpreter, a, ps).Ok?
    ensures |a.log| <= |DecideAll(interpreter, a, ps).value.after.log| <= |a.log| + |ps|
  {
  }

  function Synchronize(w: World, a: Authority, request: Request): Result<Answer>
    requires 0 <= w.limits.maximumEntries
  {
    var valid := RequestCheck(request, w.limits);
    if valid.Fail? then Err(valid.error)
    else
      if request.baseSequence > |a.log| then Err(UnknownBase(request.baseSequence, |a.log|))
      else
        var rulings :- DecideAll(w.log, a, request.proposals);
        DecidedLogGrows(w.log, a, request.proposals);
        var response := Respond(rulings.after.log, request, w.limits, rulings.decisions);
        :- ResponseCheck(response, Some(w.limits));
        Ok(Answer(rulings.after, response))
  }

  /** The ways a request can end. */
  lemma SynchronizeCases(w: World, a: Authority, request: Request)
    requires 0 <= w.limits.maximumEntries
    ensures RequestCheck(request, w.limits).Fail? ==>
      Synchronize(w, a, request) == Err(RequestCheck(request, w.limits).error)
    ensures RequestCheck(request, w.limits).Pass? && request.baseSequence > |a.log| ==>
      Synchronize(w, a, request) == Err(UnknownBase(request.baseSequence, |a.log|))
    ensures RequestCheck(request, w.limits).Pass? && request.baseSequence <= |a.log| ==>
      match DecideAll(w.log, a, request.proposals)
      case Err(error) => Synchronize(w, a, request) == Err(error)
      case Ok(rulings) =>
        && 0 <= request.baseSequence <= |rulings.after.log| && 0 <= request.maximumEntries
        && var response := Respond(rulings.after.log, request, w.limits, rulings.decisions);
        match ResponseCheck(response, Some(w.limits))
        case Fail(error) => Synchronize(w, a, request) == Err(error)
        case Pass => Synchronize(w, a, request) == Ok(Answer(rulings.after, response))
  {
    RequestCheckIsValidRequest(request, w.limits);
    hide RequestCheck, ResponseCheck, DecideAll, ValidBatch;
    if DecideAll(w.log, a, request.proposals).Ok? {
      DecidedLogGrows(w.log, a, request.proposals);
    }
  }

  /* ---- The invariant of the authority ---- */

  /** Stored under id is an accepted decision for exactly this entry, submitted under its identity. */
  predicate Records(a: Authority, e: Entry) {
    && e.operationId in a.decisions
    && a.decisions[e.operationId] ==
       Stored(e.operationId, e.origin.clientId, e.origin.clientSequence, e.origin.intentHash,
              Accepted(e.operationId, e.sequence, e.operation))
  }

  ghost predicate LogCoherent(a: Authority) {
    forall i | 0 <= i < |a.log| :: a.log[i].sequence == i + 1 && Records(a, a.log[i])
  }

  predicate StoredCoherent(a: Authority, id: string)
    requires id in a.decisions
  {
    var s := a.decisions[id];
    && s.operationId == id == s.decision.operationId
    && ValidIdentity(s.operationId, s.clientId, s.clientSequence, s.intentHash)
    && (s.clientId, s.clientSequence) in a.positions
    && a.positions[(s.clientId, s.clientSequence)] == id
    && (s.decision.Accepted? ==>
          1 <= s.decision.sequence <= |a.log| && a.log[s.decision.sequence - 1].operationId == id)
  }

  ghost predicate DecisionsCoherent(a: Authority) {
    forall id | id in a.decisions :: StoredCoherent(a, id)
  }

  ghost predicate PositionsCoherent(a: Authority) {
    forall q | q in a.positions ::
      && a.positions[q] in a.decisions
      && q == (a.decisions[a.positions[q]].clientId, a.decisions[a.positions[q]].clientSequence)
  }

  /** Log entries and accepted decisions are in bijection, the position index is functional and
      exact, and the state is the fold of the log. */
  ghost predicate Coherent(w: World, a: Authority) {
    && LogCoherent(a)
    && DecisionsCoherent(a)
    && PositionsCoherent(a)
    && a.state == Replay(w.log.apply, w.initial, a.log)
  }

  ghost predicate Sound(w: World, a: Authority) {
    Coherent(w, a) && |a.log| <= MAX_SAFE
  }

  /** Nothing that a had is gone or different in b. */
  ghost predicate Extends(a: Authority, b: Authority) {
    && |a.log| <= |b.log|
    && a.log == b.log[..|a.log|]
    && forall id | id in a.decisions :: id in b.decisions && b.decisions[id] == a.decisions[id]
  }

  /** The proposal has a permanent decision, under its own identity. */
  predicate Remembers(a: Authority, p: Proposal) {
    && p.operationId in a.decisions
    && SameIdentity(a.decisions[p.operationId], p)
    && a.decisions[p.operationId].intentHash == p.intentHash
  }

  lemma ExtendsItself(a: Authority)
    ensures Extends(a, a)
  {
  }

  lemma ExtendsTransitive(a: Authority, b: Authority, c: Authority)
    requires Extends(a, b) && Extends(b, c)
    ensures Extends(a, c)
  {
    assert c.log[..|b.log|][..|a.log|] == c.log[..|a.log|];
  }

  lemma CoherentLogIsValid(w: World, a: Authority)
    requires Sound(w, a)
    ensures ValidLog(a.log)
  {
    forall i | 0 <= i < |a.log| ensures ValidEntry(a.log[i]) && a.log[i].sequence == i + 1 {
      assert Records(a, a.log[i]) && StoredCoherent(a, a.log[i].operationId);
    }
    forall i, j | 0 <= i < j < |a.log|
      ensures a.log[i].operationId != a.log[j].operationId && PositionOf(a.log[i]) != PositionOf(a.log[j])
    {
      assert Records(a, a.log[i]) && StoredCoherent(a, a.log[i].operationId);
      assert Records(a, a.log[j]) && StoredCoherent(a, a.log[j].operationId);
    }
  }

  ghost predicate Numbered(log: seq<Entry>) {
    forall i | 0 <= i < |log| :: log[i].sequence == i + 1
  }

  lemma NumberedPrefix(xs: seq<Entry>, ys: seq<Entry>)
    requires Numbered(ys) && xs <= ys
    ensures Numbered(xs)
    ensures forall e | ys == xs + [e] :: e.sequence == |xs| + 1
  {
    forall e | ys == xs + [e] ensures e.sequence == |xs| + 1 {
      assert ys[|xs|] == e;
    }
  }

  lemma CoherentParts(w: World, a: Authority)
    requires Coherent(w, a)
    ensures LogCoherent(a) && DecisionsCoherent(a) && PositionsCoherent(a)
    ensures a.state == Replay(w.log.apply, w.initial, a.log)
    ensures Numbered(a.log)
  {
  }

  lemma KnownDecision(a: Authority, id: string)
    requires DecisionsCoherent(a) && id in a.decisions
    ensures a.decisions[id].operationId == id == a.decisions[id].decision.operationId
  {
    assert StoredCoherent(a, id);
  }

  lemma RemembersStays(a: Authority, b: Authority, p: Proposal)
    requires Remembers(a, p) && Extends(a, b)
    ensures Remembers(b, p) && b.decisions[p.operationId] == a.decisions[p.operationId]
  {
  }

  lemma DecideProposalKeepsCoherence(w: World, a: Authority, p: Proposal)
    requires Coherent(w, a)
    requires ValidIdentity(p.operationId, p.clientId, p.clientSequence, p.intentHash)
    requires DecideProposal(w.log, a, p).Ok?
    ensures var r := DecideProposal(w.log, a, p).value;
      && Coherent(w, r.after)
      && Extends(a, r.after)
      && Remembers(r.after, p)
      && r.after.decisions[p.operationId].decision == r.decision
      && r.after.decisions.Keys == a.decisions.Keys + {p.operationId}
  {
    hide LogCoherent, StoredCoherent, DecisionsCoherent, PositionsCoherent;
    if p.operationId in a.decisions {
      KnownDecision(a, p.operationId);
    } else {
      NewDecisionKeepsIndexes(w, a, p);
      NewDecisionKeepsLog(w, a, p);
    }
  }

  lemma NewDecisionKeepsLog(w: World, a: Authority, p: Proposal)
    requires Coherent(w, a) && p.operationId !in a.decisions
    requires DecideProposal(w.log, a, p).Ok?
    ensures var b := DecideProposal(w.log, a, p).value.after;
      LogCoherent(b) && Extends(a, b) && b.state == Replay(w.log.apply, w.initial, b.log)
  {
    var b := DecideProposal(w.log, a, p).value.after;
    NewRuling(w, a, p);
    hide *;
    CoherentLog(w, a);
    OneMoreDecision(a, b, p);
    if |b.log| > |a.log| {
      ReplayOneMore(w, a.log, b.log[|a.log|]);
    }
  }

  /** A new ruling adds one decision, and, when it accepts, one entry and its effect. */
  lemma NewRuling(w: World, a: Authority, p: Proposal)
    requires p.operationId !in a.decisions && DecideProposal(w.log, a, p).Ok?
    ensures var b := DecideProposal(w.log, a, p).value.after;
      && p.operationId in b.decisions
      && b.decisions == a.decisions[p.operationId := b.decisions[p.operationId]]
      && |a.log| <= |b.log| <= |a.log| + 1
      && (|b.log| == |a.log| ==> b.log == a.log && b.state == a.state)
      && (|b.log| > |a.log| ==>
            && b.log == a.log + [b.log[|a.log|]]
            && b.log[|a.log|].sequence == |a.log| + 1 && Records(b, b.log[|a.log|])
            && b.state == w.log.apply(a.state, b.log[|a.log|].operation))
  {
  }

  lemma CoherentLog(w: World, a: Authority)
    requires Coherent(w, a)
    ensures LogCoherent(a) && a.state == Replay(w.log.apply, w.initial, a.log)
  {
    hide LogCoherent, Replay;
  }

  lemma OneMoreDecision(a: Authority, b: Authority, p: Proposal)
    requires LogCoherent(a) && p.operationId !in a.decisions && p.operationId in b.decisions
    requires b.decisions == a.decisions[p.operationId := b.decisions[p.operationId]]
    requires |a.log| <= |b.log| <= |a.log| + 1 && (|b.log| == |a.log| ==> b.log == a.log)
    requires |b.log| > |a.log| ==>
      b.log == a.log + [b.log[|a.log|]] && b.log[|a.log|].sequence == |a.log| + 1 && Records(b, b.log[|a.log|])
    ensures LogCoherent(b) && Extends(a, b)
  {
    forall i | 0 <= i < |a.log| ensures b.log[i].sequence == i + 1 && Records(b, b.log[i]) {
      assert b.log[i] == a.log[i] && Records(a, a.log[i]);
    }
    hide Records;
  }

  lemma ReplayOneMore(w: World, log: seq<Entry>, e: Entry)
    ensures Replay(w.log.apply, w.initial, log + [e])
         == w.log.apply(Replay(w.log.apply, w.initial, log), e.operation)
  {
    assert (log + [e])[..|log|] == log;
  }

  lemma NewDecisionKeepsIndexes(w: World, a: Authority, p: Proposal)
    requires Coherent(w, a) && p.operationId !in a.decisions
    requires ValidIdentity(p.operationId, p.clientId, p.clientSequence, p.intentHash)
    requires DecideProposal(w.log, a, p).Ok?
    ensures DecisionsCoherent(DecideProposal(w.log, a, p).value.after)
    ensures PositionsCoherent(DecideProposal(w.log, a, p).value.after)
  {
    var b := DecideProposal(w.log, a, p).value.after;
    assert SlotOf(p) !in a.positions;
    forall id | id in b.decisions ensures StoredCoherent(b, id) {
      if id != p.operationId {
        assert StoredCoherent(a, id) && b.decisions[id] == a.decisions[id];
      }
    }
    forall q | q in b.positions
      ensures b.positions[q] in b.decisions
      ensures q == (b.decisions[b.positions[q]].clientId, b.decisions[b.positions[q]].clientSequence)
    {
      if q != SlotOf(p) {
        assert q in a.positions && a.positions[q] in a.decisions;
      }
    }
  }

  lemma AddProposalId(ps: seq<Proposal>, p: Proposal)
    ensures ProposalIds(ps + [p]) == ProposalIds(ps) + {p.operationId}
  {
  }

  /** ds are the permanent decisions about ps, in order. */
  ghost predicate Answers(a: Authority, ps: seq<Proposal>, ds: seq<Decision>) {
    && |ds| == |ps|
    && forall i | 0 <= i < |ps| :: Remembers(a, ps[i]) && a.decisions[ps[i].operationId].decision == ds[i]
  }

  lemma AnswersExtend(a: Authority, b: Authority, ps: seq<Proposal>, ds: seq<Decision>, p: Proposal)
    requires Answers(a, ps, ds) && Extends(a, b) && Remembers(b, p)
    ensures Answers(b, ps + [p], ds + [b.decisions[p.operationId].decision])
  {
    forall i | 0 <= i < |ps| ensures Remembers(b, ps[i]) && b.decisions[ps[i].operationId].decision == ds[i] {
      RemembersStays(a, b, ps[i]);
    }
  }

  /** A batch keeps the invariant and everything decided before; it decides exactly its own
      proposals, and its answers are the permanent decisions. */
  lemma {:induction false} DecideAllKeepsCoherence(w: World, a: Authority, ps: seq<Proposal>)
    requires Coherent(w, a)
    requires forall p | p in ps :: ValidIdentity(p.operationId, p.clientId, p.clientSequence, p.intentHash)
    requires DecideAll(w.log, a, ps).Ok?
    ensures var r := DecideAll(w.log, a, ps).value;
      && Coherent(w, r.after)
      && Extends(a, r.after)
      && r.after.decisions.Keys == a.decisions.Keys + ProposalIds(ps)
      && Answers(r.after, ps, r.decisions)
  {
    hide *;
    if ps == [] {
      DecideNone(w, a);
      return;
    }
    var init, p := ps[..|ps| - 1], ps[|ps| - 1];
    var r, d := DecideLast(w.log, a, ps);
    assert ps == init + [p];
    AddProposalId(init, p);
    DecideAllKeepsCoherence(w, a, init);
    DecideProposalKeepsCoherence(w, r.after, p);
    ExtendsTransitive(a, r.after, d.after);
    AnswersExtend(r.after, d.after, init, r.decisions, p);
  }

  lemma DecideNone(w: World, a: Authority)
    ensures DecideAll(w.log, a, []) == Ok(Rulings(a, []))
    ensures Extends(a, a) && Answers(a, [], []) && ProposalIds([]) == {}
  {
  }

  lemma DecideLast(interpreter: LogInterpreter, a: Authority, ps: seq<Proposal>) returns (r: Rulings, d: Ruling)
    requires ps != [] && DecideAll(interpreter, a, ps).Ok?
    ensures DecideAll(interpreter, a, ps[..|ps| - 1]) == Ok(r)
    ensures DecideProposal(interpreter, r.after, ps[|ps| - 1]) == Ok(d)
    ensures DecideAll(interpreter, a, ps) == Ok(Rulings(d.after, r.decisions + [d.decision]))
  {
    r := DecideAll(interpreter, a, ps[..|ps| - 1]).value;
    d := DecideProposal(interpreter, r.after, ps[|ps| - 1]).value;
  }

  /* ---- Answers ---- */

  /** What a response may claim about the authority: its page is the canonical slice after its
      base, its head has been reached, and its decisions are the permanent ones. */
  ghost predicate Honest(response: Response, a: Authority) {
    && 0 <= response.requestedBase <= response.through <= response.head <= |a.log|
    && response.entries == a.log[response.requestedBase..response.through]
    && (response.requestedBase < response.head ==> response.requestedBase < response.through)
    && DistinctDecisions(response.decisions)
    && (forall i | 0 <= i < |response.decisions| :: HonestDecision(response.decisions[i], response.head, a))
  }

  ghost predicate HonestDecision(d: Decision, head: int, a: Authority) {
    && d.operationId in a.decisions
    && a.decisions[d.operationId].decision == d
    && (d.Accepted? ==> d.sequence <= head)
  }

  lemma HonestStaysHonest(response: Response, a: Authority, b: Authority)
    requires Honest(response, a) && Extends(a, b)
    ensures Honest(response, b)
  {
    assert b.log[response.requestedBase..response.through] == b.log[..|a.log|][response.requestedBase..response.through];
    forall i | 0 <= i < |response.decisions| ensures HonestDecision(response.decisions[i], response.head, b) {
      assert HonestDecision(response.decisions[i], response.head, a);
    }
  }

  /** Every check that the code makes of a response passes on an honest one. */
  lemma HonestIsValid(w: World, response: Response, a: Authority)
    requires Sound(w, a) && Honest(response, a)
    ensures ValidResponse(response)
  {
    CoherentLogIsValid(w, a);
    var es := response.entries;
    assert forall i | 0 <= i < |es| :: es[i] == a.log[response.requestedBase + i];
    forall i | 0 <= i < |response.decisions| ensures AgreesWithPage(response.decisions[i], response) {
      var d := response.decisions[i];
      assert HonestDecision(d, response.head, a) && StoredCoherent(a, d.operationId);
      forall e | e in es && e.operationId == d.operationId ensures d.Accepted? && d.sequence == e.sequence {
        assert Records(a, e);
      }
    }
  }

  lemma AnswersAreHonestDecisions(a: Authority, ps: seq<Proposal>, ds: seq<Decision>)
    requires DecisionsCoherent(a) && Answers(a, ps, ds)
    requires forall i, j | 0 <= i < j < |ps| :: ps[i].operationId != ps[j].operationId
    ensures DistinctDecisions(ds) && forall i | 0 <= i < |ds| :: HonestDecision(ds[i], |a.log|, a)
  {
    forall i | 0 <= i < |ds| ensures HonestDecision(ds[i], |a.log|, a) && ds[i].operationId == ps[i].operationId {
      assert Remembers(a, ps[i]) && StoredCoherent(a, ps[i].operationId);
    }
  }

  lemma DecidedAnswerIsHonest(w: World, a: Authority, request: Request)
    requires Coherent(w, a) && 1 <= w.limits.maximumEntries && 1 <= request.maximumEntries
    requires ValidBatch(request.proposals) && 0 <= request.baseSequence <= |a.log|
    requires DecideAll(w.log, a, request.proposals).Ok?
    ensures var rulings := DecideAll(w.log, a, request.proposals).value;
      && |a.log| <= |rulings.after.log|
      && Honest(Respond(rulings.after.log, request, w.limits, rulings.decisions), rulings.after)
  {
    hide DecideAll, LogCoherent, DecisionsCoherent, PositionsCoherent, Answers, HonestDecision, ValidIdentity;
    DecideAllKeepsCoherence(w, a, request.proposals);
    var rulings := DecideAll(w.log, a, request.proposals).value;
    AnswersAreHonestDecisions(rulings.after, request.proposals, rulings.decisions);
  }

  /** A request that is decided is answered honestly. The check of that answer fails only when the
      log would outgrow the safe integers. */
  lemma SelfCheckFailsOnlyOnOverflow(w: World, a: Authority, request: Request)
    requires Sound(w, a) && 1 <= w.limits.maximumEntries
    requires ValidRequest(request, w.limits) && request.baseSequence <= |a.log|
    requires DecideAll(w.log, a, request.proposals).Ok?
    ensures var rulings := DecideAll(w.log, a, request.proposals).value;
      Synchronize(w, a, request).Ok? <==> |rulings.after.log| <= MAX_SAFE
  {
    hide *;
    ValidRequestParts(w, request);
    RequestCheckIsValidRequest(request, w.limits);
    SynchronizeCases(w, a, request);
    SoundMeans(w, a);
    DecidedAnswerIsHonest(w, a, request);
    DecideAllKeepsCoherence(w, a, request.proposals);
    var rulings := DecideAll(w.log, a, request.proposals).value;
    SoundMeans(w, rulings.after);
    var response := Respond(rulings.after.log, request, w.limits, rulings.decisions);
    ResponseCheckIsValidResponse(response, Some(w.limits));
    AnswerFits(rulings.after, request, w.limits, rulings.decisions);
    if |rulings.after.log| <= MAX_SAFE {
      HonestIsValid(w, response, rulings.after);
    }
  }

  lemma ValidRequestParts(w: World, request: Request)
    requires ValidRequest(request, w.limits)
    ensures ValidBatch(request.proposals) && |request.proposals| <= w.limits.maximumProposals
    ensures 0 <= request.baseSequence && 1 <= request.maximumEntries
    ensures forall p | p in request.proposals :: ValidIdentity(p.operationId, p.clientId, p.clientSequence, p.intentHash)
  {
  }

  lemma SoundMeans(w: World, a: Authority)
    ensures Sound(w, a) <==> Coherent(w, a) && |a.log| <= MAX_SAFE
  {
    hide Coherent;
  }

  lemma AnswerFits(a: Authority, request: Request, limits: Limits, ds: seq<Decision>)
    requires 0 <= request.baseSequence <= |a.log| && 1 <= request.maximumEntries && 1 <= limits.maximumEntries
    requires Answers(a, request.proposals, ds) && |request.proposals| <= limits.maximumProposals
    ensures var response := Respond(a.log, request, limits, ds);
      && WithinLimits(response, Some(limits))
      && (ValidResponse(response) ==> |a.log| <= MAX_SAFE)
  {
  }

  lemma SynchronizeKeepsSound(w: World, a: Authority, request: Request)
    requires Sound(w, a) && 1 <= w.limits.maximumEntries
    requires Synchronize(w, a, request).Ok?
    ensures var answer := Synchronize(w, a, request).value;
      && Sound(w, answer.after)
      && Extends(a, answer.after)
      && Honest(answer.response, answer.after)
      && answer.after.decisions.Keys == a.decisions.Keys + ProposalIds(request.proposals)
      && Answers(answer.after, request.proposals, answer.response.decisions)
  {
    hide LogCoherent, DecisionsCoherent, PositionsCoherent, ValidIdentity, Answers, ResponseCheck;
    RequestCheckIsValidRequest(request, w.limits);
    DecideAllKeepsCoherence(w, a, request.proposals);
    DecidedAnswerIsHonest(w, a, request);
    ResponseCheckIsValidResponse(Synchronize(w, a, request).value.response, Some(w.limits));
  }

  /* ---- Retries ---- */

  lemma {:induction false} DecidedBatchIsStable(interpreter: LogInterpreter, a: Authority, ps: seq<Proposal>, ds: seq<Decision>)
    requires Answers(a, ps, ds)
    ensures DecideAll(interpreter, a, ps) == Ok(Rulings(a, ds))
  {
    if ps != [] {
      assert ds == ds[..|ds| - 1] + [ds[|ds| - 1]];
      DecidedBatchIsStable(interpreter, a, ps[..|ps| - 1], ds[..|ds| - 1]);
      assert Remembers(a, ps[|ps| - 1]);
    }
  }

  /** Repeating a request, at once, gets the same answer and changes nothing. */
  lemma RetryIsIdempotent(w: World, a: Authority, request: Request)
    requires Sound(w, a) && 1 <= w.limits.maximumEntries
    requires Synchronize(w, a, request).Ok?
    ensures var answer := Synchronize(w, a, request).value;
      Synchronize(w, answer.after, request) == Ok(answer)
  {
    SynchronizeKeepsSound(w, a, request);
    var answer := Synchronize(w, a, request).value;
    hide Sound, Honest, Extends, ResponseCheck, RequestCheck, Answers;
    DecidedLogGrows(w.log, a, request.proposals);
    DecidedBatchIsStable(w.log, answer.after, request.proposals, answer.response.decisions);
  }

  /** Repeated after any later requests, at any base and page size, it is answered, gets the same
      decisions and changes nothing. */
  lemma DecisionsArePermanent(w: World, a: Authority, request: Request, later: Authority, again: Request)
    requires Sound(w, a) && 1 <= w.limits.maximumEntries
    requires Synchronize(w, a, request).Ok?
    requires Sound(w, later) && Extends(Synchronize(w, a, request).value.after, later)
    requires again.proposals == request.proposals
    requires IsLogSequence(again.maximumEntries, false) && 0 <= again.baseSequence <= |later.log|
    ensures Synchronize(w, later, again).Ok?
    ensures Synchronize(w, later, again).value.response.decisions == Synchronize(w, a, request).value.response.decisions
    ensures Synchronize(w, later, again).value.after == later
  {
    hide *;
    SynchronizeKeepsSound(w, a, request);
    AnsweredWasValid(w, a, request);
    SoundMeans(w, later);
    SameBatchIsValid(w, request, again, later);
    var answer := Synchronize(w, a, request).value;
    AnswersStay(answer.after, later, request.proposals, answer.response.decisions);
    DecidedBatchIsStable(w.log, later, request.proposals, answer.response.decisions);
    SelfCheckFailsOnlyOnOverflow(w, later, again);
    DecidedMeans(w, later, again, later, answer.response.decisions);
  }

  lemma AnsweredWasValid(w: World, a: Authority, request: Request)
    requires 0 <= w.limits.maximumEntries && Synchronize(w, a, request).Ok?
    ensures ValidRequest(request, w.limits) && request.baseSequence <= |a.log|
  {
    hide RequestCheck, ResponseCheck, DecideAll, ValidRequest;
    RequestCheckIsValidRequest(request, w.limits);
  }

  lemma SameBatchIsValid(w: World, request: Request, again: Request, a: Authority)
    requires ValidRequest(request, w.limits) && again.proposals == request.proposals
    requires IsLogSequence(again.maximumEntries, false) && 0 <= again.baseSequence <= |a.log| <= MAX_SAFE
    ensures ValidRequest(again, w.limits)
  {
    hide ValidBatch;
  }

  /* ---- Reading a decision ---- */

  function DecisionOf(a: Authority, operationId: string): Option<Decision> {
    if operationId in a.decisions then Some(a.decisions[operationId].decision) else None
  }

  /** Every proposal of a request that was answered can be read back, at any later time, as it was
      answered; and the request changed what is read of no other operation. */
  lemma AnsweredIsReadBack(w: World, a: Authority, request: Request, later: Authority)
    requires Sound(w, a) && 1 <= w.limits.maximumEntries && Synchronize(w, a, request).Ok?
    requires Extends(Synchronize(w, a, request).value.after, later)
    ensures var answer := Synchronize(w, a, request).value;
      && |answer.response.decisions| == |request.proposals|
      && (forall i | 0 <= i < |request.proposals| ::
            DecisionOf(later, request.proposals[i].operationId) == Some(answer.response.decisions[i]))
      && (forall id | id !in ProposalIds(request.proposals) :: DecisionOf(answer.after, id) == DecisionOf(a, id))
  {
    hide *;
    SynchronizeKeepsSound(w, a, request);
    var answer := Synchronize(w, a, request).value;
    AnswersStay(answer.after, later, request.proposals, answer.response.decisions);
    AnswersAreRead(later, request.proposals, answer.response.decisions);
    OthersReadAlike(a, answer.after, ProposalIds(request.proposals));
  }

  lemma AnswersAreRead(a: Authority, ps: seq<Proposal>, ds: seq<Decision>)
    requires Answers(a, ps, ds)
    ensures |ds| == |ps| && forall i | 0 <= i < |ps| :: DecisionOf(a, ps[i].operationId) == Some(ds[i])
  {
    forall i | 0 <= i < |ps| ensures DecisionOf(a, ps[i].operationId) == Some(ds[i]) {
      assert Remembers(a, ps[i]);
    }
  }

  lemma OthersReadAlike(a: Authority, b: Authority, ids: set<string>)
    requires Extends(a, b) && b.decisions.Keys == a.decisions.Keys + ids
    ensures forall id | id !in ids :: DecisionOf(b, id) == DecisionOf(a, id)
  {
  }

  lemma AnswersStay(a: Authority, c: Authority, ps: seq<Proposal>, ds: seq<Decision>)
    requires Answers(a, ps, ds) && Extends(a, c)
    ensures Answers(c, ps, ds)
  {
    forall i | 0 <= i < |ps| ensures Remembers(c, ps[i]) && c.decisions[ps[i].operationId].decision == ds[i] {
      RemembersStays(a, c, ps[i]);
    }
  }

  lemma DecidedMeans(w: World, a: Authority, request: Request, b: Authority, ds: seq<Decision>)
    requires 0 <= w.limits.maximumEntries && Synchronize(w, a, request).Ok?
    requires DecideAll(w.log, a, request.proposals) == Ok(Rulings(b, ds))
    ensures Synchronize(w, a, request).value.after == b && Synchronize(w, a, request).value.response.decisions == ds
  {
    hide DecideAll, ResponseCheck, RequestCheck;
  }

  /* ---- Runs of the authority alone ---- */

  /** Requests handled one after another; one that throws changes nothing. */
  function Serve(w: World, a: Authority, requests: seq<Request>): Authority
    requires 0 <= w.limits.maximumEntries
  {
    if requests == [] then a
    else
      var before := Serve(w, a, requests[..|requests| - 1]);
      match Synchronize(w, before, requests[|requests| - 1])
      case Ok(answer) => answer.after
      case Err(_) => before
  }

  lemma InitialIsSound(w: World)
    ensures Sound(w, Initial(w))
  {
  }

  lemma {:induction false} EveryRunIsSound(w: World, a: Authority, requests: seq<Request>)
    requires Sound(w, a) && 1 <= w.limits.maximumEntries
    ensures Sound(w, Serve(w, a, requests)) && Extends(a, Serve(w, a, requests))
  {
    if requests != [] {
      hide Sound, Synchronize;
      var before := Serve(w, a, requests[..|requests| - 1]);
      EveryRunIsSound(w, a, requests[..|requests| - 1]);
      if Synchronize(w, before, requests[|requests| - 1]).Ok? {
        SynchronizeKeepsSound(w, before, requests[|requests| - 1]);
        ExtendsTransitive(a, before, Serve(w, a, requests));
      }
    }
  }
}
