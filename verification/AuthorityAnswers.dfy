/** src/server.ts:108-216: which requests the authority answers, which errors it raises otherwise, and
    what an answer holds; said of the request and the authority, and not of the order of the code. */
module AuthorityAnswers {
  import opened Protocol
  import opened Validators
  import opened LogServer

  /** Decided before under the very same identity, or new at a position that nothing holds. */
  ghost predicate Admissible(a: Authority, p: Proposal) {
    if p.operationId in a.decisions then
      var s := a.decisions[p.operationId];
      s.clientId == p.clientId && s.clientSequence == p.clientSequence && s.intentHash == p.intentHash
    else IsFree(a, p.clientId, p.clientSequence)
  }

  ghost predicate IsFree(a: Authority, clientId: string, clientSequence: int) {
    forall id | id in a.decisions :: a.decisions[id].clientId != clientId || a.decisions[id].clientSequence != clientSequence
  }

  /** What is wrong with a proposal that is not admissible. */
  ghost predicate IsRefusal(a: Authority, p: Proposal, error: Error) {
    if p.operationId !in a.decisions then error == ClientSequenceConflict(p.clientId, p.clientSequence)
    else
      var s := a.decisions[p.operationId];
      if s.clientId != p.clientId || s.clientSequence != p.clientSequence then error == IdentityConflict(p.operationId)
      else error == IntentConflict(p.operationId)
  }

  lemma OneProposal(w: World, a: Authority, p: Proposal)
    requires Coherent(w, a)
    ensures DecideProposal(w.log, a, p).Ok? <==> Admissible(a, p)
    ensures DecideProposal(w.log, a, p).Err? ==> IsRefusal(a, p, DecideProposal(w.log, a, p).error)
  {
    hide LogCoherent;
    if p.operationId in a.decisions {
      KnownDecision(a, p.operationId);
    } else {
      FreeIsUnheld(w, a, p);
    }
  }

  lemma FreeIsUnheld(w: World, a: Authority, p: Proposal)
    requires Coherent(w, a) && p.operationId !in a.decisions
    ensures IsFree(a, p.clientId, p.clientSequence) <==> SlotOf(p) !in a.positions
    ensures SlotOf(p) in a.positions ==> a.positions[SlotOf(p)] != p.operationId
  {
    hide LogCoherent;
    if SlotOf(p) in a.positions {
      var id := a.positions[SlotOf(p)];
      assert id in a.decisions;
    } else {
      forall id | id in a.decisions
        ensures a.decisions[id].clientId != p.clientId || a.decisions[id].clientSequence != p.clientSequence
      {
        assert StoredCoherent(a, id);
      }
    }
  }

  ghost predicate AllAdmissible(a: Authority, ps: seq<Proposal>) {
    forall i | 0 <= i < |ps| :: Admissible(a, ps[i])
  }

  /** The first proposal of the batch that is not admissible is what it fails on. */
  ghost predicate FailsFirst(a: Authority, ps: seq<Proposal>, i: nat, error: Error) {
    i < |ps| && AllAdmissible(a, ps[..i]) && !Admissible(a, ps[i]) && IsRefusal(a, ps[i], error)
  }

  /** No proposal of a valid batch stands in the way of a later one. */
  lemma EarlierDoNotMatter(a: Authority, b: Authority, init: seq<Proposal>, ds: seq<Decision>, p: Proposal, error: Error)
    requires ValidBatch(init + [p]) && Extends(a, b) && Answers(b, init, ds)
    requires b.decisions.Keys == a.decisions.Keys + ProposalIds(init)
    ensures Admissible(b, p) <==> Admissible(a, p)
    ensures IsRefusal(b, p, error) <==> IsRefusal(a, p, error)
  {
    var ps := init + [p];
    assert ps[|init|] == p && forall i | 0 <= i < |init| :: ps[i] == init[i];
    forall q | q in init ensures q.operationId != p.operationId && SlotOf(q) != SlotOf(p) {
      var i :| 0 <= i < |init| && init[i] == q;
    }
    hide ValidBatch;
    forall id | id in b.decisions && id !in a.decisions
      ensures b.decisions[id].clientId != p.clientId || b.decisions[id].clientSequence != p.clientSequence
    {
      var q :| q in init && q.operationId == id;
      var i :| 0 <= i < |init| && init[i] == q;
      assert Remembers(b, init[i]);
    }
  }

  lemma {:induction false} BatchIsDecidedExactly(w: World, a: Authority, ps: seq<Proposal>)
    requires Coherent(w, a) && ValidBatch(ps)
    ensures DecideAll(w.log, a, ps).Ok? <==> AllAdmissible(a, ps)
    ensures DecideAll(w.log, a, ps).Err? ==> exists i :: FailsFirst(a, ps, i, DecideAll(w.log, a, ps).error)
  {
    if ps == [] {
      return;
    }
    var init, p := ps[..|ps| - 1], ps[|ps| - 1];
    assert ps == init + [p];
    ExtendBatch(init, p);
    hide *;
    BatchIsDecidedExactly(w, a, init);
    OneMoreAdmissible(a, init, p);
    DecidedOnTop(w.log, a, init, p);
    if DecideAll(w.log, a, init).Ok? {
      var rulings := DecideAll(w.log, a, init).value;
      IdentitiesOf(init);
      DecideAllKeepsCoherence(w, a, init);
      OneProposal(w, rulings.after, p);
      forall error ensures Admissible(rulings.after, p) == Admissible(a, p)
                        && IsRefusal(rulings.after, p, error) == IsRefusal(a, p, error) {
        EarlierDoNotMatter(a, rulings.after, init, rulings.decisions, p, error);
      }
      FailsLast(a, init, p, DecideAll(w.log, a, ps));
    } else {
      var error := DecideAll(w.log, a, init).error;
      var i :| FailsFirst(a, init, i, error);
      FailsEarlier(a, init, p, i, error);
    }
  }

  lemma IdentitiesOf(ps: seq<Proposal>)
    requires ValidBatch(ps)
    ensures forall p | p in ps :: ValidIdentity(p.operationId, p.clientId, p.clientSequence, p.intentHash)
  {
  }

  lemma OneMoreAdmissible(a: Authority, init: seq<Proposal>, p: Proposal)
    ensures AllAdmissible(a, init + [p]) <==> AllAdmissible(a, init) && Admissible(a, p)
  {
    hide Admissible;
    var ps := init + [p];
    assert ps[|init|] == p && forall i | 0 <= i < |init| :: ps[i] == init[i];
    if AllAdmissible(a, ps) {
      assert Admissible(a, ps[|init|]);
      forall i | 0 <= i < |init| ensures Admissible(a, init[i]) {
        assert Admissible(a, ps[i]);
      }
    }
  }

  lemma DecidedOnTop(interpreter: LogInterpreter, a: Authority, init: seq<Proposal>, p: Proposal)
    ensures match DecideAll(interpreter, a, init)
      case Err(error) => DecideAll(interpreter, a, init + [p]) == Err(error)
      case Ok(rulings) =>
        match DecideProposal(interpreter, rulings.after, p)
        case Err(error) => DecideAll(interpreter, a, init + [p]) == Err(error)
        case Ok(ruling) => DecideAll(interpreter, a, init + [p]).Ok?
  {
    assert (init + [p])[..|init|] == init;
    hide DecideProposal;
  }

  lemma FailsLast(a: Authority, init: seq<Proposal>, p: Proposal, r: Result<Rulings>)
    requires AllAdmissible(a, init) && (r.Err? ==> !Admissible(a, p) && IsRefusal(a, p, r.error))
    ensures r.Err? ==> FailsFirst(a, init + [p], |init|, r.error)
  {
    assert (init + [p])[..|init|] == init && (init + [p])[|init|] == p;
  }

  lemma FailsEarlier(a: Authority, init: seq<Proposal>, p: Proposal, i: nat, error: Error)
    requires FailsFirst(a, init, i, error)
    ensures FailsFirst(a, init + [p], i, error)
  {
    assert (init + [p])[..i] == init[..i] && (init + [p])[i] == init[i];
  }

  /* ---- The whole request ---- */

  /** The page of an answer: the canonical entries after its base, as many as the request and the
      limits allow and the log has. */
  ghost predicate IsFullPage(log: seq<Entry>, base: int, maximum: int, limit: int, through: int, entries: seq<Entry>) {
    && 0 <= base <= through <= |log|
    && entries == log[base..through]
    && (through == |log| || through - base == maximum || through - base == limit)
    && through - base <= maximum && through - base <= limit
  }

  ghost predicate AnswersRequest(w: World, a: Authority, request: Request, answer: Answer) {
    && Extends(a, answer.after)
    && answer.after.decisions.Keys == a.decisions.Keys + ProposalIds(request.proposals)
    && Answers(answer.after, request.proposals, answer.response.decisions)
    && answer.response.requestedBase == request.baseSequence
    && answer.response.head == |answer.after.log|
    && IsFullPage(answer.after.log, request.baseSequence, request.maximumEntries, w.limits.maximumEntries,
                  answer.response.through, answer.response.entries)
  }

  /** A request is answered exactly when it is valid, its base is on the log, and every proposal in it is
      admissible. The answer decides its proposals and nothing else, and pages as far as it may. A
      request that is refused is refused for the first of these that fails. */
  lemma AnsweredExactly(w: World, a: Authority, request: Request)
    requires Sound(w, a) && 1 <= w.limits.maximumEntries && |a.log| + |request.proposals| <= MAX_SAFE
    ensures Synchronize(w, a, request).Ok? <==>
      ValidRequest(request, w.limits) && request.baseSequence <= |a.log| && AllAdmissible(a, request.proposals)
    ensures Synchronize(w, a, request).Ok? ==> AnswersRequest(w, a, request, Synchronize(w, a, request).value)
    ensures ValidRequest(request, w.limits) && request.baseSequence > |a.log| ==>
      Synchronize(w, a, request) == Err(UnknownBase(request.baseSequence, |a.log|))
    ensures ValidRequest(request, w.limits) && request.baseSequence <= |a.log| && Synchronize(w, a, request).Err? ==>
      exists i :: FailsFirst(a, request.proposals, i, Synchronize(w, a, request).error)
  {
    hide *;
    RequestCheckIsValidRequest(request, w.limits);
    SynchronizeCases(w, a, request);
    SoundMeans(w, a);
    if ValidRequest(request, w.limits) && request.baseSequence <= |a.log| {
      ValidRequestParts(w, request);
      BatchIsDecidedExactly(w, a, request.proposals);
      if DecideAll(w.log, a, request.proposals).Ok? {
        DecidedLogGrows(w.log, a, request.proposals);
        SelfCheckFailsOnlyOnOverflow(w, a, request);
        SynchronizeKeepsSound(w, a, request);
        PageIsFull(w, a, request);
      }
    }
  }

  lemma PageIsFull(w: World, a: Authority, request: Request)
    requires 1 <= w.limits.maximumEntries && 1 <= request.maximumEntries && Synchronize(w, a, request).Ok?
    requires Extends(a, Synchronize(w, a, request).value.after) && 0 <= request.baseSequence <= |a.log|
    requires var answer := Synchronize(w, a, request).value;
      && answer.after.decisions.Keys == a.decisions.Keys + ProposalIds(request.proposals)
      && Answers(answer.after, request.proposals, answer.response.decisions)
    ensures AnswersRequest(w, a, request, Synchronize(w, a, request).value)
  {
    hide RequestCheck, ResponseCheck, DecideAll, Answers;
  }
}
