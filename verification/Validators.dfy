/** src/invariants.ts and src/limits.ts. Each validator is a loop over its input that throws at
    the first violation. The loops are proved to return exactly the first failing check, and the
    checks to pass exactly on the declarative predicates ValidBatch, ValidLog and ValidResponse. */
module Validators {
  import opened Protocol

  type Position = (string, int)

  predicate IsLogSequence(value: int, allowZero: bool) {
    (if allowZero then 0 else 1) <= value <= MAX_SAFE
  }

  predicate ValidIdentity(operationId: string, clientId: string, clientSequence: int, intentHash: string) {
    && operationId != ""
    && clientId != ""
    && IsLogSequence(clientSequence, false)
    && intentHash != ""
  }

  function IdentityCheck(operationId: string, clientId: string, clientSequence: int, intentHash: string): (r: Outcome)
    ensures r.Pass? <==> ValidIdentity(operationId, clientId, clientSequence, intentHash)
  {
    if operationId == "" || clientId == "" then Fail(EmptyString)
    else if !IsLogSequence(clientSequence, false) then Fail(InvalidSequence)
    else if intentHash == "" then Fail(EmptyString)
    else Pass
  }

  /* ---- Proposal batches ---- */

  predicate ValidBatch(ps: seq<Proposal>) {
    && (forall i | 0 <= i < |ps| ::
          ValidIdentity(ps[i].operationId, ps[i].clientId, ps[i].clientSequence, ps[i].intentHash))
    && (forall i, j | 0 <= i < j < |ps| :: ps[i].operationId != ps[j].operationId)
    && (forall i, j | 0 <= i < j < |ps| && ps[i].clientId == ps[j].clientId ::
          ps[i].clientSequence < ps[j].clientSequence)
  }

  /** The client sequence of the last proposal of one client; zero when it has none. */
  function LastSequence(ps: seq<Proposal>, clientId: string): int {
    if ps == [] then 0
    else if ps[|ps| - 1].clientId == clientId then ps[|ps| - 1].clientSequence
    else LastSequence(ps[..|ps| - 1], clientId)
  }

  lemma {:induction false} LastSequenceIsGreatest(ps: seq<Proposal>, clientId: string)
    requires ValidBatch(ps)
    ensures forall p | p in ps && p.clientId == clientId :: p.clientSequence <= LastSequence(ps, clientId)
    ensures LastSequence(ps, clientId) == 0
      || exists p :: p in ps && p.clientId == clientId && p.clientSequence == LastSequence(ps, clientId)
  {
    if ps != [] {
      LastSequenceIsGreatest(ps[..|ps| - 1], clientId);
      assert forall p | p in ps :: p in ps[..|ps| - 1] || p == ps[|ps| - 1];
    }
  }

  function ProposalCheck(ps: seq<Proposal>, i: nat): Outcome {
    if i >= |ps| then Pass
    else
      var p := ps[i];
      var identity := IdentityCheck(p.operationId, p.clientId, p.clientSequence, p.intentHash);
      if identity.Fail? then identity
      else if p.operationId in ProposalIds(ps[..i]) then Fail(DuplicateOperationId(p.operationId))
      else if p.clientSequence <= LastSequence(ps[..i], p.clientId) then Fail(InvalidProposalOrder(p.clientId))
      else Pass
  }

  function BatchChecker(ps: seq<Proposal>): nat -> Outcome { (i: nat) => ProposalCheck(ps, i) }

  function BatchCheck(ps: seq<Proposal>): Outcome { FirstFailure(BatchChecker(ps), |ps|) }

  lemma BatchCheckIsValidBatch(ps: seq<Proposal>)
    ensures BatchCheck(ps).Pass? <==> ValidBatch(ps)
  {
    assert forall i: nat :: BatchChecker(ps)(i) == ProposalCheck(ps, i);
    PrefixChecksAreValidBatch(ps, |ps|);
    assert ps[..|ps|] == ps;
  }

  lemma {:induction false} PrefixChecksAreValidBatch(ps: seq<Proposal>, n: nat)
    requires n <= |ps|
    ensures (forall i: nat | i < n :: ProposalCheck(ps, i).Pass?) <==> ValidBatch(ps[..n])
  {
    if n > 0 {
      hide ValidBatch, Follows, ProposalCheck;
      PrefixChecksAreValidBatch(ps, n - 1);
      assert ps[..n] == ps[..n - 1] + [ps[n - 1]];
      ExtendBatch(ps[..n - 1], ps[n - 1]);
      if ValidBatch(ps[..n - 1]) {
        ProposalCheckIsFollows(ps, n - 1);
      }
    }
  }

  /** p may come next in a batch: its identity is new and its client's order increases. */
  predicate Follows(ps: seq<Proposal>, p: Proposal) {
    && ValidIdentity(p.operationId, p.clientId, p.clientSequence, p.intentHash)
    && (forall q | q in ps :: q.operationId != p.operationId)
    && (forall q | q in ps && q.clientId == p.clientId :: q.clientSequence < p.clientSequence)
  }

  lemma ProposalCheckIsFollows(ps: seq<Proposal>, i: nat)
    requires i < |ps| && ValidBatch(ps[..i])
    ensures ProposalCheck(ps, i).Pass? <==> Follows(ps[..i], ps[i])
  {
    LastSequenceIsGreatest(ps[..i], ps[i].clientId);
  }

  lemma ExtendBatch(ps: seq<Proposal>, p: Proposal)
    ensures ValidBatch(ps + [p]) <==> ValidBatch(ps) && Follows(ps, p)
  {
    var all := ps + [p];
    assert all[|ps|] == p && forall i | 0 <= i < |ps| :: all[i] == ps[i];
    if ValidBatch(all) {
      forall i, j | 0 <= i < j < |ps|
        ensures ps[i].operationId != ps[j].operationId
        ensures ps[i].clientId == ps[j].clientId ==> ps[i].clientSequence < ps[j].clientSequence
      {
        assert all[i] == ps[i] && all[j] == ps[j];
      }
    }
  }

  /** One step of a validating loop: it goes on, or it has found the failure of the whole loop. */
  lemma Advance(check: nat -> Outcome, n: nat, i: nat)
    requires i < n && FirstFailure(check, i).Pass?
    ensures if check(i).Pass? then FirstFailure(check, i + 1).Pass? else FirstFailure(check, n) == check(i)
  {
  }

  lemma NoFailure(check: nat -> Outcome)
    ensures FirstFailure(check, 0).Pass?
  {
  }

  lemma NoProposals()
    ensures ProposalIds([]) == {} && forall c :: LastSequence([], c) == 0
  {
  }

  lemma OneMoreProposal(ps: seq<Proposal>, p: Proposal)
    ensures ProposalIds(ps + [p]) == ProposalIds(ps) + {p.operationId}
    ensures forall c :: LastSequence(ps + [p], c) == if c == p.clientId then p.clientSequence else LastSequence(ps, c)
  {
    assert (ps + [p])[..|ps|] == ps;
  }

  method AssertProposalBatch(ps: seq<Proposal>) returns (r: Outcome)
    ensures r == BatchCheck(ps)
  {
    hide ProposalIds, ValidIdentity, LastSequence;
    NoProposals();
    var operationIds: set<string> := {};
    var lastSequenceByClient: map<string, int> := map[];
    var i := 0;
    while i < |ps|
      invariant 0 <= i <= |ps|
      invariant FirstFailure(BatchChecker(ps), i).Pass?
      invariant operationIds == ProposalIds(ps[..i])
      invariant forall c :: LastSequence(ps[..i], c) == if c in lastSequenceByClient then lastSequenceByClient[c] else 0
    {
      var p := ps[i];
      Advance(BatchChecker(ps), |ps|, i);
      assert BatchChecker(ps)(i) == ProposalCheck(ps, i);
      assert ps[..i + 1] == ps[..i] + [p];
      OneMoreProposal(ps[..i], p);
      var identity := IdentityCheck(p.operationId, p.clientId, p.clientSequence, p.intentHash);
      if identity.Fail? {
        return identity;
      }
      if p.operationId in operationIds {
        return Fail(DuplicateOperationId(p.operationId));
      }
      operationIds := operationIds + {p.operationId};
      if p.clientId in lastSequenceByClient && p.clientSequence <= lastSequenceByClient[p.clientId] {
        return Fail(InvalidProposalOrder(p.clientId));
      }
      lastSequenceByClient := lastSequenceByClient[p.clientId := p.clientSequence];
      i := i + 1;
    }
    return Pass;
  }

  /* ---- Requests ---- */

  /** The limits may be absent. */
  predicate ValidSyncRequest(request: Request, limits: Option<Limits>) {
    && IsLogSequence(request.baseSequence, true)
    && IsLogSequence(request.maximumEntries, false)
    && (limits.Some? ==> |request.proposals| <= limits.value.maximumProposals)
    && ValidBatch(request.proposals)
  }

  predicate ValidRequest(request: Request, limits: Limits) {
    && IsLogSequence(request.baseSequence, true)
    && IsLogSequence(request.maximumEntries, false)
    && |request.proposals| <= limits.maximumProposals
    && ValidBatch(request.proposals)
  }

  function SyncRequestCheck(request: Request, limits: Option<Limits>): Outcome {
    if !IsLogSequence(request.baseSequence, true) then Fail(InvalidSequence)
    else if !IsLogSequence(request.maximumEntries, false) then Fail(InvalidLimit)
    else if limits.Some? && |request.proposals| > limits.value.maximumProposals then Fail(LimitExceeded)
    else BatchCheck(request.proposals)
  }

  /** As an authority calls it, with its own limits. */
  function RequestCheck(request: Request, limits: Limits): Outcome { SyncRequestCheck(request, Some(limits)) }

  lemma SyncRequestCheckIsValid(request: Request, limits: Option<Limits>)
    ensures SyncRequestCheck(request, limits).Pass? <==> ValidSyncRequest(request, limits)
  {
    BatchCheckIsValidBatch(request.proposals);
  }

  lemma RequestCheckIsValidRequest(request: Request, limits: Limits)
    ensures RequestCheck(request, limits).Pass? <==> ValidRequest(request, limits)
  {
    SyncRequestCheckIsValid(request, Some(limits));
  }

  method AssertSyncRequest(request: Request, limits: Option<Limits>) returns (r: Outcome)
    ensures r == SyncRequestCheck(request, limits)
    ensures limits.Some? ==> r == RequestCheck(request, limits.value)
  {
    if !IsLogSequence(request.baseSequence, true) {
      return Fail(InvalidSequence);
    }
    if !IsLogSequence(request.maximumEntries, false) {
      return Fail(InvalidLimit);
    }
    if limits.Some? && |request.proposals| > limits.value.maximumProposals {
      return Fail(LimitExceeded);
    }
    r := AssertProposalBatch(request.proposals);
  }

  /* ---- Canonical logs ---- */

  function PositionOf(e: Entry): Position { (e.origin.clientId, e.origin.clientSequence) }

  function EntryIds(es: seq<Entry>): set<string> { set e | e in es :: e.operationId }
  function EntryPositions(es: seq<Entry>): set<Position> { set e | e in es :: PositionOf(e) }

  predicate ValidEntry(e: Entry) {
    && IsLogSequence(e.sequence, false)
    && ValidIdentity(e.operationId, e.origin.clientId, e.origin.clientSequence, e.origin.intentHash)
  }

  /** No two entries share an operation identity or a client position. */
  predicate DistinctEntries(log: seq<Entry>) {
    forall i, j | 0 <= i < j < |log| ::
      log[i].operationId != log[j].operationId && PositionOf(log[i]) != PositionOf(log[j])
  }

  predicate ValidLog(log: seq<Entry>) {
    && (forall i | 0 <= i < |log| :: ValidEntry(log[i]) && log[i].sequence == i + 1)
    && DistinctEntries(log)
  }

  function EntryFieldsCheck(e: Entry): (r: Outcome)
    ensures r.Pass? <==> ValidEntry(e)
  {
    if !IsLogSequence(e.sequence, false) then Fail(InvalidSequence)
    else IdentityCheck(e.operationId, e.origin.clientId, e.origin.clientSequence, e.origin.intentHash)
  }

  function LogEntryCheck(log: seq<Entry>, i: nat): Outcome {
    if i >= |log| then Pass
    else
      var e := log[i];
      var fields := EntryFieldsCheck(e);
      if fields.Fail? then fields
      else if e.sequence != i + 1 then Fail(LogGap(i + 1, e.sequence))
      else if e.operationId in EntryIds(log[..i]) then Fail(DuplicateOperationId(e.operationId))
      else if PositionOf(e) in EntryPositions(log[..i]) then
        Fail(ClientSequenceConflict(e.origin.clientId, e.origin.clientSequence))
      else Pass
  }

  function LogChecker(log: seq<Entry>): nat -> Outcome { (i: nat) => LogEntryCheck(log, i) }

  function LogCheck(log: seq<Entry>): Outcome { FirstFailure(LogChecker(log), |log|) }

  lemma LogCheckIsValidLog(log: seq<Entry>)
    ensures LogCheck(log).Pass? <==> ValidLog(log)
  {
    DistinctByPrefix(log);
    hide EntryIds, EntryPositions, DistinctEntries, ValidEntry, PositionOf;
    forall i: nat | i < |log|
      ensures LogChecker(log)(i).Pass? <==>
        && ValidEntry(log[i]) && log[i].sequence == i + 1
        && log[i].operationId !in EntryIds(log[..i]) && PositionOf(log[i]) !in EntryPositions(log[..i])
    {
      assert LogChecker(log)(i) == LogEntryCheck(log, i);
    }
  }

  method AssertContiguousLog(log: seq<Entry>) returns (r: Outcome)
    ensures r == LogCheck(log)
  {
    hide EntryIds, EntryPositions, ValidEntry, PositionOf, ValidIdentity, Indexes, FirstFailure;
    IndexNone();
    NoFailure(LogChecker(log));
    var operationIds: set<string> := {};
    var operationIdByPosition: map<Position, string> := map[];
    var i := 0;
    while i < |log|
      invariant 0 <= i <= |log|
      invariant FirstFailure(LogChecker(log), i).Pass?
      invariant operationIds == EntryIds(log[..i])
      invariant operationIdByPosition.Keys == EntryPositions(log[..i])
    {
      var e := log[i];
      Advance(LogChecker(log), |log|, i);
      assert LogChecker(log)(i) == LogEntryCheck(log, i);
      assert log[..i + 1] == log[..i] + [e];
      IndexOneMore(map[], log[..i], e);
      var fields := EntryFieldsCheck(e);
      if fields.Fail? {
        return fields;
      }
      if e.sequence != i + 1 {
        return Fail(LogGap(i + 1, e.sequence));
      }
      if e.operationId in operationIds {
        return Fail(DuplicateOperationId(e.operationId));
      }
      operationIds := operationIds + {e.operationId};
      if PositionOf(e) in operationIdByPosition {
        return Fail(ClientSequenceConflict(e.origin.clientId, e.origin.clientSequence));
      }
      operationIdByPosition := operationIdByPosition[PositionOf(e) := e.operationId];
      i := i + 1;
    }
    return Pass;
  }

  lemma SliceIsDistinct(log: seq<Entry>, slice: seq<Entry>, base: int)
    requires ValidLog(log) && 0 <= base && base + |slice| <= |log|
    requires forall i | 0 <= i < |slice| :: slice[i] == log[base + i]
    ensures DistinctEntries(slice)
    ensures forall i | 0 <= i < |slice| :: ValidEntry(slice[i]) && slice[i].sequence == base + i + 1
  {
    hide ValidEntry, PositionOf;
    forall i, j | 0 <= i < j < |slice|
      ensures slice[i].operationId != slice[j].operationId && PositionOf(slice[i]) != PositionOf(slice[j])
    {
      assert slice[i] == log[base + i] && slice[j] == log[base + j];
    }
  }

  /* ---- Responses ---- */

  predicate WithinLimits(response: Response, limits: Option<Limits>) {
    limits.Some? ==>
      && |response.entries| <= limits.value.maximumEntries
      && |response.decisions| <= limits.value.maximumProposals
  }

  /** The page announced by the cursors is the page sent, and it advances unless it is at the head. */
  predicate ValidPage(response: Response) {
    && IsLogSequence(response.requestedBase, true)
    && IsLogSequence(response.through, true)
    && IsLogSequence(response.head, true)
    && response.requestedBase <= response.through <= response.head
    && |response.entries| == response.through - response.requestedBase
    && (response.requestedBase < response.head ==> response.entries != [])
    && (forall i | 0 <= i < |response.entries| ::
          ValidEntry(response.entries[i]) && response.entries[i].sequence == response.requestedBase + i + 1)
    && DistinctEntries(response.entries)
  }

  /** A decision about an operation on the page agrees with the page. */
  predicate AgreesWithPage(d: Decision, response: Response) {
    && d.operationId != ""
    && (d.Accepted? ==> IsLogSequence(d.sequence, false) && d.sequence <= response.head)
    && (forall e | e in response.entries && e.operationId == d.operationId ::
          d.Accepted? && d.sequence == e.sequence)
  }

  predicate DistinctDecisions(ds: seq<Decision>) {
    forall i, j | 0 <= i < j < |ds| :: ds[i].operationId != ds[j].operationId
  }

  predicate ValidResponse(response: Response) {
    && ValidPage(response)
    && (forall i | 0 <= i < |response.decisions| :: AgreesWithPage(response.decisions[i], response))
    && DistinctDecisions(response.decisions)
  }

  function HeaderCheck(response: Response, limits: Option<Limits>): Outcome {
    if !IsLogSequence(response.requestedBase, true)
       || !IsLogSequence(response.through, true)
       || !IsLogSequence(response.head, true) then Fail(InvalidSequence)
    else if response.requestedBase > response.through || response.through > response.head then Fail(MalformedResponse)
    else if !WithinLimits(response, limits) then Fail(LimitExceeded)
    else if |response.entries| != response.through - response.requestedBase then Fail(MalformedResponse)
    else if response.requestedBase < response.head && response.entries == [] then Fail(MalformedResponse)
    else Pass
  }

  function PageEntryCheck(response: Response, i: nat): Outcome {
    var entries := response.entries;
    if i >= |entries| then Pass
    else
      var fields := EntryFieldsCheck(entries[i]);
      if fields.Fail? then fields
      else if entries[i].sequence != response.requestedBase + i + 1 then Fail(MalformedResponse)
      else if entries[i].operationId in EntryIds(entries[..i]) || PositionOf(entries[i]) in EntryPositions(entries[..i]) then
        Fail(MalformedResponse)
      else Pass
  }

  function PageChecker(response: Response): nat -> Outcome { (i: nat) => PageEntryCheck(response, i) }

  function DecisionCheck(response: Response, i: nat): Outcome {
    var ds := response.decisions;
    if i >= |ds| then Pass
    else
      var d := ds[i];
      if d.operationId == "" then Fail(EmptyString)
      else if d.operationId in DecisionIds(ds[..i]) then Fail(MalformedResponse)
      else if d.Accepted? && !IsLogSequence(d.sequence, false) then Fail(InvalidSequence)
      else if !AgreesWithPage(d, response) then Fail(MalformedResponse)
      else Pass
  }

  function DecisionsChecker(response: Response): nat -> Outcome { (i: nat) => DecisionCheck(response, i) }

  function ResponseCheck(response: Response, limits: Option<Limits>): Outcome {
    var header := HeaderCheck(response, limits);
    if header.Fail? then header
    else
      var page := FirstFailure(PageChecker(response), |response.entries|);
      if page.Fail? then page else FirstFailure(DecisionsChecker(response), |response.decisions|)
  }

  lemma ResponseCheckIsValidResponse(response: Response, limits: Option<Limits>)
    ensures ResponseCheck(response, limits).Pass? <==> ValidResponse(response) && WithinLimits(response, limits)
  {
    if HeaderCheck(response, limits).Pass? {
      PageCheckIsValidPage(response);
      DecisionsCheckIsAgreement(response);
    }
  }

  lemma PageCheckIsValidPage(response: Response)
    requires HeaderCheck(response, None).Pass?
    ensures FirstFailure(PageChecker(response), |response.entries|).Pass? <==> ValidPage(response)
  {
    var es := response.entries;
    DistinctByPrefix(es);
    hide EntryIds, EntryPositions, DistinctEntries, ValidEntry, PositionOf;
    forall i: nat | i < |es|
      ensures PageChecker(response)(i).Pass? <==>
        && ValidEntry(es[i]) && es[i].sequence == response.requestedBase + i + 1
        && es[i].operationId !in EntryIds(es[..i]) && PositionOf(es[i]) !in EntryPositions(es[..i])
    {
      assert PageChecker(response)(i) == PageEntryCheck(response, i);
    }
  }

  /** Entries are distinct if each differs from all before it. */
  lemma DistinctByPrefix(es: seq<Entry>)
    ensures DistinctEntries(es) <==>
      forall i: nat | i < |es| :: es[i].operationId !in EntryIds(es[..i]) && PositionOf(es[i]) !in EntryPositions(es[..i])
  {
    hide PositionOf;
    if forall i: nat | i < |es| :: es[i].operationId !in EntryIds(es[..i]) && PositionOf(es[i]) !in EntryPositions(es[..i]) {
      forall i, j | 0 <= i < j < |es|
        ensures es[i].operationId != es[j].operationId && PositionOf(es[i]) != PositionOf(es[j])
      {
        assert es[..j][i] in es[..j];
      }
    }
  }

  lemma DecisionsCheckIsAgreement(response: Response)
    ensures FirstFailure(DecisionsChecker(response), |response.decisions|).Pass? <==>
      && (forall i | 0 <= i < |response.decisions| :: AgreesWithPage(response.decisions[i], response))
      && DistinctDecisions(response.decisions)
  {
    var ds := response.decisions;
    assert forall i: nat :: DecisionsChecker(response)(i) == DecisionCheck(response, i);
    if FirstFailure(DecisionsChecker(response), |ds|).Pass? {
      forall i, j | 0 <= i < j < |ds| ensures ds[i].operationId != ds[j].operationId {
        assert DecisionsChecker(response)(j).Pass?;
        assert ds[i] in ds[..j];
      }
      forall i | 0 <= i < |ds| ensures AgreesWithPage(ds[i], response) {
        assert DecisionsChecker(response)(i).Pass?;
      }
    } else {
      var i: nat :| i < |ds| && DecisionCheck(response, i).Fail?;
      assert AgreesWithPage(ds[i], response) ==> exists d | d in ds[..i] :: d.operationId == ds[i].operationId;
    }
  }

  lemma AgreementByIndex(d: Decision, response: Response, index: map<string, Entry>)
    requires Indexes(index, response.entries)
    ensures AgreesWithPage(d, response) <==>
      && d.operationId != ""
      && (d.Accepted? ==> IsLogSequence(d.sequence, false) && d.sequence <= response.head)
      && (d.operationId in index ==> d.Accepted? && d.sequence == index[d.operationId].sequence)
  {
  }

  lemma NoDecisionIds()
    ensures DecisionIds([]) == {}
  {
  }

  lemma DecisionIdsOneMore(ds: seq<Decision>, d: Decision)
    ensures DecisionIds(ds + [d]) == DecisionIds(ds) + {d.operationId}
  {
  }

  method AssertSyncResponse(response: Response, limits: Option<Limits>) returns (r: Outcome)
    ensures r == ResponseCheck(response, limits)
  {
    hide AgreesWithPage, Indexes, DecisionIds, HeaderCheck;
    r := HeaderCheck(response, limits);
    if r.Fail? {
      return;
    }
    var entriesByOperationId;
    r, entriesByOperationId := AssertPage(response);
    if r.Fail? {
      return;
    }
    var decisionIds: set<string> := {};
    NoDecisionIds();
    var i := 0;
    while i < |response.decisions|
      invariant 0 <= i <= |response.decisions|
      invariant FirstFailure(DecisionsChecker(response), i).Pass?
      invariant decisionIds == DecisionIds(response.decisions[..i])
    {
      var d := response.decisions[i];
      Advance(DecisionsChecker(response), |response.decisions|, i);
      assert DecisionsChecker(response)(i) == DecisionCheck(response, i);
      assert response.decisions[..i + 1] == response.decisions[..i] + [d];
      DecisionIdsOneMore(response.decisions[..i], d);
      AgreementByIndex(d, response, entriesByOperationId);
      if d.operationId == "" {
        return Fail(EmptyString);
      }
      if d.operationId in decisionIds {
        return Fail(MalformedResponse);
      }
      decisionIds := decisionIds + {d.operationId};
      if d.Accepted? {
        if !IsLogSequence(d.sequence, false) {
          return Fail(InvalidSequence);
        }
        if d.sequence > response.head {
          return Fail(MalformedResponse);
        }
        if d.operationId in entriesByOperationId && entriesByOperationId[d.operationId].sequence != d.sequence {
          return Fail(MalformedResponse);
        }
      } else if d.operationId in entriesByOperationId {
        return Fail(MalformedResponse);
      }
      i := i + 1;
    }
    return Pass;
  }

  /** An index of entries by operation identity. */
  ghost predicate Indexes(index: map<string, Entry>, es: seq<Entry>) {
    && index.Keys == EntryIds(es)
    && forall e | e in es :: index[e.operationId] == e
  }

  lemma IndexNone()
    ensures Indexes(map[], []) && EntryIds([]) == {} && EntryPositions([]) == {}
  {
  }

  lemma IndexOneMore(index: map<string, Entry>, es: seq<Entry>, e: Entry)
    ensures EntryIds(es + [e]) == EntryIds(es) + {e.operationId}
    ensures EntryPositions(es + [e]) == EntryPositions(es) + {PositionOf(e)}
    ensures Indexes(index, es) && e.operationId !in index ==> Indexes(index[e.operationId := e], es + [e])
    ensures Indexes(index, es) ==> (e.operationId in index <==> e.operationId in EntryIds(es))
  {
  }

  /** The loop over the page; it also indexes the entries by operation identity. */
  method AssertPage(response: Response) returns (r: Outcome, entriesByOperationId: map<string, Entry>)
    ensures r == FirstFailure(PageChecker(response), |response.entries|)
    ensures r.Pass? ==> Indexes(entriesByOperationId, response.entries)
  {
    hide EntryIds, EntryPositions, Indexes, ValidEntry, PositionOf, ValidIdentity, FirstFailure;
    IndexNone();
    NoFailure(PageChecker(response));
    entriesByOperationId := map[];
    var clientPositions: map<Position, string> := map[];
    var expectedSequence := response.requestedBase + 1;
    var i := 0;
    while i < |response.entries|
      invariant 0 <= i <= |response.entries|
      invariant expectedSequence == response.requestedBase + i + 1
      invariant FirstFailure(PageChecker(response), i).Pass?
      invariant Indexes(entriesByOperationId, response.entries[..i])
      invariant clientPositions.Keys == EntryPositions(response.entries[..i])
    {
      var e := response.entries[i];
      Advance(PageChecker(response), |response.entries|, i);
      assert PageChecker(response)(i) == PageEntryCheck(response, i);
      assert response.entries[..i + 1] == response.entries[..i] + [e];
      IndexOneMore(entriesByOperationId, response.entries[..i], e);
      r := EntryFieldsCheck(e);
      if r.Fail? {
        return;
      }
      if e.sequence != expectedSequence || e.operationId in entriesByOperationId || PositionOf(e) in clientPositions {
        return Fail(MalformedResponse), entriesByOperationId;
      }
      expectedSequence := expectedSequence + 1;
      entriesByOperationId := entriesByOperationId[e.operationId := e];
      clientPositions := clientPositions[PositionOf(e) := e.operationId];
      i := i + 1;
    }
    assert response.entries[..i] == response.entries;
    return Pass, entriesByOperationId;
  }
}
