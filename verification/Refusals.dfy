/** src/invariants.ts: which error a validator raises. A batch, a request or a log that is refused is
    refused at its first offending element, for what is wrong with that element. */
module Refusals {
  import opened Protocol
  import opened Validators

  /* ---- Batches ---- */

  predicate HasEmptyName(operationId: string, clientId: string, intentHash: string) {
    operationId == "" || clientId == "" || intentHash == ""
  }

  /** What is wrong with the proposal that comes after a valid beginning of the batch. */
  ghost predicate ExplainsProposal(init: seq<Proposal>, p: Proposal, error: Error) {
    match error
    case EmptyString => HasEmptyName(p.operationId, p.clientId, p.intentHash)
    case InvalidSequence => p.clientSequence < 1 || p.clientSequence > MAX_SAFE
    case DuplicateOperationId(id) => id == p.operationId && exists q :: q in init && q.operationId == id
    case InvalidProposalOrder(clientId) =>
      && clientId == p.clientId
      && (exists q :: q in init && q.clientId == clientId && q.clientSequence >= p.clientSequence)
      && forall q | q in init :: q.operationId != p.operationId
    case _ => false
  }

  ghost predicate RefusedAt(ps: seq<Proposal>, i: nat, error: Error) {
    i < |ps| && ValidBatch(ps[..i]) && ExplainsProposal(ps[..i], ps[i], error)
  }

  lemma ProposalRefusal(ps: seq<Proposal>, i: nat)
    requires i < |ps| && ValidBatch(ps[..i]) && ProposalCheck(ps, i).Fail?
    ensures RefusedAt(ps, i, ProposalCheck(ps, i).error)
  {
    LastSequenceIsGreatest(ps[..i], ps[i].clientId);
  }

  lemma BatchRefusedAtFirst(ps: seq<Proposal>) returns (i: nat)
    requires BatchCheck(ps).Fail?
    ensures RefusedAt(ps, i, BatchCheck(ps).error)
  {
    assert forall k: nat :: BatchChecker(ps)(k) == ProposalCheck(ps, k);
    hide ProposalCheck, ValidBatch;
    i :| i < |ps| && BatchChecker(ps)(i) == BatchCheck(ps) && forall k: nat | k < i :: BatchChecker(ps)(k).Pass?;
    PrefixChecksAreValidBatch(ps, i);
    ProposalRefusal(ps, i);
  }

  /** A refused request is refused for its base, its page size, its length or its batch, in this order. */
  lemma RequestRefusedAtFirst(request: Request, limits: Limits) returns (i: nat)
    requires RequestCheck(request, limits).Fail?
    ensures var error, base, page := RequestCheck(request, limits).error, request.baseSequence, request.maximumEntries;
      if base < 0 || base > MAX_SAFE then error == InvalidSequence
      else if page < 1 || page > MAX_SAFE then error == InvalidLimit
      else if |request.proposals| > limits.maximumProposals then error == LimitExceeded
      else RefusedAt(request.proposals, i, error)
  {
    hide BatchCheck, RefusedAt;
    i := 0;
    if BatchCheck(request.proposals).Fail? {
      i := BatchRefusedAtFirst(request.proposals);
    }
  }

  /* ---- Logs ---- */

  ghost predicate ExplainsEntry(init: seq<Entry>, e: Entry, error: Error) {
    match error
    case EmptyString => HasEmptyName(e.operationId, e.origin.clientId, e.origin.intentHash)
    case InvalidSequence => e.sequence < 1 || e.sequence > MAX_SAFE || e.origin.clientSequence < 1 || e.origin.clientSequence > MAX_SAFE
    case LogGap(expected, received) => expected == |init| + 1 && received == e.sequence && received != expected
    case DuplicateOperationId(id) => id == e.operationId && exists x :: x in init && x.operationId == id
    case ClientSequenceConflict(clientId, clientSequence) =>
      && clientId == e.origin.clientId && clientSequence == e.origin.clientSequence
      && (exists x :: x in init && x.origin.clientId == clientId && x.origin.clientSequence == clientSequence)
      && forall x | x in init :: x.operationId != e.operationId
    case _ => false
  }

  ghost predicate LogRefusedAt(log: seq<Entry>, i: nat, error: Error) {
    i < |log| && ValidLog(log[..i]) && ExplainsEntry(log[..i], log[i], error)
  }

  /** The beginning of a log that passes every check so far. */
  lemma CheckedPrefixIsValid(log: seq<Entry>, i: nat)
    requires i <= |log| && forall k: nat | k < i :: LogChecker(log)(k).Pass?
    ensures ValidLog(log[..i])
  {
    var init := log[..i];
    hide ValidEntry, EntryIds, EntryPositions, ValidLog;
    forall k: nat | k < i ensures LogChecker(init)(k).Pass? {
      assert init[..k] == log[..k];
      assert LogChecker(log)(k) == LogEntryCheck(log, k) && LogChecker(init)(k) == LogEntryCheck(init, k);
    }
    LogCheckIsValidLog(init);
  }

  lemma EntryRefusal(log: seq<Entry>, i: nat)
    requires i < |log| && LogEntryCheck(log, i).Fail?
    ensures ExplainsEntry(log[..i], log[i], LogEntryCheck(log, i).error)
  {
    var e, init := log[i], log[..i];
    if PositionOf(e) in EntryPositions(init) {
      var x :| x in init && PositionOf(x) == PositionOf(e);
      assert x.origin.clientId == e.origin.clientId && x.origin.clientSequence == e.origin.clientSequence;
    }
  }

  lemma LogRefusedAtFirst(log: seq<Entry>) returns (i: nat)
    requires LogCheck(log).Fail?
    ensures LogRefusedAt(log, i, LogCheck(log).error)
  {
    assert forall k: nat :: LogChecker(log)(k) == LogEntryCheck(log, k);
    hide LogEntryCheck, ValidLog, ExplainsEntry;
    i :| i < |log| && LogChecker(log)(i) == LogCheck(log) && forall k: nat | k < i :: LogChecker(log)(k).Pass?;
    CheckedPrefixIsValid(log, i);
    EntryRefusal(log, i);
  }
}
