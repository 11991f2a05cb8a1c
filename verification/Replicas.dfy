/** src/replica.ts: the client replica. The functions give each transition on values; the methods
    run the source's loops, splicing and pushing local arrays, and are proved equal to them. */
module Replicas {
  import opened Protocol
  import opened Validators

  /** An accepted entry waits for its canonical log entry to join the confirmed prefix. */
  datatype OutboxEntry =
    | PendingEntry(proposal: Proposal)
    | AcceptedEntry(proposal: Proposal, sequence: int, operation: Operation)

  datatype Replica = Replica(
    clientId: string,
    nextClientSequence: int,
    confirmedSequence: int,
    confirmedState: State,
    confirmedLog: seq<Entry>,
    outbox: seq<OutboxEntry>)

  type Equality = (Operation, Operation) -> bool

  /* ---- The retained log ---- */

  /** The sequence before the first retained entry. */
  function RetainedBase(r: Replica): int { r.confirmedSequence - |r.confirmedLog| }

  ghost predicate ValidRetained(r: Replica) {
    && IsLogSequence(r.confirmedSequence, true)
    && 0 <= RetainedBase(r)
    && forall i | 0 <= i < |r.confirmedLog| :: r.confirmedLog[i].sequence == RetainedBase(r) + i + 1
  }

  function RetainedChecker(r: Replica): nat -> Outcome {
    (i: nat) =>
      if i < |r.confirmedLog| && r.confirmedLog[i].sequence != RetainedBase(r) + i + 1 then
        Fail(LogGap(RetainedBase(r) + i + 1, r.confirmedLog[i].sequence))
      else Pass
  }

  function RetainedCheck(r: Replica): (outcome: Outcome)
    ensures outcome.Pass? <==> ValidRetained(r)
  {
    if !IsLogSequence(r.confirmedSequence, true) then Fail(InvalidSequence)
    else if RetainedBase(r) < 0 then Fail(RetainedLogTooLong)
    else
      assert forall i: nat | i < |r.confirmedLog| ::
          RetainedChecker(r)(i).Pass? <==> r.confirmedLog[i].sequence == RetainedBase(r) + i + 1;
      FirstFailure(RetainedChecker(r), |r.confirmedLog|)
  }

  method AssertRetainedConfirmedLog(r: Replica) returns (outcome: Outcome, base: int)
    ensures outcome == RetainedCheck(r) && base == RetainedBase(r)
  {
    base := RetainedBase(r);
    if !IsLogSequence(r.confirmedSequence, true) {
      return Fail(InvalidSequence), base;
    }
    if base < 0 {
      return Fail(RetainedLogTooLong), base;
    }
    var i := 0;
    while i < |r.confirmedLog|
      invariant 0 <= i <= |r.confirmedLog|
      invariant FirstFailure(RetainedChecker(r), i).Pass?
    {
      Advance(RetainedChecker(r), |r.confirmedLog|, i);
      if r.confirmedLog[i].sequence != base + i + 1 {
        return Fail(LogGap(base + i + 1, r.confirmedLog[i].sequence)), base;
      }
      i := i + 1;
    }
    return Pass, base;
  }

  /* ---- Create, enqueue, compact, prepare ---- */

  function Create(clientId: string, initial: State, first: int): Result<Replica> {
    if clientId == "" then Err(EmptyString)
    else if !IsLogSequence(first, false) then Err(InvalidSequence)
    else Ok(Replica(clientId, first, 0, initial, [], []))
  }

  function OutboxIds(outbox: seq<OutboxEntry>): set<string> { set x | x in outbox :: x.proposal.operationId }

  function Enqueue(r: Replica, operationId: string, intentHash: string, intent: Intent): Result<Replica> {
    if r.clientId == "" then Err(EmptyString)
    else if !IsLogSequence(r.nextClientSequence, false) then Err(InvalidSequence)
    else if !IsLogSequence(r.nextClientSequence + 1, false) then Err(InvalidSequence)
    else if operationId == "" || intentHash == "" then Err(EmptyString)
    else
      :- RetainedCheck(r);
      if operationId in EntryIds(r.confirmedLog) || operationId in OutboxIds(r.outbox) then
        Err(DuplicateOperationId(operationId))
      else
        var p := Proposal(operationId, r.clientId, r.nextClientSequence, intentHash, intent);
        Ok(r.(nextClientSequence := r.nextClientSequence + 1, outbox := r.outbox + [PendingEntry(p)]))
  }

  function Compact(r: Replica, through: int): Result<Replica> {
    if !IsLogSequence(through, true) then Err(InvalidSequence)
    else
      :- RetainedCheck(r);
      if through > r.confirmedSequence then Err(LogGap(r.confirmedSequence + 1, through))
      else if through <= RetainedBase(r) then Ok(r)
      else Ok(r.(confirmedLog := r.confirmedLog[through - RetainedBase(r)..]))
  }

  function Pendings(outbox: seq<OutboxEntry>): seq<Proposal> {
    if outbox == [] then []
    else
      var last := outbox[|outbox| - 1];
      var before := Pendings(outbox[..|outbox| - 1]);
      if last.PendingEntry? then before + [last.proposal] else before
  }

  function Prepare(r: Replica, maximumProposals: int, maximumEntries: int): Result<Request> {
    var valid := RetainedCheck(r);
    if valid.Fail? then Err(valid.error)
    else
      if !IsLogSequence(maximumProposals, true) then Err(InvalidLimit)
      else if !IsLogSequence(maximumEntries, false) then Err(InvalidLimit)
      else
        var pending := Pendings(r.outbox);
        Ok(Request(r.confirmedSequence, maximumEntries, pending[..Min(maximumProposals, |pending|)]))
  }

  lemma {:induction false} PendingsOfPrefix(outbox: seq<OutboxEntry>, n: nat)
    requires n <= |outbox|
    ensures Pendings(outbox[..n]) <= Pendings(outbox)
  {
    if n < |outbox| {
      PendingsOfPrefix(outbox[..|outbox| - 1], n);
      assert outbox[..|outbox| - 1][..n] == outbox[..n];
    } else {
      assert outbox[..n] == outbox;
    }
  }

  method PrepareSyncRequest(r: Replica, maximumProposals: int, maximumEntries: int) returns (request: Result<Request>)
    ensures request == Prepare(r, maximumProposals, maximumEntries)
  {
    var outcome, _ := AssertRetainedConfirmedLog(r);
    if outcome.Fail? {
      return Err(outcome.error);
    }
    if !IsLogSequence(maximumProposals, true) || !IsLogSequence(maximumEntries, false) {
      return Err(InvalidLimit);
    }
    var proposals: seq<Proposal> := [];
    if maximumProposals == 0 {
      return Ok(Request(r.confirmedSequence, maximumEntries, proposals));
    }
    var i := 0;
    while i < |r.outbox|
      invariant 0 <= i <= |r.outbox|
      invariant proposals == Pendings(r.outbox[..i])
      invariant |proposals| < maximumProposals
    {
      assert r.outbox[..i + 1][..i] == r.outbox[..i];
      i := i + 1;
      if r.outbox[i - 1].PendingEntry? {
        proposals := proposals + [r.outbox[i - 1].proposal];
        assert proposals == Pendings(r.outbox[..i]);
        if |proposals| >= maximumProposals {
          break;
        }
      }
    }
    PendingsOfPrefix(r.outbox, i);
    assert i == |r.outbox| ==> r.outbox[..i] == r.outbox;
    assert proposals == Pendings(r.outbox)[..|proposals|];
    return Ok(Request(r.confirmedSequence, maximumEntries, proposals));
  }

  /* ---- Merging a response ---- */

  /** The outbox, and the decisions learned so far by this merge. */
  datatype Overlay = Overlay(outbox: seq<OutboxEntry>, newly: seq<Decision>)

  /** The confirmed prefix as it grows during a merge. */
  datatype Progress = Progress(overlay: Overlay, sequence: int, state: State, log: seq<Entry>)

  datatype Merged = Merged(state: Replica, newly: seq<Decision>, caughtUp: bool)

  /** The first outbox position that holds the operation; the length of the outbox if none does. */
  function Find(outbox: seq<OutboxEntry>, id: string): (i: nat)
    ensures i <= |outbox|
    ensures i < |outbox| ==> outbox[i].proposal.operationId == id
    ensures forall j | 0 <= j < i :: outbox[j].proposal.operationId != id
  {
    if outbox == [] then 0
    else
      var i := Find(outbox[..|outbox| - 1], id);
      if i < |outbox| - 1 || outbox[|outbox| - 1].proposal.operationId == id then i else |outbox|
  }

  method FindIndex(outbox: seq<OutboxEntry>, id: string) returns (i: nat)
    ensures i == Find(outbox, id)
  {
    i := 0;
    while i < |outbox| && outbox[i].proposal.operationId != id
      invariant i <= |outbox|
      invariant forall j | 0 <= j < i :: outbox[j].proposal.operationId != id
    {
      i := i + 1;
    }
  }

  function RemoveAt<T>(xs: seq<T>, i: nat): seq<T>
    requires i < |xs|
  {
    xs[..i] + xs[i + 1..]
  }

  function MergeDecision(o: Overlay, d: Decision, eq: Equality): Result<Overlay> {
    var i := Find(o.outbox, d.operationId);
    if i == |o.outbox| then Ok(o)
    else
      var local := o.outbox[i];
      if d.Rejected? then
        if local.AcceptedEntry? then Err(DecisionConflict(d.operationId))
        else Ok(Overlay(RemoveAt(o.outbox, i), o.newly + [d]))
      else if local.AcceptedEntry? then
        if local.sequence != d.sequence || !eq(local.operation, d.operation) then Err(DecisionConflict(d.operationId))
        else Ok(o)
      else Ok(Overlay(o.outbox[i := AcceptedEntry(local.proposal, d.sequence, d.operation)], o.newly + [d]))
  }

  function DecisionStep(eq: Equality): (Overlay, Decision) -> Result<Overlay> {
    (o, d) => MergeDecision(o, d, eq)
  }

  predicate ProposalMatches(p: Proposal, e: Entry) {
    && p.operationId == e.operationId
    && Origin(p.clientId, p.clientSequence, p.intentHash) == e.origin
  }

  /** Same place, same identity, same operation. */
  predicate SamePosition(expected: Entry, received: Entry, eq: Equality) {
    && expected.operationId == received.operationId
    && expected.origin == received.origin
    && eq(expected.operation, received.operation)
  }

  /** A committed entry takes its operation out of the outbox, whatever was known of it. */
  function ResolveCommitted(o: Overlay, e: Entry, eq: Equality): Result<Overlay> {
    var i := Find(o.outbox, e.operationId);
    if i == |o.outbox| then Ok(o)
    else
      var local := o.outbox[i];
      if !ProposalMatches(local.proposal, e) then Err(LogDivergence(e.sequence))
      else if local.AcceptedEntry? && (local.sequence != e.sequence || !eq(local.operation, e.operation)) then
        Err(DecisionConflict(e.operationId))
      else
        Ok(Overlay(
          RemoveAt(o.outbox, i),
          if local.PendingEntry? then o.newly + [Accepted(e.operationId, e.sequence, e.operation)] else o.newly))
  }

  function MergeEntry(p: Progress, e: Entry, base: int, interpreter: ReplicaInterpreter): Result<Progress> {
    if e.sequence <= base then Ok(p)
    else if e.sequence <= p.sequence then
      var i := e.sequence - base - 1;
      if i >= |p.log| then Err(LogGap(p.sequence + 1, e.sequence))
      else if !SamePosition(p.log[i], e, interpreter.areEqual) then Err(LogDivergence(e.sequence))
      else
        var overlay :- ResolveCommitted(p.overlay, e, interpreter.areEqual);
        Ok(p.(overlay := overlay))
    else if e.sequence != p.sequence + 1 then Err(LogGap(p.sequence + 1, e.sequence))
    else
      var overlay :- ResolveCommitted(p.overlay, e, interpreter.areEqual);
      Ok(Progress(overlay, e.sequence, interpreter.applyCommitted(p.state, e.operation), p.log + [e]))
  }

  function EntryStep(base: int, interpreter: ReplicaInterpreter): (Progress, Entry) -> Result<Progress> {
    (p, e) => MergeEntry(p, e, base, interpreter)
  }

  /** Keep an outbox entry, or drop an accepted one whose canonical entry is already confirmed. */
  function SettleEntry(kept: seq<OutboxEntry>, x: OutboxEntry, sequence: int, base: int, log: seq<Entry>, eq: Equality)
    : Result<seq<OutboxEntry>>
  {
    if x.PendingEntry? || x.sequence > sequence then Ok(kept + [x])
    else if x.sequence <= base then Err(CompactedSequence(x.sequence))
    else
      var i := x.sequence - base - 1;
      if i >= |log| then Err(LogGap(x.sequence, sequence + 1))
      else if !ProposalMatches(x.proposal, log[i]) then Err(LogDivergence(log[i].sequence))
      else if !eq(x.operation, log[i].operation) then Err(DecisionConflict(log[i].operationId))
      else Ok(kept)
  }

  function SettleStep(sequence: int, base: int, log: seq<Entry>, eq: Equality)
    : (seq<OutboxEntry>, OutboxEntry) -> Result<seq<OutboxEntry>>
  {
    (kept, x) => SettleEntry(kept, x, sequence, base, log, eq)
  }

  /** The three passes of a merge: decisions, entries, and receipts older than their entries. */
  function Absorb(r: Replica, response: Response, interpreter: ReplicaInterpreter): Result<Progress> {
    var eq := interpreter.areEqual;
    var base := RetainedBase(r);
    var overlay :- Fold(DecisionStep(eq), Overlay(r.outbox, []), response.decisions);
    var p :- Fold(EntryStep(base, interpreter),
                  Progress(overlay, r.confirmedSequence, r.confirmedState, r.confirmedLog),
                  response.entries);
    var outbox :- Fold(SettleStep(p.sequence, base, p.log, eq), [], p.overlay.outbox);
    Ok(p.(overlay := Overlay(outbox, p.overlay.newly)))
  }

  function Merge(r: Replica, response: Response, interpreter: ReplicaInterpreter): Result<Merged> {
    var valid := ResponseCheck(response, None);
    if valid.Fail? then Err(valid.error)
    else
      :- RetainedCheck(r);
      if response.requestedBase > r.confirmedSequence then
        Err(LogGap(r.confirmedSequence + 1, response.requestedBase + 1))
      else
        var p :- Absorb(r, response, interpreter);
        Ok(Merged(
          r.(confirmedSequence := p.sequence,
             confirmedState := p.state,
             confirmedLog := p.log,
             outbox := p.overlay.outbox),
          p.overlay.newly,
          p.sequence >= response.head))
  }

  /** The optimistic view: the confirmed state with the outbox applied on top. */
  function Materialize(state: State, outbox: seq<OutboxEntry>, interpreter: ReplicaInterpreter): State {
    if outbox == [] then state
    else
      var below := Materialize(state, outbox[..|outbox| - 1], interpreter);
      match outbox[|outbox| - 1]
      case PendingEntry(p) => interpreter.applyOptimistic(below, p.intent)
      case AcceptedEntry(_, _, operation) => interpreter.applyCommitted(below, operation)
  }

  method MaterializeOptimisticState(r: Replica, interpreter: ReplicaInterpreter) returns (result: State)
    ensures result == Materialize(r.confirmedState, r.outbox, interpreter)
  {
    result := r.confirmedState;
    var i := 0;
    while i < |r.outbox|
      invariant 0 <= i <= |r.outbox|
      invariant result == Materialize(r.confirmedState, r.outbox[..i], interpreter)
    {
      assert r.outbox[..i + 1][..i] == r.outbox[..i];
      match r.outbox[i] {
        case PendingEntry(p) => result := interpreter.applyOptimistic(result, p.intent);
        case AcceptedEntry(_, _, operation) => result := interpreter.applyCommitted(result, operation);
      }
      i := i + 1;
    }
    assert r.outbox[..i] == r.outbox;
  }

  method ResolveOutboxFromCommitted(outbox: seq<OutboxEntry>, committed: Entry, newly: seq<Decision>, eq: Equality)
    returns (r: Result<Overlay>)
    ensures r == ResolveCommitted(Overlay(outbox, newly), committed, eq)
  {
    var i := FindIndex(outbox, committed.operationId);
    if i == |outbox| {
      return Ok(Overlay(outbox, newly));
    }
    var local := outbox[i];
    if !ProposalMatches(local.proposal, committed) {
      return Err(LogDivergence(committed.sequence));
    }
    if local.AcceptedEntry? && (local.sequence != committed.sequence || !eq(local.operation, committed.operation)) {
      return Err(DecisionConflict(committed.operationId));
    }
    var learned := newly;
    if local.PendingEntry? {
      learned := learned + [Accepted(committed.operationId, committed.sequence, committed.operation)];
    }
    return Ok(Overlay(RemoveAt(outbox, i), learned));
  }

  method MergeSyncResponse(r: Replica, response: Response, interpreter: ReplicaInterpreter)
    returns (merged: Result<Merged>)
    ensures merged == Merge(r, response, interpreter)
  {
    var outcome := AssertSyncResponse(response, None);
    if outcome.Fail? {
      return Err(outcome.error);
    }
    var base;
    outcome, base := AssertRetainedConfirmedLog(r);
    if outcome.Fail? {
      return Err(outcome.error);
    }
    if response.requestedBase > r.confirmedSequence {
      return Err(LogGap(r.confirmedSequence + 1, response.requestedBase + 1));
    }
    var overlay := AbsorbDecisions(r.outbox, response.decisions, interpreter.areEqual);
    if overlay.Err? {
      return Err(overlay.error);
    }
    var progress := AbsorbEntries(
      Progress(overlay.value, r.confirmedSequence, r.confirmedState, r.confirmedLog), response.entries, base, interpreter);
    if progress.Err? {
      return Err(progress.error);
    }
    var p := progress.value;
    var settled := SettleReceipts(p.overlay.outbox, p.sequence, base, p.log, interpreter.areEqual);
    if settled.Err? {
      return Err(settled.error);
    }
    var next := r.(confirmedSequence := p.sequence, confirmedState := p.state, confirmedLog := p.log, outbox := settled.value);
    return Ok(Merged(next, p.overlay.newly, p.sequence >= response.head));
  }

  method AbsorbDecisions(before: seq<OutboxEntry>, decisions: seq<Decision>, eq: Equality) returns (r: Result<Overlay>)
    ensures r == Fold(DecisionStep(eq), Overlay(before, []), decisions)
  {
    ghost var start := Overlay(before, []);
    var outbox, newly := before, [];
    var k := 0;
    while k < |decisions|
      invariant 0 <= k <= |decisions|
      invariant Fold(DecisionStep(eq), start, decisions[..k]) == Ok(Overlay(outbox, newly))
    {
      var d := decisions[k];
      FoldNext(DecisionStep(eq), start, decisions, k);
      assert DecisionStep(eq)(Overlay(outbox, newly), d) == MergeDecision(Overlay(outbox, newly), d, eq);
      var i := FindIndex(outbox, d.operationId);
      if i < |outbox| {
        var local := outbox[i];
        if d.Rejected? {
          if local.AcceptedEntry? {
            FoldFails(DecisionStep(eq), start, decisions, k + 1);
            return Err(DecisionConflict(d.operationId));
          }
          outbox := RemoveAt(outbox, i);
          newly := newly + [d];
        } else if local.AcceptedEntry? {
          if local.sequence != d.sequence || !eq(local.operation, d.operation) {
            FoldFails(DecisionStep(eq), start, decisions, k + 1);
            return Err(DecisionConflict(d.operationId));
          }
        } else {
          outbox := outbox[i := AcceptedEntry(local.proposal, d.sequence, d.operation)];
          newly := newly + [d];
        }
      }
      k := k + 1;
    }
    assert decisions[..k] == decisions;
    return Ok(Overlay(outbox, newly));
  }

  method AbsorbEntries(start: Progress, entries: seq<Entry>, base: int, interpreter: ReplicaInterpreter)
    returns (r: Result<Progress>)
    ensures r == Fold(EntryStep(base, interpreter), start, entries)
  {
    var overlay, sequence, state, log := start.overlay, start.sequence, start.state, start.log;
    var k := 0;
    while k < |entries|
      invariant 0 <= k <= |entries|
      invariant Fold(EntryStep(base, interpreter), start, entries[..k]) == Ok(Progress(overlay, sequence, state, log))
    {
      var e := entries[k];
      ghost var p := Progress(overlay, sequence, state, log);
      FoldNext(EntryStep(base, interpreter), start, entries, k);
      assert EntryStep(base, interpreter)(p, e) == MergeEntry(p, e, base, interpreter);
      if MergeEntry(p, e, base, interpreter).Err? {
        FoldFails(EntryStep(base, interpreter), start, entries, k + 1);
      }
      if e.sequence > base {
        if e.sequence <= sequence {
          var i := e.sequence - base - 1;
          if i >= |log| {
            return Err(LogGap(sequence + 1, e.sequence));
          }
          if !SamePosition(log[i], e, interpreter.areEqual) {
            return Err(LogDivergence(e.sequence));
          }
        } else if e.sequence != sequence + 1 {
          return Err(LogGap(sequence + 1, e.sequence));
        }
        var resolved := ResolveOutboxFromCommitted(overlay.outbox, e, overlay.newly, interpreter.areEqual);
        if resolved.Err? {
          return Err(resolved.error);
        }
        overlay := resolved.value;
        if e.sequence > sequence {
          state := interpreter.applyCommitted(state, e.operation);
          sequence := e.sequence;
          log := log + [e];
        }
      }
      k := k + 1;
    }
    assert entries[..k] == entries;
    return Ok(Progress(overlay, sequence, state, log));
  }

  method SettleReceipts(outbox: seq<OutboxEntry>, sequence: int, base: int, log: seq<Entry>, eq: Equality)
    returns (r: Result<seq<OutboxEntry>>)
    ensures r == Fold(SettleStep(sequence, base, log, eq), [], outbox)
  {
    var kept: seq<OutboxEntry> := [];
    var k := 0;
    while k < |outbox|
      invariant 0 <= k <= |outbox|
      invariant Fold(SettleStep(sequence, base, log, eq), [], outbox[..k]) == Ok(kept)
    {
      FoldNext(SettleStep(sequence, base, log, eq), [], outbox, k);
      var next := SettleEntry(kept, outbox[k], sequence, base, log, eq);
      if next.Err? {
        FoldFails(SettleStep(sequence, base, log, eq), [], outbox, k + 1);
        return next;
      }
      kept := next.value;
      k := k + 1;
    }
    assert outbox[..k] == outbox;
    return Ok(kept);
  }
}
