/** src/indexeddb/record.ts:12-31: what the four numbers of a client's status count, for any record and,
    in every reachable state, in terms of what the client issued and what it was told. */
module ClientStatus {
  import opened Protocol
  import opened Validators
  import opened LogServer
  import opened Replicas
  import opened MergeLaws
  import opened Knowledge
  import opened DurableRecords
  import opened Clients
  import opened ClientSteps
  import opened ProtocolRuns
  import opened Guarantees

  /* ---- Of a record ---- */

  function PendingIds(outbox: seq<OutboxEntry>): set<string> {
    set x | x in outbox && x.PendingEntry? :: x.proposal.operationId
  }

  function AcceptedIds(outbox: seq<OutboxEntry>): set<string> {
    set x | x in outbox && x.AcceptedEntry? :: x.proposal.operationId
  }

  /** Where no two entries are for the same operation, the operations can be counted. */
  lemma {:induction false} OutboxIsCounted(outbox: seq<OutboxEntry>)
    requires DistinctOutbox(outbox)
    ensures |Pendings(outbox)| == |PendingIds(outbox)|
    ensures |outbox| - |Pendings(outbox)| == |AcceptedIds(outbox)|
  {
    hide DistinctOutbox, PendingIds, AcceptedIds;
    if outbox == [] {
      NoIds();
    } else {
      var init, last := outbox[..|outbox| - 1], outbox[|outbox| - 1];
      assert outbox == init + [last];
      LastEntryIsNew(init, last);
      OutboxIsCounted(init);
      OneMoreId(init, last);
    }
  }

  lemma NoIds()
    ensures PendingIds([]) == {} && AcceptedIds([]) == {}
  {
  }

  lemma OneMoreId(init: seq<OutboxEntry>, last: OutboxEntry)
    ensures PendingIds(init + [last]) == PendingIds(init) + (if last.PendingEntry? then {last.proposal.operationId} else {})
    ensures AcceptedIds(init + [last]) == AcceptedIds(init) + (if last.AcceptedEntry? then {last.proposal.operationId} else {})
  {
    assert forall x :: x in init + [last] <==> x in init || x == last;
  }

  lemma LastEntryIsNew(init: seq<OutboxEntry>, last: OutboxEntry)
    requires DistinctOutbox(init + [last])
    ensures DistinctOutbox(init)
    ensures last.proposal.operationId !in PendingIds(init) && last.proposal.operationId !in AcceptedIds(init)
  {
    var outbox := init + [last];
    assert outbox[|init|] == last && forall i | 0 <= i < |init| :: outbox[i] == init[i];
    forall x | x in init ensures x.proposal.operationId != last.proposal.operationId {
      var i :| 0 <= i < |init| && init[i] == x;
    }
  }

  lemma {:induction false} DecisionsAreCounted(ds: seq<Decision>)
    requires DistinctDecisions(ds)
    ensures |ds| == |DecisionIds(ds)|
  {
    hide DistinctDecisions, DecisionIds;
    if ds == [] {
      NoDecisionIds();
    } else {
      var init, last := ds[..|ds| - 1], ds[|ds| - 1];
      assert ds == init + [last];
      LastDecisionIsNew(init, last);
      DecisionsAreCounted(init);
      DecisionIdsOneMore(init, last);
    }
  }

  lemma NoDecisionIds()
    ensures DecisionIds([]) == {}
  {
  }

  lemma LastDecisionIsNew(init: seq<Decision>, last: Decision)
    ensures DistinctDecisions(init + [last]) <==> DistinctDecisions(init) && last.operationId !in DecisionIds(init)
  {
    var ds := init + [last];
    assert ds[|init|] == last && forall i | 0 <= i < |init| :: ds[i] == init[i];
    if DistinctDecisions(ds) {
      forall i, j | 0 <= i < j < |init| ensures init[i].operationId != init[j].operationId {
        assert ds[i].operationId != ds[j].operationId;
      }
      forall d | d in init ensures d.operationId != last.operationId {
        var i :| 0 <= i < |init| && init[i] == d;
      }
    }
    if DistinctDecisions(init) && last.operationId !in DecisionIds(init) {
      forall i | 0 <= i < |init| ensures ds[i].operationId != last.operationId {
        assert init[i] in init;
      }
    }
  }

  /* ---- Of a client ---- */

  /** Issued, and its decision has not reached the client. */
  function Undecided(c: Client): set<string> { ProposalIds(c.issued) - DecisionIds(c.reported) }

  /** Known to be accepted, beyond the cursor. */
  function Awaited(c: Client): set<string> {
    set d | d in c.reported && d.Accepted? && d.sequence > c.record.replica.confirmedSequence :: d.operationId
  }

  lemma PendingIsUndecided(w: World, id: string, c: Client, streamId: string, a: Authority)
    requires Sound(w, a) && ClientInv(w, id, c, streamId, a)
    ensures PendingIds(c.record.replica.outbox) == Undecided(c)
  {
    hide *;
    ClientParts(w, id, c, streamId, a);
    ReplicaParts(w, id, c, streamId, a);
    ReportsAndInbox(w, id, c, streamId, a);
    ProjectedAreIssued(c.issued, KnownTo(c), a);
    SameUndecided(c);
  }

  lemma SameUndecided(c: Client)
    requires forall x | x in c.record.replica.outbox :: x.proposal in c.issued
    requires forall p | p in c.issued :: p.operationId in DecisionIds(c.reported) <==> PendingEntry(p) !in c.record.replica.outbox
    ensures PendingIds(c.record.replica.outbox) == Undecided(c)
  {
    hide DecisionIds;
    var outbox := c.record.replica.outbox;
    forall id | id in PendingIds(outbox) ensures id in Undecided(c) {
      var x :| x in outbox && x.PendingEntry? && x.proposal.operationId == id;
      assert x == PendingEntry(x.proposal) && x.proposal in c.issued;
    }
    forall id | id in Undecided(c) ensures id in PendingIds(outbox) {
      var p :| p in c.issued && p.operationId == id;
      assert PendingEntry(p) in outbox;
    }
  }

  lemma AcceptedIsAwaited(w: World, id: string, c: Client, streamId: string, a: Authority)
    requires Sound(w, a) && ClientInv(w, id, c, streamId, a)
    ensures AcceptedIds(c.record.replica.outbox) == Awaited(c)
  {
    hide *;
    ClientParts(w, id, c, streamId, a);
    ReplicaParts(w, id, c, streamId, a);
    ReportsAndInbox(w, id, c, streamId, a);
    forall p | p in c.issued
      ensures forall x: OutboxEntry | x.proposal == p :: x in c.record.replica.outbox <==> x in View(p, KnownTo(c), a)
      ensures p.operationId in DecisionIds(c.reported) <==> !IsOpen(p.operationId, KnownTo(c), a)
    {
      OutboxShows(c.issued, KnownTo(c), a, p);
      ReportsShow(w, c, a, p);
    }
    ProjectedAreIssued(c.issued, KnownTo(c), a);
    SameAwaited(c, a);
  }

  lemma SameAwaited(c: Client, a: Authority)
    requires forall x | x in c.record.replica.outbox :: x.proposal in c.issued
    requires forall p | p in c.issued ::
      && (forall x: OutboxEntry | x.proposal == p :: x in c.record.replica.outbox <==> x in View(p, KnownTo(c), a))
      && (p.operationId in DecisionIds(c.reported) <==> !IsOpen(p.operationId, KnownTo(c), a))
    requires DecisionIds(c.reported) <= ProposalIds(c.issued)
    requires forall d | d in c.reported :: d.operationId in a.decisions && a.decisions[d.operationId].decision == d
    ensures AcceptedIds(c.record.replica.outbox) == Awaited(c)
  {
    var outbox := c.record.replica.outbox;
    forall id | id in AcceptedIds(outbox) ensures id in Awaited(c) {
      var x :| x in outbox && x.AcceptedEntry? && x.proposal.operationId == id;
      assert x in View(x.proposal, KnownTo(c), a);
      var d :| d in c.reported && d.operationId == id;
    }
    forall id | id in Awaited(c) ensures id in AcceptedIds(outbox) {
      var d :| d in c.reported && d.Accepted? && d.sequence > c.record.replica.confirmedSequence && d.operationId == id;
      assert id in DecisionIds(c.reported);
      var p :| p in c.issued && p.operationId == id;
      assert AcceptedEntry(p, d.sequence, d.operation) in View(p, KnownTo(c), a);
    }
  }

  /** In every reachable state, of the record that a client stores: confirmed is its cursor, pending is
      how many operations it issued whose decision has not reached it, awaiting how many it knows to be
      accepted beyond its cursor, and unacknowledged how many were reported and not acknowledged. */
  lemma StatusCounts(w: World, s: System, id: string)
    requires Lawful(w) && Reachable(w, s) && id in s.clients
    ensures var c, status := s.clients[id], StatusOf(s.clients[id].record);
      && status.confirmed == c.record.replica.confirmedSequence
      && status.pending == |Undecided(c)|
      && status.awaiting == |Awaited(c)|
      && status.unacknowledged == |DecisionIds(c.reported) - c.acknowledged|
  {
    hide *;
    var c := s.clients[id];
    ReachableIsSafe(w, s);
    ClientOf(w, s, id);
    ClientParts(w, id, c, s.streamId, s.authority);
    ReplicaParts(w, id, c, s.streamId, s.authority);
    ReportsAndInbox(w, id, c, s.streamId, s.authority);
    PendingIsUndecided(w, id, c, s.streamId, s.authority);
    AcceptedIsAwaited(w, id, c, s.streamId, s.authority);
    ProjectedAreDistinct(c.issued, KnownTo(c), s.authority);
    OutboxIsCounted(c.record.replica.outbox);
    InboxIsCounted(c, s.streamId);
    StatusMeans(c.record);
  }

  lemma StatusMeans(record: Record)
    ensures var status, outbox := StatusOf(record), record.replica.outbox;
      && status.confirmed == record.replica.confirmedSequence
      && status.pending == |Pendings(outbox)| && status.awaiting == |outbox| - |Pendings(outbox)|
      && status.unacknowledged == |record.resolutions|
  {
  }

  lemma InboxIsCounted(c: Client, streamId: string)
    requires InboxExact(c) && ValidRecord(c.record, streamId)
    ensures |c.record.resolutions| == |DecisionIds(c.reported) - c.acknowledged|
  {
    hide ValidHeader, ValidConfirmed, ValidOutbox;
    DecisionsAreCounted(c.record.resolutions);
    hide DistinctDecisions;
    assert DecisionIds(c.record.resolutions) == DecisionIds(c.reported) - c.acknowledged;
  }

  /* ---- New reports ---- */

  /** The first of the received decisions on its operation. */
  ghost predicate IsFirst(received: seq<Decision>, i: nat)
    requires i < |received|
  {
    forall k | 0 <= k < i :: received[k].operationId != received[i].operationId
  }

  /** The positions in increasing order that hold the first decision on an operation without one so far. */
  ghost predicate AreNew(existing: seq<Decision>, received: seq<Decision>, at: seq<nat>) {
    && (forall k | 0 <= k < |at| ::
          && at[k] < |received| && IsFirst(received, at[k])
          && received[at[k]].operationId !in DecisionIds(existing))
    && (forall k, l | 0 <= k < l < |at| :: at[k] < at[l])
  }

  ghost predicate IsAppended(existing: seq<Decision>, received: seq<Decision>, at: seq<nat>, result: seq<Decision>)
    requires AreNew(existing, received, at)
  {
    && |result| == |existing| + |at|
    && (forall k | 0 <= k < |existing| :: result[k] == existing[k])
    && (forall k | 0 <= k < |at| :: result[|existing| + k] == received[at[k]])
  }

  /** Appending received decisions keeps the existing ones in place and adds, in the order of arrival,
      the first decision on each operation that has none yet; no operation is there twice. */
  lemma {:induction false} AppendedOnce(existing: seq<Decision>, received: seq<Decision>) returns (at: seq<nat>)
    requires DistinctDecisions(existing)
    ensures AreNew(existing, received, at) && IsAppended(existing, received, at, AppendUnique(existing, received))
    ensures DistinctDecisions(AppendUnique(existing, received))
    ensures DecisionIds(AppendUnique(existing, received)) == DecisionIds(existing) + DecisionIds(received)
  {
    hide DistinctDecisions, DecisionIds, AreNew, IsAppended;
    if received == [] {
      NoDecisionIds();
      at := [];
      NothingNew(existing);
    } else {
      var init, d := received[..|received| - 1], received[|received| - 1];
      assert received == init + [d];
      at := AppendedOnce(existing, init);
      var before := AppendUnique(existing, init);
      DecisionIdsOneMore(init, d);
      LaterPositions(existing, init, d, at, before);
      if d.operationId !in DecisionIds(before) {
        DecisionIdsOneMore(before, d);
        LastDecisionIsNew(before, d);
        OneMoreNew(existing, init, d, at, before);
        at := at + [|init|];
      }
    }
  }

  lemma NothingNew(existing: seq<Decision>)
    ensures AreNew(existing, [], []) && IsAppended(existing, [], [], existing)
  {
  }

  lemma LaterPositions(existing: seq<Decision>, init: seq<Decision>, d: Decision, at: seq<nat>, result: seq<Decision>)
    requires AreNew(existing, init, at) && IsAppended(existing, init, at, result)
    ensures AreNew(existing, init + [d], at) && IsAppended(existing, init + [d], at, result)
  {
    assert forall i | 0 <= i < |init| :: (init + [d])[i] == init[i];
    assert forall i: nat | i < |init| && IsFirst(init, i) :: IsFirst(init + [d], i);
  }

  lemma OneMoreNew(existing: seq<Decision>, init: seq<Decision>, d: Decision, at: seq<nat>, before: seq<Decision>)
    requires AreNew(existing, init, at) && IsAppended(existing, init, at, before)
    requires DecisionIds(before) == DecisionIds(existing) + DecisionIds(init) && d.operationId !in DecisionIds(before)
    ensures AreNew(existing, init + [d], at + [|init|])
    ensures IsAppended(existing, init + [d], at + [|init|], before + [d])
  {
    LaterPositions(existing, init, d, at, before);
    var received := init + [d];
    assert IsFirst(received, |init|) by {
      forall k | 0 <= k < |init| ensures received[k].operationId != d.operationId {
        assert init[k] in init && init[k].operationId in DecisionIds(init);
      }
    }
    hide IsFirst, DecisionIds;
  }
}
