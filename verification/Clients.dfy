/** What holds of one client and the authority at every moment, and how each event keeps it. The
    client's durable record is src/indexeddb/schema.ts:23-39; the other fields are its history. */
module Clients {
  import opened Protocol
  import opened Validators
  import opened LogServer
  import opened Replicas
  import opened MergeLaws
  import opened Knowledge
  import opened DurableRecords

  /** History: the proposals issued so far and the first sequence they use, the operations whose
      decisions have arrived, every outcome reported so far, and those acknowledged. */
  datatype Client = Client(
    first: int,
    record: Record,
    issued: seq<Proposal>,
    decided: set<string>,
    reported: seq<Decision>,
    acknowledged: set<string>)

  const NOTHING: Known := Known(0, {})

  function KnownTo(c: Client): Known { Known(c.record.replica.confirmedSequence, c.decided) }

  /* ---- The authority's side of one client's proposals ---- */

  ghost predicate ValidIssue(id: string, first: int, issued: seq<Proposal>) {
    && id != ""
    && 1 <= first && first + |issued| <= MAX_SAFE
    && (forall i | 0 <= i < |issued| ::
          && issued[i].clientId == id
          && issued[i].clientSequence == first + i
          && issued[i].operationId != "" && issued[i].intentHash != "")
    && DistinctProposals(issued)
  }

  /** Whatever the authority decided under the client's name, the client issued. */
  ghost predicate Owned(id: string, first: int, issued: seq<Proposal>, a: Authority) {
    forall k | k in a.decisions && a.decisions[k].clientId == id ::
      var i := a.decisions[k].clientSequence - first;
      0 <= i < |issued| && issued[i].operationId == k
  }

  /** The decided proposals are a prefix of the issued ones. */
  ghost predicate InOrder(issued: seq<Proposal>, a: Authority) {
    forall i, j | 0 <= i < j < |issued| && issued[j].operationId in a.decisions ::
      issued[i].operationId in a.decisions
  }

  /** The state before the entry at sequence n + 1. */
  function StateAt(w: World, a: Authority, n: int): State
    requires 0 <= n <= |a.log|
  {
    Replay(w.log.apply, w.initial, a.log[..n])
  }

  /** The decision is the interpreter's own: an acceptance made on the state just before its entry,
      a rejection made on some state of the log. */
  ghost predicate JudgedFairly(w: World, p: Proposal, a: Authority)
    requires p.operationId in a.decisions
  {
    match a.decisions[p.operationId].decision
    case Accepted(_, sequence, operation) =>
      1 <= sequence <= |a.log| && w.log.decide(StateAt(w, a, sequence - 1), p) == Accept(operation)
    case Rejected(_, reason) =>
      exists n :: 0 <= n <= |a.log| && w.log.decide(StateAt(w, a, n), p) == Reject(reason)
  }

  ghost predicate Judged(w: World, issued: seq<Proposal>, a: Authority) {
    forall p | p in issued && p.operationId in a.decisions :: JudgedFairly(w, p, a)
  }

  ghost predicate IssueInv(w: World, id: string, first: int, issued: seq<Proposal>, a: Authority) {
    && ValidIssue(id, first, issued)
    && Attributed(issued, a)
    && Owned(id, first, issued, a)
    && InOrder(issued, a)
    && Judged(w, issued, a)
  }

  /** Canonical order respects each client's own order. */
  ghost predicate Fifo(log: seq<Entry>) {
    forall i, j | 0 <= i < j < |log| && log[i].origin.clientId == log[j].origin.clientId ::
      log[i].origin.clientSequence < log[j].origin.clientSequence
  }

  lemma JudgedStays(w: World, p: Proposal, a: Authority, b: Authority)
    requires p.operationId in a.decisions && JudgedFairly(w, p, a) && Extends(a, b)
    ensures p.operationId in b.decisions && JudgedFairly(w, p, b)
  {
    forall n | 0 <= n <= |a.log| ensures StateAt(w, b, n) == StateAt(w, a, n) {
      assert b.log[..|a.log|][..n] == b.log[..n];
    }
  }

  /** The proposal is the next of its client: everything issued before it is decided. */
  ghost predicate IsNext(issued: seq<Proposal>, m: nat, a: Authority) {
    m < |issued| && forall i | 0 <= i < m :: issued[i].operationId in a.decisions
  }

  /** A position of the client's that is taken is taken by the proposal issued for it. */
  lemma PositionTaken(w: World, id: string, first: int, issued: seq<Proposal>, a: Authority, sequence: int)
    requires Coherent(w, a) && Owned(id, first, issued, a)
    requires (id, sequence) in a.positions
    ensures 0 <= sequence - first < |issued|
    ensures issued[sequence - first].operationId == a.positions[(id, sequence)]
  {
  }

  lemma OwnProposalIsDecided(w: World, id: string, first: int, issued: seq<Proposal>, a: Authority, m: nat)
    requires Coherent(w, a) && IssueInv(w, id, first, issued, a) && IsNext(issued, m, a)
    ensures DecideProposal(w.log, a, issued[m]).Ok?
  {
    assert issued[m] in issued;
    if (id, first + m) in a.positions {
      PositionTaken(w, id, first, issued, a, first + m);
    }
  }

  lemma OwnProposalKeepsIssue(w: World, id: string, first: int, issued: seq<Proposal>, a: Authority, m: nat)
    requires Coherent(w, a) && IssueInv(w, id, first, issued, a) && IsNext(issued, m, a)
    requires DecideProposal(w.log, a, issued[m]).Ok?
    ensures IssueInv(w, id, first, issued, DecideProposal(w.log, a, issued[m]).value.after)
  {
    var p := issued[m];
    var b := DecideProposal(w.log, a, p).value.after;
    assert p in issued;
    DecideProposalKeepsCoherence(w, a, p);
    NewDecisionIsFair(w, a, p);
    hide *;
    IssueParts(w, id, first, issued, a);
    ExtendsMeans(a, b);
    OwnDecisionsStayFair(w, issued, a, b, p);
    OwnDecisionsStayOwned(id, first, issued, a, b, m);
    DecidedPrefixGrows(id, first, issued, a, b, m);
    IssueFromParts(w, id, first, issued, b);
  }

  lemma IssueParts(w: World, id: string, first: int, issued: seq<Proposal>, a: Authority)
    requires IssueInv(w, id, first, issued, a)
    ensures ValidIssue(id, first, issued) && Attributed(issued, a) && Owned(id, first, issued, a)
    ensures InOrder(issued, a) && Judged(w, issued, a) && DistinctProposals(issued)
  {
  }

  lemma IssueFromParts(w: World, id: string, first: int, issued: seq<Proposal>, a: Authority)
    requires ValidIssue(id, first, issued) && Attributed(issued, a) && Owned(id, first, issued, a)
    requires InOrder(issued, a) && Judged(w, issued, a)
    ensures IssueInv(w, id, first, issued, a)
  {
  }

  lemma ExtendsMeans(a: Authority, b: Authority)
    requires Extends(a, b)
    ensures forall k | k in a.decisions :: k in b.decisions && b.decisions[k] == a.decisions[k]
    ensures |a.log| <= |b.log| && b.log[..|a.log|] == a.log
  {
  }

  lemma OwnDecisionsStayFair(w: World, issued: seq<Proposal>, a: Authority, b: Authority, p: Proposal)
    requires Attributed(issued, a) && Judged(w, issued, a) && Extends(a, b) && DistinctProposals(issued)
    requires b.decisions.Keys == a.decisions.Keys + {p.operationId} && p in issued
    requires Remembers(b, p) && (p.operationId !in a.decisions ==> JudgedFairly(w, p, b))
    ensures Attributed(issued, b) && Judged(w, issued, b)
  {
    hide JudgedFairly, DistinctProposals;
    forall q | q in issued && q.operationId in b.decisions ensures Remembers(b, q) && JudgedFairly(w, q, b) {
      if q.operationId in a.decisions {
        JudgedStays(w, q, a, b);
      } else {
        SameIdSameProposal(issued, q, p);
      }
    }
  }

  lemma OwnDecisionsStayOwned(id: string, first: int, issued: seq<Proposal>, a: Authority, b: Authority, m: nat)
    requires ValidIssue(id, first, issued) && Owned(id, first, issued, a) && m < |issued|
    requires forall k | k in a.decisions :: k in b.decisions && b.decisions[k] == a.decisions[k]
    requires b.decisions.Keys == a.decisions.Keys + {issued[m].operationId} && Remembers(b, issued[m])
    ensures Owned(id, first, issued, b)
  {
    forall k | k in b.decisions && b.decisions[k].clientId == id
      ensures var i := b.decisions[k].clientSequence - first; 0 <= i < |issued| && issued[i].operationId == k
    {
      if k != issued[m].operationId {
        assert k in a.decisions;
      }
    }
  }

  lemma DecidedPrefixGrows(id: string, first: int, issued: seq<Proposal>, a: Authority, b: Authority, m: nat)
    requires ValidIssue(id, first, issued) && InOrder(issued, a) && IsNext(issued, m, a)
    requires b.decisions.Keys == a.decisions.Keys + {issued[m].operationId}
    ensures InOrder(issued, b)
  {
  }

  lemma SameIdSameProposal(issued: seq<Proposal>, p: Proposal, q: Proposal)
    requires DistinctProposals(issued) && p in issued && q in issued && p.operationId == q.operationId
    ensures p == q
  {
    var i :| 0 <= i < |issued| && issued[i] == p;
    var j :| 0 <= j < |issued| && issued[j] == q;
  }

  lemma NewDecisionIsFair(w: World, a: Authority, p: Proposal)
    requires Coherent(w, a) && DecideProposal(w.log, a, p).Ok?
    ensures var b := DecideProposal(w.log, a, p).value.after;
      p.operationId !in a.decisions ==> p.operationId in b.decisions && JudgedFairly(w, p, b)
  {
    var b := DecideProposal(w.log, a, p).value.after;
    assert b.log[..|a.log|] == a.log;
    assert StateAt(w, b, |a.log|) == a.state;
  }

  /** Another client's proposal touches nothing of this client's. */
  lemma OtherProposalKeepsIssue(w: World, id: string, first: int, issued: seq<Proposal>, a: Authority, p: Proposal)
    requires Coherent(w, a) && IssueInv(w, id, first, issued, a)
    requires ValidIdentity(p.operationId, p.clientId, p.clientSequence, p.intentHash)
    requires p.clientId != id && p.operationId !in ProposalIds(issued)
    requires DecideProposal(w.log, a, p).Ok?
    ensures IssueInv(w, id, first, issued, DecideProposal(w.log, a, p).value.after)
  {
    hide Coherent, DecideProposal, JudgedFairly, Extends, ValidIdentity;
    var b := DecideProposal(w.log, a, p).value.after;
    DecideProposalKeepsCoherence(w, a, p);
    ExtendsMeans(a, b);
    forall q | q in issued && q.operationId in b.decisions ensures Remembers(b, q) && JudgedFairly(w, q, b) {
      assert q.operationId in a.decisions;
      JudgedStays(w, q, a, b);
      RemembersStays(a, b, q);
    }
    assert Remembers(b, p);
    forall k | k in b.decisions && b.decisions[k].clientId == id ensures k in a.decisions && b.decisions[k] == a.decisions[k] {
    }
    forall i, j | 0 <= i < j < |issued| && issued[j].operationId in b.decisions ensures issued[i].operationId in b.decisions {
      assert issued[j] in issued && issued[j].operationId in a.decisions;
    }
  }

  lemma OwnProposalKeepsFifo(w: World, id: string, first: int, issued: seq<Proposal>, a: Authority, m: nat)
    requires Coherent(w, a) && IssueInv(w, id, first, issued, a) && IsNext(issued, m, a)
    requires Fifo(a.log) && DecideProposal(w.log, a, issued[m]).Ok?
    ensures Fifo(DecideProposal(w.log, a, issued[m]).value.after.log)
  {
    var p := issued[m];
    hide *;
    IssueParts(w, id, first, issued, a);
    IssuedHere(id, first, issued, m);
    CoherentLogIsRecorded(w, a);
    EarlierInLog(id, first, issued, a, m);
    LogGrowsBy(w, a, p);
    FifoGrows(a.log, DecideProposal(w.log, a, p).value.after.log, p);
  }

  lemma IssuedHere(id: string, first: int, issued: seq<Proposal>, m: nat)
    requires ValidIssue(id, first, issued) && m < |issued|
    ensures issued[m].clientId == id && issued[m].clientSequence == first + m
  {
  }

  lemma CoherentLogIsRecorded(w: World, a: Authority)
    requires Coherent(w, a)
    ensures forall i | 0 <= i < |a.log| :: LogServer.Records(a, a.log[i])
  {
    hide DecisionsCoherent, PositionsCoherent;
  }

  /** If the next proposal is new to the authority, all of the client's entries come before it. */
  lemma EarlierInLog(id: string, first: int, issued: seq<Proposal>, a: Authority, m: nat)
    requires Owned(id, first, issued, a) && ValidIssue(id, first, issued) && InOrder(issued, a) && m < |issued|
    requires forall i | 0 <= i < |a.log| :: LogServer.Records(a, a.log[i])
    ensures issued[m].operationId !in a.decisions ==>
      forall i | 0 <= i < |a.log| && a.log[i].origin.clientId == id :: a.log[i].origin.clientSequence < first + m
  {
    hide ValidIssue;
    if issued[m].operationId !in a.decisions {
      forall i | 0 <= i < |a.log| && a.log[i].origin.clientId == id
        ensures a.log[i].origin.clientSequence < first + m
      {
        assert LogServer.Records(a, a.log[i]);
        var n := a.decisions[a.log[i].operationId].clientSequence - first;
        assert issued[n].operationId == a.log[i].operationId;
      }
    }
  }

  lemma LogGrowsBy(w: World, a: Authority, p: Proposal)
    requires DecideProposal(w.log, a, p).Ok?
    ensures var b := DecideProposal(w.log, a, p).value.after;
      || b.log == a.log
      || (p.operationId !in a.decisions && |b.log| == |a.log| + 1 && b.log[..|a.log|] == a.log
          && b.log[|a.log|].origin == Origin(p.clientId, p.clientSequence, p.intentHash))
  {
  }

  lemma FifoGrows(log: seq<Entry>, longer: seq<Entry>, p: Proposal)
    requires Fifo(log)
    requires || longer == log
             || (&& |longer| == |log| + 1 && longer[..|log|] == log
                 && longer[|log|].origin == Origin(p.clientId, p.clientSequence, p.intentHash)
                 && forall i | 0 <= i < |log| && log[i].origin.clientId == p.clientId ::
                      log[i].origin.clientSequence < p.clientSequence)
    ensures Fifo(longer)
  {
    if longer != log {
      assert forall i | 0 <= i < |log| :: longer[i] == longer[..|log|][i] == log[i];
    }
  }

  /* ---- The client's side ---- */

  ghost predicate ReplicaInv(w: World, id: string, c: Client, streamId: string, a: Authority) {
    var r := c.record.replica;
    && c.record.schemaVersion == SCHEMA_VERSION && c.record.streamId == streamId
    && r.clientId == id
    && r.nextClientSequence == c.first + |c.issued|
    && Represents(w, r, c.issued, KnownTo(c), a)
    && Learned(c.reported, c.issued, NOTHING, KnownTo(c), a)
    && c.acknowledged <= DecisionIds(c.reported)
    && c.record.resolutions == Unacknowledged(c.reported, c.acknowledged)
  }

  ghost predicate ClientInv(w: World, id: string, c: Client, streamId: string, a: Authority) {
    && IssueInv(w, id, c.first, c.issued, a)
    && ReplicaInv(w, id, c, streamId, a)
  }

  /** What is accepted within a's log was decided in a. */
  lemma AcceptedWithinLog(w: World, a: Authority, b: Authority, id: string)
    requires Coherent(w, a) && Coherent(w, b) && Extends(a, b)
    requires id in b.decisions && b.decisions[id].decision.Accepted?
    ensures b.decisions[id].decision.sequence <= |a.log| ==> id in a.decisions
  {
    assert StoredCoherent(b, id);
    var i := b.decisions[id].decision.sequence - 1;
    if i < |a.log| {
      assert b.log[..|a.log|][i] == a.log[i];
      assert LogServer.Records(a, a.log[i]);
    }
  }

  /** A decision made after the client's last contact is still open to it. */
  lemma ViewStays(w: World, p: Proposal, k: Known, a: Authority, b: Authority)
    requires Coherent(w, a) && Coherent(w, b) && Extends(a, b)
    requires k.cursor <= |a.log| && k.decided <= a.decisions.Keys
    ensures IsOpen(p.operationId, k, a) <==> IsOpen(p.operationId, k, b)
    ensures View(p, k, a) == View(p, k, b)
  {
    var id := p.operationId;
    hide Coherent;
    if id in b.decisions && b.decisions[id].decision.Accepted? {
      AcceptedWithinLog(w, a, b, id);
    }
  }

  lemma KnowledgeStays(w: World, issued: seq<Proposal>, k: Known, a: Authority, b: Authority)
    requires Coherent(w, a) && Coherent(w, b) && Extends(a, b)
    requires k.cursor <= |a.log| && k.decided <= a.decisions.Keys
    ensures Project(issued, k, a) == Project(issued, k, b)
    ensures Unresolved(issued, k, a) == Unresolved(issued, k, b)
  {
    hide Coherent, IsOpen, View;
    forall p | p in issued
      ensures View(p, k, a) == View(p, k, b)
      ensures IsOpen(p.operationId, k, a) <==> IsOpen(p.operationId, k, b)
    {
      ViewStays(w, p, k, a, b);
    }
    ProjectSame(issued, k, a, k, b);
  }

  lemma RepresentsStays(w: World, r: Replica, issued: seq<Proposal>, k: Known, a: Authority, b: Authority)
    requires Coherent(w, a) && Coherent(w, b) && Extends(a, b)
    requires Represents(w, r, issued, k, a)
    ensures Represents(w, r, issued, k, b)
  {
    KnowledgeStays(w, issued, k, a, b);
    hide Coherent, Project, Unresolved;
    assert b.log[..|a.log|][..k.cursor] == b.log[..k.cursor];
    assert b.log[..|a.log|][RetainedBase(r)..k.cursor] == b.log[RetainedBase(r)..k.cursor];
  }

  lemma LearnedStays(w: World, ds: seq<Decision>, issued: seq<Proposal>, k: Known, l: Known, a: Authority, b: Authority)
    requires Coherent(w, a) && Coherent(w, b) && Extends(a, b)
    requires k.cursor <= |a.log| && k.decided <= a.decisions.Keys
    requires l.cursor <= |a.log| && l.decided <= a.decisions.Keys
    requires Learned(ds, issued, k, l, a)
    ensures Learned(ds, issued, k, l, b)
  {
    hide Coherent, Unresolved, Project;
    KnowledgeStays(w, issued, k, a, b);
    KnowledgeStays(w, issued, l, a, b);
  }

  lemma ReplicaInvStays(w: World, id: string, c: Client, streamId: string, a: Authority, b: Authority)
    requires Coherent(w, a) && Coherent(w, b) && Extends(a, b)
    requires ReplicaInv(w, id, c, streamId, a)
    ensures ReplicaInv(w, id, c, streamId, b)
  {
    hide Coherent, Extends, Learned, Project, Replay;
    RepresentsStays(w, c.record.replica, c.issued, KnownTo(c), a, b);
    LearnedStays(w, c.reported, c.issued, NOTHING, KnownTo(c), a, b);
  }

  /** At the start everything issued is open. */
  lemma NothingIsKnown(w: World, issued: seq<Proposal>, a: Authority)
    requires Coherent(w, a)
    ensures Unresolved(issued, NOTHING, a) == ProposalIds(issued)
  {
    forall p | p in issued ensures IsOpen(p.operationId, NOTHING, a) {
      assert p.operationId in a.decisions ==> StoredCoherent(a, p.operationId);
    }
  }

  /* ---- The record is always one the validator accepts ---- */

  lemma HonestRecordIsValid(w: World, id: string, c: Client, streamId: string, a: Authority)
    requires Sound(w, a) && ClientInv(w, id, c, streamId, a)
    ensures ValidRecord(c.record, streamId)
    ensures Disjoint(c.record.replica.outbox, c.record.replica.confirmedLog)
    ensures DistinctOutbox(c.record.replica.outbox)
  {
    hide ValidConfirmed, ValidOutbox, ValidResolutions, ValidHeader, Sound, Project, Unacknowledged, Learned, IssueInv;
    IssueParts(w, id, c.first, c.issued, a);
    ConfirmedLogIsValid(w, id, c, streamId, a);
    OutboxIsValid(w, id, c, streamId, a);
    ResolutionsAreValid(w, c, a);
    ProjectedAreDistinct(c.issued, KnownTo(c), a);
  }

  lemma ConfirmedLogIsValid(w: World, id: string, c: Client, streamId: string, a: Authority)
    requires Sound(w, a) && ClientInv(w, id, c, streamId, a)
    ensures ValidHeader(c.record.replica)
    ensures ValidConfirmed(c.record.replica, |c.record.replica.confirmedLog|)
  {
    hide *;
    var r := c.record.replica;
    InvIsParts(w, id, c, streamId, a);
    IssueParts(w, id, c.first, c.issued, a);
    ReplicaParts(w, id, c, streamId, a);
    SoundMeans(w, a);
    CoherentLogIsValid(w, a);
    HeaderIsValid(id, c, a);
    SliceIsDistinct(a.log, r.confirmedLog, RetainedBase(r));
    forall i | 0 <= i < |r.confirmedLog| ensures ValidConfirmedEntry(r, i) {
      ConfirmedEntryIsValid(w, id, c, a, i);
    }
    ConfirmedFromParts(r);
  }

  lemma InvIsParts(w: World, id: string, c: Client, streamId: string, a: Authority)
    requires ClientInv(w, id, c, streamId, a)
    ensures IssueInv(w, id, c.first, c.issued, a) && ReplicaInv(w, id, c, streamId, a)
  {
    hide IssueInv, ReplicaInv;
  }

  lemma HeaderIsValid(id: string, c: Client, a: Authority)
    requires ValidIssue(id, c.first, c.issued) && |a.log| <= MAX_SAFE
    requires var r := c.record.replica;
      r.clientId == id && r.nextClientSequence == c.first + |c.issued| && 0 <= RetainedBase(r) <= KnownTo(c).cursor <= |a.log|
    ensures ValidHeader(c.record.replica)
  {
  }

  lemma ConfirmedEntryIsValid(w: World, id: string, c: Client, a: Authority, i: int)
    requires Coherent(w, a) && Owned(id, c.first, c.issued, a)
    requires var r := c.record.replica;
      && 0 <= i < |r.confirmedLog| && r.clientId == id && r.nextClientSequence == c.first + |c.issued|
      && 0 <= RetainedBase(r) + i < |a.log| && r.confirmedLog[i] == a.log[RetainedBase(r) + i]
      && ValidEntry(r.confirmedLog[i]) && r.confirmedLog[i].sequence == RetainedBase(r) + i + 1
    ensures ValidConfirmedEntry(c.record.replica, i)
  {
    hide DecisionsCoherent, PositionsCoherent, ValidEntry;
    assert LogServer.Records(a, a.log[RetainedBase(c.record.replica) + i]);
  }

  lemma ConfirmedFromParts(r: Replica)
    requires DistinctEntries(r.confirmedLog) && forall i | 0 <= i < |r.confirmedLog| :: ValidConfirmedEntry(r, i)
    ensures ValidConfirmed(r, |r.confirmedLog|)
  {
    hide ValidConfirmedEntry, DistinctEntries;
    assert r.confirmedLog[..|r.confirmedLog|] == r.confirmedLog;
  }

  lemma ReplicaParts(w: World, id: string, c: Client, streamId: string, a: Authority)
    requires ReplicaInv(w, id, c, streamId, a)
    ensures var r, k := c.record.replica, KnownTo(c);
      && r.clientId == id && r.nextClientSequence == c.first + |c.issued|
      && r.outbox == Project(c.issued, k, a)
      && 0 <= RetainedBase(r) <= k.cursor <= |a.log| && RetainedBase(r) + |r.confirmedLog| == k.cursor
      && forall j | 0 <= j < |r.confirmedLog| :: r.confirmedLog[j] == a.log[RetainedBase(r) + j]
  {
  }

  lemma OutboxIsValid(w: World, id: string, c: Client, streamId: string, a: Authority)
    requires Sound(w, a) && ClientInv(w, id, c, streamId, a)
    ensures ValidOutbox(c.record.replica, |c.record.replica.outbox|)
    ensures Disjoint(c.record.replica.outbox, c.record.replica.confirmedLog)
  {
    hide Represents, Learned, Project, IssueInv, ReplicaInv, Sound, ValidOutboxEntry, ValidIssue, View, Unacknowledged;
    var r, k := c.record.replica, KnownTo(c);
    var base := RetainedBase(r);
    ReplicaParts(w, id, c, streamId, a);
    IssueParts(w, id, c.first, c.issued, a);
    ProjectedAreIssued(c.issued, k, a);
    ProjectedAreDistinct(c.issued, k, a);
    ProjectedAreSorted(id, c.first, c.issued, k, a);
    forall i | 0 <= i < |r.outbox|
      ensures ValidOutboxEntry(r, r.outbox[i])
      ensures forall j | 0 <= j < |r.confirmedLog| ::
        && r.outbox[i].proposal.operationId != r.confirmedLog[j].operationId
        && (r.outbox[i].proposal.clientId, r.outbox[i].proposal.clientSequence) != PositionOf(r.confirmedLog[j])
    {
      assert r.outbox[i] in r.outbox;
      ProjectedEntryIsValid(w, id, c, streamId, a, r.outbox[i]);
      forall j | 0 <= j < |r.confirmedLog|
        ensures r.outbox[i].proposal.operationId != r.confirmedLog[j].operationId
        ensures (r.outbox[i].proposal.clientId, r.outbox[i].proposal.clientSequence) != PositionOf(r.confirmedLog[j])
      {
        OpenIsNotConfirmed(w, id, c, streamId, a, r.outbox[i], base + j);
      }
    }
  }

  ghost predicate Sorted(outbox: seq<OutboxEntry>) {
    forall i, j | 0 <= i < j < |outbox| :: outbox[i].proposal.clientSequence < outbox[j].proposal.clientSequence
  }

  lemma {:induction false} ProjectedAreSorted(id: string, first: int, issued: seq<Proposal>, k: Known, a: Authority)
    requires ValidIssue(id, first, issued)
    ensures Sorted(Project(issued, k, a))
  {
    if issued != [] {
      var init := issued[..|issued| - 1];
      ProjectedAreSorted(id, first, init, k, a);
      ProjectedAreIssued(init, k, a);
      var before, last := Project(init, k, a), View(issued[|issued| - 1], k, a);
      forall i | 0 <= i < |before| ensures before[i].proposal.clientSequence < issued[|issued| - 1].clientSequence {
        assert before[i] in before;
        var m :| 0 <= m < |init| && init[m] == before[i].proposal;
      }
      OneEntryEach(issued[|issued| - 1], k, a);
      var o := before + last;
      forall i, j | 0 <= i < j < |o| ensures o[i].proposal.clientSequence < o[j].proposal.clientSequence {
        assert o[i] == before[i];
        if j < |before| {
          assert o[j] == before[j];
        } else {
          assert o[j] in last;
        }
      }
    }
  }

  lemma ProjectedEntryIsValid(w: World, id: string, c: Client, streamId: string, a: Authority, x: OutboxEntry)
    requires Sound(w, a) && ClientInv(w, id, c, streamId, a)
    requires x.proposal in c.issued && x in View(x.proposal, KnownTo(c), a)
    ensures ValidOutboxEntry(c.record.replica, x)
  {
    var i :| 0 <= i < |c.issued| && c.issued[i] == x.proposal;
    if x.AcceptedEntry? {
      assert StoredCoherent(a, x.proposal.operationId);
    }
  }

  lemma OpenIsNotConfirmed(w: World, id: string, c: Client, streamId: string, a: Authority, x: OutboxEntry, s: int)
    requires Sound(w, a) && ClientInv(w, id, c, streamId, a)
    requires x.proposal in c.issued && x in View(x.proposal, KnownTo(c), a)
    requires 0 <= s < KnownTo(c).cursor
    ensures x.proposal.operationId != a.log[s].operationId
    ensures (x.proposal.clientId, x.proposal.clientSequence) != PositionOf(a.log[s])
  {
    hide *;
    InvIsParts(w, id, c, streamId, a);
    IssueParts(w, id, c.first, c.issued, a);
    ReplicaParts(w, id, c, streamId, a);
    SoundMeans(w, a);
    CoherentLogIsRecorded(w, a);
    EntryHasSequence(w, a, s);
    ViewedIsOutside(x, KnownTo(c), a, a.log[s]);
    OtherPosition(id, c.first, c.issued, a, x.proposal, a.log[s]);
  }

  lemma EntryHasSequence(w: World, a: Authority, s: int)
    requires Coherent(w, a) && 0 <= s < |a.log|
    ensures a.log[s].sequence == s + 1
  {
    hide DecisionsCoherent, PositionsCoherent;
  }

  /** What is in the outbox has no entry within the cursor. */
  lemma ViewedIsOutside(x: OutboxEntry, k: Known, a: Authority, e: Entry)
    requires x in View(x.proposal, k, a) && LogServer.Records(a, e) && e.sequence <= k.cursor
    ensures x.proposal.operationId != e.operationId
  {
  }

  lemma OtherPosition(id: string, first: int, issued: seq<Proposal>, a: Authority, p: Proposal, e: Entry)
    requires ValidIssue(id, first, issued) && Owned(id, first, issued, a) && LogServer.Records(a, e)
    requires p in issued && p.operationId != e.operationId
    ensures (p.clientId, p.clientSequence) != PositionOf(e)
  {
    var i :| 0 <= i < |issued| && issued[i] == p;
    hide DistinctProposals;
  }

  lemma ResolutionsAreValid(w: World, c: Client, a: Authority)
    requires Sound(w, a)
    requires Learned(c.reported, c.issued, NOTHING, KnownTo(c), a)
    requires c.record.resolutions == Unacknowledged(c.reported, c.acknowledged)
    ensures ValidResolutions(c.record.resolutions)
  {
    UnacknowledgedMembers(c.reported, c.acknowledged);
    forall i | 0 <= i < |c.record.resolutions|
      ensures c.record.resolutions[i].operationId != ""
      ensures c.record.resolutions[i].Accepted? ==> IsLogSequence(c.record.resolutions[i].sequence, false)
    {
      var d := c.record.resolutions[i];
      assert d in c.record.resolutions && d in c.reported;
      assert StoredCoherent(a, d.operationId);
    }
  }
}
