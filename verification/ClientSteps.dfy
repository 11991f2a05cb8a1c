/** Every event of a client keeps its invariant, and none of them can raise an error: not the
    reducers of src/replica.ts, and not the validator that src/indexeddb/store.ts runs before and
    after each of them. */
module ClientSteps {
  import opened Protocol
  import opened Validators
  import opened LogServer
  import opened Replicas
  import opened MergeLaws
  import opened Knowledge
  import opened DurableRecords
  import opened Clients

  /** What a client's history never loses. */
  ghost predicate Continues(c: Client, next: Client) {
    && next.first == c.first
    && c.issued <= next.issued
    && KnownTo(c).cursor <= KnownTo(next).cursor
    && c.decided <= next.decided
    && c.reported <= next.reported
    && c.acknowledged <= next.acknowledged
  }

  /* ---- Enqueue ---- */

  function Enqueued(c: Client, streamId: string, operationId: string, intentHash: string, intent: Intent): Result<Client> {
    var record :- StoreEnqueue(c.record, streamId, operationId, intentHash, intent);
    var p := Proposal(operationId, c.record.replica.clientId, c.record.replica.nextClientSequence, intentHash, intent);
    Ok(c.(record := record, issued := c.issued + [p]))
  }

  lemma EnqueueKeeps(w: World, id: string, c: Client, streamId: string, a: Authority,
                     operationId: string, intentHash: string, intent: Intent)
    requires Sound(w, a) && ClientInv(w, id, c, streamId, a)
    requires operationId != "" && intentHash != ""
    requires operationId !in ProposalIds(c.issued) && operationId !in a.decisions
    requires c.first + |c.issued| < MAX_SAFE
    ensures Enqueued(c, streamId, operationId, intentHash, intent).Ok?
    ensures var next := Enqueued(c, streamId, operationId, intentHash, intent).value;
      && ClientInv(w, id, next, streamId, a)
      && KnownTo(next) == KnownTo(c) && Continues(c, next)
      && next.issued == c.issued + [Proposal(operationId, id, c.first + |c.issued|, intentHash, intent)]
  {
    var r := c.record.replica;
    var p := Proposal(operationId, r.clientId, r.nextClientSequence, intentHash, intent);
    var record := c.record.(replica := r.(nextClientSequence := r.nextClientSequence + 1, outbox := r.outbox + [PendingEntry(p)]));
    var next := c.(record := record, issued := c.issued + [p]);
    hide *;
    EnqueueSucceeds(w, id, c, streamId, a, operationId, intentHash, intent);
    EnqueueKeepsIssue(w, id, c.first, c.issued, a, p);
    EnqueueKeepsReplica(w, id, c, streamId, a, next, p);
    InvFromParts(w, id, next, streamId, a);
    HonestRecordIsValid(w, id, c, streamId, a);
    HonestRecordIsValid(w, id, next, streamId, a);
    EnqueuedMeans(c, streamId, operationId, intentHash, intent, next, p);
  }

  lemma InvFromParts(w: World, id: string, c: Client, streamId: string, a: Authority)
    requires IssueInv(w, id, c.first, c.issued, a) && ReplicaInv(w, id, c, streamId, a)
    ensures ClientInv(w, id, c, streamId, a)
  {
  }

  lemma EnqueueSucceeds(w: World, id: string, c: Client, streamId: string, a: Authority,
                        operationId: string, intentHash: string, intent: Intent)
    requires Sound(w, a) && ClientInv(w, id, c, streamId, a)
    requires operationId != "" && intentHash != ""
    requires operationId !in ProposalIds(c.issued) && operationId !in a.decisions
    requires c.first + |c.issued| < MAX_SAFE
    ensures var r := c.record.replica;
      var p := Proposal(operationId, r.clientId, r.nextClientSequence, intentHash, intent);
      && Enqueue(r, operationId, intentHash, intent)
         == Ok(r.(nextClientSequence := r.nextClientSequence + 1, outbox := r.outbox + [PendingEntry(p)]))
      && r.clientId == id && r.nextClientSequence == c.first + |c.issued|
      && IssueInv(w, id, c.first, c.issued, a) && ReplicaInv(w, id, c, streamId, a)
  {
    hide *;
    ClientParts(w, id, c, streamId, a);
    ReplicaParts(w, id, c, streamId, a);
    NotInOutbox(c.issued, KnownTo(c), a, operationId);
    NotInLog(w, c, a, operationId);
    EnqueueIs(id, c.first, c.issued, c.record.replica, operationId, intentHash, intent);
  }

  lemma NotInOutbox(issued: seq<Proposal>, k: Known, a: Authority, operationId: string)
    requires operationId !in ProposalIds(issued)
    ensures operationId !in OutboxIds(Project(issued, k, a))
  {
    ProjectedAreIssued(issued, k, a);
  }

  lemma NotInLog(w: World, c: Client, a: Authority, operationId: string)
    requires Coherent(w, a) && Represents(w, c.record.replica, c.issued, KnownTo(c), a) && operationId !in a.decisions
    ensures operationId !in EntryIds(c.record.replica.confirmedLog)
  {
    var r := c.record.replica;
    hide Project, Replay, DecisionsCoherent, PositionsCoherent;
    forall e | e in r.confirmedLog ensures e.operationId in a.decisions {
      var j :| 0 <= j < |r.confirmedLog| && r.confirmedLog[j] == e;
      assert LogServer.Records(a, a.log[RetainedBase(r) + j]);
    }
  }

  lemma EnqueueIs(id: string, first: int, issued: seq<Proposal>, r: Replica, operationId: string, intentHash: string, intent: Intent)
    requires ValidIssue(id, first, issued) && first + |issued| < MAX_SAFE
    requires r.clientId == id && r.nextClientSequence == first + |issued| && ValidRetained(r)
    requires operationId != "" && intentHash != ""
    requires operationId !in OutboxIds(r.outbox) && operationId !in EntryIds(r.confirmedLog)
    ensures var p := Proposal(operationId, r.clientId, r.nextClientSequence, intentHash, intent);
      Enqueue(r, operationId, intentHash, intent)
      == Ok(r.(nextClientSequence := r.nextClientSequence + 1, outbox := r.outbox + [PendingEntry(p)]))
  {
    var checked := RetainedCheck(r);
    hide RetainedCheck, ValidRetained, OutboxIds, EntryIds;
  }

  lemma EnqueueKeepsIssue(w: World, id: string, first: int, issued: seq<Proposal>, a: Authority, p: Proposal)
    requires IssueInv(w, id, first, issued, a)
    requires p.clientId == id && p.clientSequence == first + |issued| && first + |issued| < MAX_SAFE
    requires p.operationId != "" && p.intentHash != ""
    requires p.operationId !in ProposalIds(issued) && p.operationId !in a.decisions
    ensures IssueInv(w, id, first, issued + [p], a)
  {
    hide JudgedFairly, Remembers;
    var longer := issued + [p];
    assert longer[|issued|] == p && forall i | 0 <= i < |issued| :: longer[i] == issued[i] && issued[i] in issued;
    assert forall q | q in longer :: q in issued || q == p;
  }

  lemma PendingIsProjected(issued: seq<Proposal>, p: Proposal, k: Known, a: Authority)
    requires p.operationId !in a.decisions
    ensures Project(issued + [p], k, a) == Project(issued, k, a) + [PendingEntry(p)]
    ensures Unresolved(issued + [p], k, a) == Unresolved(issued, k, a) + {p.operationId}
  {
    assert (issued + [p])[..|issued|] == issued;
    forall q ensures q in issued + [p] <==> q in issued || q == p {}
  }

  lemma EnqueueKeepsReplica(w: World, id: string, c: Client, streamId: string, a: Authority, next: Client, p: Proposal)
    requires ReplicaInv(w, id, c, streamId, a)
    requires p.operationId !in ProposalIds(c.issued) && p.operationId !in a.decisions
    requires var r := c.record.replica;
      next == c.(record := c.record.(replica := r.(nextClientSequence := r.nextClientSequence + 1,
                                                   outbox := r.outbox + [PendingEntry(p)])),
                 issued := c.issued + [p])
    ensures ReplicaInv(w, id, next, streamId, a)
  {
    hide *;
    ReplicaInvMeans(w, id, c, streamId, a);
    SameKnowledge(c, next);
    PendingIsProjected(c.issued, p, KnownTo(c), a);
    RepresentsOfLonger(w, c.record.replica, next.record.replica, c.issued, p, KnownTo(c), a);
    LearnedOfLonger(c.reported, c.issued, p, NOTHING, KnownTo(c), a);
    ReplicaInvFrom(w, id, next, streamId, a);
  }

  lemma ReplicaInvMeans(w: World, id: string, c: Client, streamId: string, a: Authority)
    requires ReplicaInv(w, id, c, streamId, a)
    ensures c.record.schemaVersion == SCHEMA_VERSION && c.record.streamId == streamId
    ensures c.record.replica.clientId == id && c.record.replica.nextClientSequence == c.first + |c.issued|
    ensures Represents(w, c.record.replica, c.issued, KnownTo(c), a)
    ensures Learned(c.reported, c.issued, NOTHING, KnownTo(c), a)
    ensures c.acknowledged <= DecisionIds(c.reported)
    ensures c.record.resolutions == Unacknowledged(c.reported, c.acknowledged)
  {
    hide Represents, Learned, Unacknowledged, DecisionIds;
  }

  lemma ReplicaInvFrom(w: World, id: string, c: Client, streamId: string, a: Authority)
    requires c.record.schemaVersion == SCHEMA_VERSION && c.record.streamId == streamId
    requires c.record.replica.clientId == id && c.record.replica.nextClientSequence == c.first + |c.issued|
    requires Represents(w, c.record.replica, c.issued, KnownTo(c), a)
    requires Learned(c.reported, c.issued, NOTHING, KnownTo(c), a)
    requires c.acknowledged <= DecisionIds(c.reported)
    requires c.record.resolutions == Unacknowledged(c.reported, c.acknowledged)
    ensures ReplicaInv(w, id, c, streamId, a)
  {
    hide Represents, Learned, Unacknowledged, DecisionIds;
  }

  lemma SameKnowledge(c: Client, next: Client)
    requires next.record.replica.confirmedSequence == c.record.replica.confirmedSequence && next.decided == c.decided
    ensures KnownTo(next) == KnownTo(c)
  {
  }

  lemma RepresentsOfLonger(w: World, r: Replica, s: Replica, issued: seq<Proposal>, p: Proposal, k: Known, a: Authority)
    requires Represents(w, r, issued, k, a)
    requires Project(issued + [p], k, a) == Project(issued, k, a) + [PendingEntry(p)]
    requires s == r.(nextClientSequence := r.nextClientSequence + 1, outbox := r.outbox + [PendingEntry(p)])
    ensures Represents(w, s, issued + [p], k, a)
  {
    hide Project, Replay;
  }

  /** An issue that nothing is known of adds nothing to what has been learned. */
  lemma LearnedOfLonger(ds: seq<Decision>, issued: seq<Proposal>, p: Proposal, k: Known, l: Known, a: Authority)
    requires Learned(ds, issued, k, l, a)
    requires p.operationId !in ProposalIds(issued) && p.operationId !in a.decisions
    ensures Learned(ds, issued + [p], k, l, a)
  {
    PendingIsProjected(issued, p, k, a);
    PendingIsProjected(issued, p, l, a);
    assert p.operationId !in Unresolved(issued, k, a) && p.operationId !in Unresolved(issued, l, a);
    hide Unresolved, DistinctDecisions;
    assert Unresolved(issued + [p], k, a) - Unresolved(issued + [p], l, a)
        == Unresolved(issued, k, a) - Unresolved(issued, l, a);
  }

  lemma EnqueuedMeans(c: Client, streamId: string, operationId: string, intentHash: string, intent: Intent,
                      next: Client, p: Proposal)
    requires p == Proposal(operationId, c.record.replica.clientId, c.record.replica.nextClientSequence, intentHash, intent)
    requires Enqueue(c.record.replica, operationId, intentHash, intent) == Ok(next.record.replica)
    requires next == c.(record := c.record.(replica := next.record.replica), issued := c.issued + [p])
    requires ValidRecord(c.record, streamId) && ValidRecord(next.record, streamId)
    ensures Enqueued(c, streamId, operationId, intentHash, intent) == Ok(next)
  {
    hide ValidRecord, Enqueue;
  }

  /* ---- Requests ---- */

  /** The issued proposals that are open, in order. */
  function OpenProposals(issued: seq<Proposal>, k: Known, a: Authority): seq<Proposal> {
    if issued == [] then []
    else
      var before := OpenProposals(issued[..|issued| - 1], k, a);
      if IsOpen(issued[|issued| - 1].operationId, k, a) then before + [issued[|issued| - 1]] else before
  }

  lemma {:induction false} PendingsConcat(xs: seq<OutboxEntry>, ys: seq<OutboxEntry>)
    ensures Pendings(xs + ys) == Pendings(xs) + Pendings(ys)
  {
    if ys == [] {
      assert xs + ys == xs;
    } else {
      assert (xs + ys)[..|xs + ys| - 1] == xs + ys[..|ys| - 1];
      PendingsConcat(xs, ys[..|ys| - 1]);
    }
  }

  lemma {:induction false} PendingsAreOpen(issued: seq<Proposal>, k: Known, a: Authority)
    ensures Pendings(Project(issued, k, a)) == OpenProposals(issued, k, a)
  {
    if issued != [] {
      var last := View(issued[|issued| - 1], k, a);
      PendingsAreOpen(issued[..|issued| - 1], k, a);
      PendingsConcat(Project(issued[..|issued| - 1], k, a), last);
      assert |last| == 1 ==> last[..0] == [];
    }
  }

  /** Increasing client sequences. */
  ghost predicate Ascending(ps: seq<Proposal>) {
    forall i, j | 0 <= i < j < |ps| :: ps[i].clientSequence < ps[j].clientSequence
  }

  lemma {:induction false} OpenAreAscending(id: string, first: int, issued: seq<Proposal>, k: Known, a: Authority)
    requires ValidIssue(id, first, issued)
    ensures Ascending(OpenProposals(issued, k, a))
    ensures forall p :: p in OpenProposals(issued, k, a) <==> p in issued && IsOpen(p.operationId, k, a)
  {
    if issued != [] {
      var init, last := issued[..|issued| - 1], issued[|issued| - 1];
      assert issued == init + [last];
      OpenAreAscending(id, first, init, k, a);
      hide IsOpen;
      var before := OpenProposals(init, k, a);
      forall i | 0 <= i < |before| ensures before[i].clientSequence < last.clientSequence {
        assert before[i] in before;
        var m :| 0 <= m < |init| && init[m] == before[i];
      }
      return;
    }
  }

  /** A request of this client: a valid batch of its proposals, made at a cursor it has passed, in
      which everything issued before a proposal is decided or goes along. */
  ghost predicate RequestInv(q: Request, issued: seq<Proposal>, cursor: int, a: Authority, limits: Limits) {
    && ValidRequest(q, limits)
    && q.baseSequence <= cursor
    && (forall p | p in q.proposals :: p in issued)
    && (forall p, x | p in q.proposals && x in issued && x.clientSequence < p.clientSequence ::
          x in q.proposals || x.operationId in a.decisions)
  }

  lemma SendIsHonest(w: World, id: string, c: Client, streamId: string, a: Authority, maximumProposals: int, maximumEntries: int)
    requires Sound(w, a) && ClientInv(w, id, c, streamId, a)
    requires 0 <= maximumProposals <= w.limits.maximumProposals <= MAX_SAFE && 1 <= maximumEntries <= MAX_SAFE
    ensures var open := OpenProposals(c.issued, KnownTo(c), a);
      var q := Request(KnownTo(c).cursor, maximumEntries, open[..Min(maximumProposals, |open|)]);
      && StorePrepare(c.record, streamId, maximumProposals, maximumEntries) == Ok(q)
      && RequestInv(q, c.issued, KnownTo(c).cursor, a, w.limits)
  {
    hide *;
    HonestRecordIsValid(w, id, c, streamId, a);
    ClientParts(w, id, c, streamId, a);
    PendingsAreOpen(c.issued, KnownTo(c), a);
    OpenAreAscending(id, c.first, c.issued, KnownTo(c), a);
    PreparedMeans(w, c, streamId, a, maximumProposals, maximumEntries);
    OpenPrefixIsHonest(w, id, c.first, c.issued, KnownTo(c), a, maximumProposals, maximumEntries);
  }

  lemma ClientParts(w: World, id: string, c: Client, streamId: string, a: Authority)
    requires Sound(w, a) && ClientInv(w, id, c, streamId, a)
    ensures ValidIssue(id, c.first, c.issued) && DistinctProposals(c.issued) && Attributed(c.issued, a)
    ensures IssueInv(w, id, c.first, c.issued, a) && ReplicaInv(w, id, c, streamId, a)
    ensures ValidRetained(c.record.replica) && c.record.replica.outbox == Project(c.issued, KnownTo(c), a)
    ensures Represents(w, c.record.replica, c.issued, KnownTo(c), a)
    ensures Learned(c.reported, c.issued, NOTHING, KnownTo(c), a)
    ensures 0 <= KnownTo(c).cursor <= |a.log| <= MAX_SAFE && Coherent(w, a)
  {
    RepresentedIsRetained(w, c.record.replica, c.issued, KnownTo(c), a);
  }

  lemma PreparedMeans(w: World, c: Client, streamId: string, a: Authority, maximumProposals: int, maximumEntries: int)
    requires ValidRecord(c.record, streamId) && ValidRetained(c.record.replica)
    requires 0 <= maximumProposals <= MAX_SAFE && 1 <= maximumEntries <= MAX_SAFE
    ensures var pending := Pendings(c.record.replica.outbox);
      StorePrepare(c.record, streamId, maximumProposals, maximumEntries)
      == Ok(Request(c.record.replica.confirmedSequence, maximumEntries, pending[..Min(maximumProposals, |pending|)]))
  {
    hide ValidRecord, ValidRetained, Pendings;
    var checked := RetainedCheck(c.record.replica);
  }

  lemma OpenPrefixIsHonest(w: World, id: string, first: int, issued: seq<Proposal>, k: Known, a: Authority,
                           maximumProposals: int, maximumEntries: int)
    requires ValidIssue(id, first, issued)
    requires 0 <= k.cursor <= MAX_SAFE
    requires 0 <= maximumProposals <= w.limits.maximumProposals && 1 <= maximumEntries <= MAX_SAFE
    requires var open := OpenProposals(issued, k, a);
      && Ascending(open)
      && forall p :: p in open <==> p in issued && IsOpen(p.operationId, k, a)
    ensures var open := OpenProposals(issued, k, a);
      RequestInv(Request(k.cursor, maximumEntries, open[..Min(maximumProposals, |open|)]), issued, k.cursor, a, w.limits)
  {
    hide OpenProposals, ValidBatch, ValidIssue, IsOpen, Ascending;
    var open := OpenProposals(issued, k, a);
    var n := Min(maximumProposals, |open|);
    OpenIsUndecided(issued, k, a);
    PrefixMembers(open, n);
    AscendingIssueIsBatch(id, first, issued, open[..n]);
    forall p, x | p in open[..n] && x in issued && x.clientSequence < p.clientSequence
      ensures x in open[..n] || x.operationId in a.decisions
    {
      if x.operationId !in a.decisions {
        AscendingPrefix(open, n, x, p);
      }
    }
  }

  lemma PrefixMembers(ps: seq<Proposal>, n: nat)
    requires n <= |ps|
    ensures forall p | p in ps[..n] :: p in ps
    ensures Ascending(ps) ==> Ascending(ps[..n])
  {
  }

  lemma AscendingPrefix(ps: seq<Proposal>, n: nat, x: Proposal, p: Proposal)
    requires Ascending(ps) && n <= |ps| && x in ps && p in ps[..n] && x.clientSequence < p.clientSequence
    ensures x in ps[..n]
  {
    var i :| 0 <= i < n && ps[..n][i] == p;
    var j :| 0 <= j < |ps| && ps[j] == x;
    assert ps[i] == p && j < n && ps[..n][j] == x;
  }

  lemma OpenIsUndecided(issued: seq<Proposal>, k: Known, a: Authority)
    ensures forall p | p in issued && p.operationId !in a.decisions :: IsOpen(p.operationId, k, a)
  {
  }

  lemma AscendingIssueIsBatch(id: string, first: int, issued: seq<Proposal>, ps: seq<Proposal>)
    requires ValidIssue(id, first, issued) && Ascending(ps)
    requires forall p | p in ps :: p in issued
    ensures ValidBatch(ps)
  {
    forall i | 0 <= i < |ps|
      ensures ValidIdentity(ps[i].operationId, ps[i].clientId, ps[i].clientSequence, ps[i].intentHash)
    {
      assert ps[i] in ps;
      var m :| 0 <= m < |issued| && issued[m] == ps[i];
    }
    forall i, j | 0 <= i < j < |ps| ensures ps[i].operationId != ps[j].operationId {
      assert ps[i] in ps && ps[j] in ps;
      if ps[i].operationId == ps[j].operationId {
        SameIdSameProposal(issued, ps[i], ps[j]);
      }
    }
  }

  /* ---- Responses ---- */

  function Delivered(c: Client, streamId: string, response: Response, interpreter: ReplicaInterpreter): Result<Client> {
    var record :- StoreMerge(c.record, streamId, response, interpreter);
    var merged :- Merge(c.record.replica, response, interpreter);
    Ok(c.(record := record,
          decided := c.decided + DecisionIds(response.decisions),
          reported := c.reported + merged.newly))
  }

  lemma DeliverKeeps(w: World, id: string, c: Client, streamId: string, a: Authority, response: Response)
    requires Lawful(w) && Sound(w, a) && ClientInv(w, id, c, streamId, a)
    requires Honest(response, a) && response.requestedBase <= KnownTo(c).cursor
    ensures Delivered(c, streamId, response, w.replica).Ok?
    ensures var next := Delivered(c, streamId, response, w.replica).value;
      && ClientInv(w, id, next, streamId, a)
      && KnownTo(next) == Join(KnownTo(c), response)
      && Continues(c, next) && next.issued == c.issued
      && Merge(c.record.replica, response, w.replica).Ok?
      && next.record.resolutions == c.record.resolutions + Merge(c.record.replica, response, w.replica).value.newly
  {
    hide *;
    ClientParts(w, id, c, streamId, a);
    var k, l := KnownTo(c), Join(KnownTo(c), response);
    HonestMergeIsJoin(w, c.record.replica, response, c.issued, k, a);
    var m := Merge(c.record.replica, response, w.replica).value;
    HonestRecordIsValid(w, id, c, streamId, a);
    NewsIsNew(w, c, a, m.newly, l);
    NewsIsAppended(w, id, c, streamId, a, m.newly, l);
    var next := c.(record := c.record.(replica := m.state, resolutions := c.record.resolutions + m.newly),
                   decided := c.decided + DecisionIds(response.decisions),
                   reported := c.reported + m.newly);
    DeliveredReplica(w, id, c, streamId, a, response, m, next);
    InvFromParts(w, id, next, streamId, a);
    HonestRecordIsValid(w, id, next, streamId, a);
    DeliveredMeans(c, streamId, response, w.replica, m, next);
  }

  /** What a merge reports has never been reported before. */
  lemma NewsIsNew(w: World, c: Client, a: Authority, newly: seq<Decision>, l: Known)
    requires Learned(c.reported, c.issued, NOTHING, KnownTo(c), a)
    requires Learned(newly, c.issued, KnownTo(c), l, a)
    requires Unresolved(c.issued, l, a) <= Unresolved(c.issued, KnownTo(c), a)
    requires Coherent(w, a)
    ensures DecisionIds(c.reported) !! DecisionIds(newly)
    ensures Learned(c.reported + newly, c.issued, NOTHING, l, a)
  {
    NothingIsKnown(w, c.issued, a);
    hide Coherent;
    var all := c.reported + newly;
    assert DecisionIds(all) == DecisionIds(c.reported) + DecisionIds(newly);
    forall i, j | 0 <= i < j < |all| ensures all[i].operationId != all[j].operationId {
      assert all[i] in c.reported || all[i] in newly;
      if i < |c.reported| <= j {
        assert all[i] in c.reported && all[j] in newly;
        assert all[i].operationId in DecisionIds(c.reported) && all[j].operationId in DecisionIds(newly);
      }
    }
  }

  lemma NewsIsAppended(w: World, id: string, c: Client, streamId: string, a: Authority, newly: seq<Decision>, l: Known)
    requires ReplicaInv(w, id, c, streamId, a)
    requires DecisionIds(c.reported) !! DecisionIds(newly)
    requires Learned(newly, c.issued, KnownTo(c), l, a)
    ensures AppendUnique(c.record.resolutions, newly) == c.record.resolutions + newly
    ensures Unacknowledged(c.reported + newly, c.acknowledged) == c.record.resolutions + newly
  {
    hide Represents, Unresolved;
    UnacknowledgedMembers(c.reported, c.acknowledged);
    assert DecisionIds(c.record.resolutions) <= DecisionIds(c.reported);
    hide Unacknowledged;
    AppendNew(c.record.resolutions, newly);
    UnacknowledgedConcat(c.reported, newly, c.acknowledged);
    NoneAcknowledged(newly, c.acknowledged);
  }

  lemma {:induction false} NoneAcknowledged(ds: seq<Decision>, acknowledged: set<string>)
    requires DecisionIds(ds) !! acknowledged
    ensures Unacknowledged(ds, acknowledged) == ds
  {
    if ds != [] {
      var init := ds[..|ds| - 1];
      assert ds == init + [ds[|ds| - 1]] && ds[|ds| - 1] in ds;
      assert forall d | d in init :: d in ds;
      NoneAcknowledged(init, acknowledged);
    }
  }

  lemma DeliveredReplica(w: World, id: string, c: Client, streamId: string, a: Authority, response: Response, m: Merged, next: Client)
    requires ReplicaInv(w, id, c, streamId, a)
    requires Represents(w, m.state, c.issued, Join(KnownTo(c), response), a)
    requires m.state.clientId == c.record.replica.clientId
    requires m.state.nextClientSequence == c.record.replica.nextClientSequence
    requires Learned(c.reported + m.newly, c.issued, NOTHING, Join(KnownTo(c), response), a)
    requires Unacknowledged(c.reported + m.newly, c.acknowledged) == c.record.resolutions + m.newly
    requires next == c.(record := c.record.(replica := m.state, resolutions := c.record.resolutions + m.newly),
                        decided := c.decided + DecisionIds(response.decisions),
                        reported := c.reported + m.newly)
    ensures ReplicaInv(w, id, next, streamId, a) && KnownTo(next) == Join(KnownTo(c), response)
    ensures next.first == c.first && next.issued == c.issued
  {
    hide Project, Replay, Learned, Unacknowledged;
    assert KnownTo(next) == Join(KnownTo(c), response);
    assert DecisionIds(c.reported + m.newly) == DecisionIds(c.reported) + DecisionIds(m.newly);
  }

  lemma DeliveredMeans(c: Client, streamId: string, response: Response, interpreter: ReplicaInterpreter, m: Merged, next: Client)
    requires Merge(c.record.replica, response, interpreter) == Ok(m)
    requires AppendUnique(c.record.resolutions, m.newly) == c.record.resolutions + m.newly
    requires next == c.(record := c.record.(replica := m.state, resolutions := c.record.resolutions + m.newly),
                        decided := c.decided + DecisionIds(response.decisions),
                        reported := c.reported + m.newly)
    requires ValidRecord(c.record, streamId) && ValidRecord(next.record, streamId)
    ensures Delivered(c, streamId, response, interpreter) == Ok(next)
    ensures next.record.resolutions == c.record.resolutions + m.newly
    ensures KnownTo(next) == Join(KnownTo(c), response) ==> Continues(c, next)
  {
    hide ValidRecord, Merge, AppendUnique;
  }

  /* ---- Compaction and acknowledgement ---- */

  function Compacted(c: Client, streamId: string, through: int): Result<Client> {
    var record :- StoreCompact(c.record, streamId, through);
    Ok(c.(record := record))
  }

  lemma CompactKeeps(w: World, id: string, c: Client, streamId: string, a: Authority, through: int)
    requires Sound(w, a) && ClientInv(w, id, c, streamId, a)
    requires 0 <= through <= KnownTo(c).cursor
    ensures Compacted(c, streamId, through).Ok?
    ensures var next := Compacted(c, streamId, through).value;
      && ClientInv(w, id, next, streamId, a)
      && KnownTo(next) == KnownTo(c) && Continues(c, next) && next.issued == c.issued
  {
    hide *;
    ClientParts(w, id, c, streamId, a);
    HonestRecordIsValid(w, id, c, streamId, a);
    var next := CompactedClient(w, id, c, streamId, a, through);
    InvFromParts(w, id, next, streamId, a);
    HonestRecordIsValid(w, id, next, streamId, a);
    CompactedMeans(c, streamId, through, next);
  }

  lemma CompactedClient(w: World, id: string, c: Client, streamId: string, a: Authority, through: int) returns (next: Client)
    requires ReplicaInv(w, id, c, streamId, a) && ValidRetained(c.record.replica) && |a.log| <= MAX_SAFE
    requires 0 <= through <= KnownTo(c).cursor
    ensures Compact(c.record.replica, through) == Ok(next.record.replica)
    ensures next == c.(record := c.record.(replica := next.record.replica))
    ensures ReplicaInv(w, id, next, streamId, a) && KnownTo(next) == KnownTo(c)
  {
    var r := c.record.replica;
    var checked := RetainedCheck(r);
    var s := Compact(r, through).value;
    next := c.(record := c.record.(replica := s));
    hide Project, Replay, Learned, Unacknowledged, RetainedCheck;
    assert s.confirmedLog == a.log[RetainedBase(s)..KnownTo(c).cursor];
  }

  lemma CompactedMeans(c: Client, streamId: string, through: int, next: Client)
    requires Compact(c.record.replica, through) == Ok(next.record.replica)
    requires next == c.(record := c.record.(replica := next.record.replica))
    requires ValidRecord(c.record, streamId) && ValidRecord(next.record, streamId)
    ensures Compacted(c, streamId, through) == Ok(next)
    ensures KnownTo(next) == KnownTo(c) ==> Continues(c, next)
  {
    hide ValidRecord, Compact;
  }

  function Acknowledged(c: Client, streamId: string, ids: set<string>): Result<Client> {
    var record :- StoreAcknowledge(c.record, streamId, ids);
    Ok(c.(record := record, acknowledged := c.acknowledged + ids * DecisionIds(c.record.resolutions)))
  }

  lemma AcknowledgeKeeps(w: World, id: string, c: Client, streamId: string, a: Authority, ids: set<string>)
    requires Sound(w, a) && ClientInv(w, id, c, streamId, a)
    ensures Acknowledged(c, streamId, ids).Ok?
    ensures var next := Acknowledged(c, streamId, ids).value;
      && ClientInv(w, id, next, streamId, a)
      && KnownTo(next) == KnownTo(c) && Continues(c, next) && next.issued == c.issued
  {
    hide *;
    ClientParts(w, id, c, streamId, a);
    HonestRecordIsValid(w, id, c, streamId, a);
    var next := AcknowledgedClient(w, id, c, streamId, a, ids);
    InvFromParts(w, id, next, streamId, a);
    HonestRecordIsValid(w, id, next, streamId, a);
    AcknowledgedMeans(c, streamId, ids, next);
  }

  lemma AcknowledgedClient(w: World, id: string, c: Client, streamId: string, a: Authority, ids: set<string>) returns (next: Client)
    requires ReplicaInv(w, id, c, streamId, a)
    ensures next == c.(record := c.record.(resolutions := Unacknowledged(c.record.resolutions, ids)),
                       acknowledged := c.acknowledged + ids * DecisionIds(c.record.resolutions))
    ensures ReplicaInv(w, id, next, streamId, a) && KnownTo(next) == KnownTo(c)
  {
    hide Represents;
    next := c.(record := c.record.(resolutions := Unacknowledged(c.record.resolutions, ids)),
               acknowledged := c.acknowledged + ids * DecisionIds(c.record.resolutions));
    UnacknowledgedTwice(c.reported, c.acknowledged, ids);
    UnacknowledgedMembers(c.reported, c.acknowledged);
    hide Unacknowledged;
    OnlyKnownIdsMatter(c.reported, c.acknowledged, ids, DecisionIds(c.record.resolutions));
  }

  /** Acknowledging an operation that is not in the inbox has no effect. */
  lemma {:induction false} OnlyKnownIdsMatter(ds: seq<Decision>, a: set<string>, b: set<string>, inbox: set<string>)
    requires forall d | d in ds && d.operationId !in a :: d.operationId in inbox
    ensures Unacknowledged(ds, a + b) == Unacknowledged(ds, a + b * inbox)
  {
    if ds != [] {
      assert forall d | d in ds[..|ds| - 1] :: d in ds;
      assert ds[|ds| - 1] in ds;
      OnlyKnownIdsMatter(ds[..|ds| - 1], a, b, inbox);
    }
  }

  lemma AcknowledgedMeans(c: Client, streamId: string, ids: set<string>, next: Client)
    requires next == c.(record := c.record.(resolutions := Unacknowledged(c.record.resolutions, ids)),
                        acknowledged := c.acknowledged + ids * DecisionIds(c.record.resolutions))
    requires ValidRecord(c.record, streamId) && ValidRecord(next.record, streamId)
    ensures Acknowledged(c, streamId, ids) == Ok(next)
    ensures KnownTo(next) == KnownTo(c) ==> Continues(c, next)
  {
    hide ValidRecord;
    if ids == {} {
      NoneAcknowledged(c.record.resolutions, ids);
    }
  }
}
