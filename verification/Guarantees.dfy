/** What the invariant of ProtocolRuns means to a user of the protocol, said without reference to
    what a client knows: prefixes, order, conservation and exactly-once resolution. */
module Guarantees {
  import opened Protocol
  import opened Validators
  import opened LogServer
  import opened Replicas
  import opened MergeLaws
  import opened Knowledge
  import opened DurableRecords
  import opened Clients
  import opened ClientSteps
  import opened ProtocolRuns

  /* ---- The confirmed prefix ---- */

  /** The replica's confirmed part is a prefix of the canonical log: its cursor is within the log,
      its retained log is the end of that prefix, and its state is the prefix applied in order. */
  ghost predicate ConfirmsPrefix(w: World, r: Replica, a: Authority) {
    && 0 <= r.confirmedSequence - |r.confirmedLog| <= r.confirmedSequence <= |a.log|
    && r.confirmedLog == a.log[r.confirmedSequence - |r.confirmedLog|..r.confirmedSequence]
    && r.confirmedState == Replay(w.log.apply, w.initial, a.log[..r.confirmedSequence])
  }

  lemma ConfirmedIsCanonical(w: World, s: System, id: string)
    requires SystemInv(w, s) && id in s.clients
    ensures ConfirmsPrefix(w, s.clients[id].record.replica, s.authority)
    ensures ValidLog(s.authority.log) && s.authority.state == Replay(w.log.apply, w.initial, s.authority.log)
  {
    hide *;
    ClientOf(w, s, id);
    ClientParts(w, id, s.clients[id], s.streamId, s.authority);
    CoherentLogIsValid(w, s.authority);
    RepresentsMeans(w, s.clients[id], s.authority);
  }

  lemma RepresentsMeans(w: World, c: Client, a: Authority)
    requires Represents(w, c.record.replica, c.issued, KnownTo(c), a) && Coherent(w, a)
    ensures ConfirmsPrefix(w, c.record.replica, a)
    ensures a.state == Replay(w.log.apply, w.initial, a.log)
  {
    hide Project, Replay, LogCoherent, DecisionsCoherent, PositionsCoherent;
  }

  lemma CaughtUpMeansEqual(w: World, r: Replica, a: Authority)
    requires ConfirmsPrefix(w, r, a) && a.state == Replay(w.log.apply, w.initial, a.log)
    ensures r.confirmedSequence == |a.log| ==> r.confirmedState == a.state
  {
    assert a.log[..|a.log|] == a.log;
  }

  /** Whole-run safety: in every state of every run each replica's confirmed part is a prefix of the
      canonical log; canonical history only grows, and no replica's cursor ever moves back. */
  lemma EveryRunIsSafe(w: World, streamId: string, firsts: map<string, int>,
                       states: seq<System>, steps: seq<Step>, i: nat, j: nat, id: string)
    requires Lawful(w) && IsRun(w, streamId, firsts, states, steps) && i <= j < |states| && id in firsts
    ensures id in states[i].clients && id in states[j].clients
    ensures states[i].authority.log <= states[j].authority.log && ValidLog(states[j].authority.log)
    ensures states[i].clients[id].record.replica.confirmedSequence <= states[j].clients[id].record.replica.confirmedSequence
    ensures ConfirmsPrefix(w, states[j].clients[id].record.replica, states[j].authority)
    ensures states[j].clients[id].record.replica.confirmedSequence == |states[j].authority.log| ==>
      states[j].clients[id].record.replica.confirmedState == states[j].authority.state
  {
    hide *;
    KnownFromTheStart(w, streamId, firsts, states, steps, i, id);
    RunsAreSafe(w, streamId, firsts, states, steps, i, j);
    AdvancesMeans(states[i], states[j], id);
    ConfirmedIsCanonical(w, states[j], id);
    CaughtUpMeansEqual(w, states[j].clients[id].record.replica, states[j].authority);
  }

  lemma AdvancesMeans(s: System, t: System, id: string)
    requires Advances(s, t) && id in s.clients
    ensures id in t.clients && Continues(s.clients[id], t.clients[id])
    ensures s.authority.log <= t.authority.log
    ensures s.clients[id].record.replica.confirmedSequence <= t.clients[id].record.replica.confirmedSequence
    ensures s.clients[id].issued <= t.clients[id].issued && s.clients[id].reported <= t.clients[id].reported
    ensures s.clients[id].acknowledged <= t.clients[id].acknowledged
  {
  }

  lemma KnownFromTheStart(w: World, streamId: string, firsts: map<string, int>,
                          states: seq<System>, steps: seq<Step>, i: nat, id: string)
    requires Lawful(w) && IsRun(w, streamId, firsts, states, steps) && i < |states| && id in firsts
    ensures id in states[i].clients
  {
    RunsAreSafe(w, streamId, firsts, states, steps, 0, i);
    hide Next, Allowed, SystemInv, Lawful;
  }

  /* ---- Client order ---- */

  /** The client sequences decided for a client are exactly the first n it allocated, and its
      entries stand in the canonical log in increasing client sequence. */
  lemma DecidedIsGapFreePrefix(w: World, s: System, id: string) returns (n: nat)
    requires Lawful(w) && Reachable(w, s) && id in s.clients
    ensures IsGapFreePrefix(s.clients[id], id, s.authority, n)
  {
    hide *;
    ReachableIsSafe(w, s);
    n := DecidedIsPrefix(w, s, id);
  }

  ghost predicate IsGapFreePrefix(c: Client, id: string, a: Authority, n: nat) {
    && n <= |c.issued|
    && (forall sequence :: (id, sequence) in a.positions <==> c.first <= sequence < c.first + n)
    && (forall i | 0 <= i < |c.issued| :: c.issued[i].operationId in a.decisions <==> i < n)
    && (forall i, j | 0 <= i < j < |a.log| && a.log[i].origin.clientId == id == a.log[j].origin.clientId ::
          a.log[i].origin.clientSequence < a.log[j].origin.clientSequence)
  }

  lemma DecidedIsPrefix(w: World, s: System, id: string) returns (n: nat)
    requires SystemInv(w, s) && id in s.clients
    ensures IsGapFreePrefix(s.clients[id], id, s.authority, n)
    ensures var c, a := s.clients[id], s.authority;
      && n <= |c.issued|
      && (forall sequence :: (id, sequence) in a.positions <==> c.first <= sequence < c.first + n)
      && (forall i | 0 <= i < |c.issued| :: c.issued[i].operationId in a.decisions <==> i < n)
      && (forall i, j | 0 <= i < j < |a.log| && a.log[i].origin.clientId == id == a.log[j].origin.clientId ::
            a.log[i].origin.clientSequence < a.log[j].origin.clientSequence)
  {
    var c, a := s.clients[id], s.authority;
    hide *;
    InvParts(w, s);
    SoundMeans(w, a);
    IssueOf(w, s.clients, a, id);
    IssueParts(w, id, c.first, c.issued, a);
    n := DecidedPrefix(c.issued, a);
    DecidedPositions(w, id, c.first, c.issued, a, n);
    FifoMeans(a.log, id);
    GapFreeFrom(c, id, a, n);
  }

  lemma GapFreeFrom(c: Client, id: string, a: Authority, n: nat)
    requires n <= |c.issued|
    requires forall sequence :: (id, sequence) in a.positions <==> c.first <= sequence < c.first + n
    requires forall i | 0 <= i < |c.issued| :: c.issued[i].operationId in a.decisions <==> i < n
    requires forall i, j | 0 <= i < j < |a.log| && a.log[i].origin.clientId == id == a.log[j].origin.clientId ::
      a.log[i].origin.clientSequence < a.log[j].origin.clientSequence
    ensures IsGapFreePrefix(c, id, a, n)
  {
  }

  lemma FifoMeans(log: seq<Entry>, id: string)
    requires Fifo(log)
    ensures forall i, j | 0 <= i < j < |log| && log[i].origin.clientId == id == log[j].origin.clientId ::
      log[i].origin.clientSequence < log[j].origin.clientSequence
  {
  }

  lemma DecidedPrefix(issued: seq<Proposal>, a: Authority) returns (n: nat)
    requires InOrder(issued, a)
    ensures n <= |issued| && forall i | 0 <= i < |issued| :: issued[i].operationId in a.decisions <==> i < n
  {
    n := 0;
    while n < |issued| && issued[n].operationId in a.decisions
      invariant n <= |issued| && forall i | 0 <= i < n :: issued[i].operationId in a.decisions
    {
      n := n + 1;
    }
  }

  lemma DecidedPositions(w: World, id: string, first: int, issued: seq<Proposal>, a: Authority, n: nat)
    requires Coherent(w, a) && ValidIssue(id, first, issued) && Attributed(issued, a) && Owned(id, first, issued, a)
    requires n <= |issued| && forall i | 0 <= i < |issued| :: issued[i].operationId in a.decisions <==> i < n
    ensures forall sequence :: (id, sequence) in a.positions <==> first <= sequence < first + n
  {
    hide *;
    forall sequence ensures (id, sequence) in a.positions <==> first <= sequence < first + n {
      if (id, sequence) in a.positions {
        TakenIsDecided(w, id, first, issued, a, sequence);
      } else if first <= sequence < first + n {
        DecidedIsTaken(w, id, first, issued, a, sequence - first);
        assert false;
      }
    }
  }

  lemma TakenIsDecided(w: World, id: string, first: int, issued: seq<Proposal>, a: Authority, sequence: int)
    requires Coherent(w, a) && Owned(id, first, issued, a) && (id, sequence) in a.positions
    ensures 0 <= sequence - first < |issued| && issued[sequence - first].operationId in a.decisions
  {
    PositionTaken(w, id, first, issued, a, sequence);
    hide LogCoherent, DecisionsCoherent, Owned;
  }

  lemma DecidedIsTaken(w: World, id: string, first: int, issued: seq<Proposal>, a: Authority, i: nat)
    requires Coherent(w, a) && ValidIssue(id, first, issued) && Attributed(issued, a)
    requires i < |issued| && issued[i].operationId in a.decisions
    ensures (id, first + i) in a.positions
  {
    hide LogCoherent, PositionsCoherent;
    assert issued[i] in issued && Remembers(a, issued[i]) && StoredCoherent(a, issued[i].operationId);
  }

  /* ---- Provenance ---- */

  /** Whatever is decided, some client issued, under that identity, and the decision is what the
      interpreter says of it on the canonical state: for an acceptance the state just before its entry,
      which records it; for a rejection the state after some prefix of the log. */
  ghost predicate IsJudged(w: World, p: Proposal, a: Authority) {
    && p.operationId in a.decisions
    && Remembers(a, p)
    && match a.decisions[p.operationId].decision
       case Accepted(_, sequence, operation) =>
         && 1 <= sequence <= |a.log|
         && a.log[sequence - 1]
            == Entry(sequence, p.operationId, Origin(p.clientId, p.clientSequence, p.intentHash), operation)
         && w.log.decide(Replay(w.log.apply, w.initial, a.log[..sequence - 1]), p) == Accept(operation)
       case Rejected(_, reason) =>
         exists n :: 0 <= n <= |a.log| && IsRejectedAfter(w, p, a, n, reason)
  }

  ghost predicate IsRejectedAfter(w: World, p: Proposal, a: Authority, n: int, reason: Rejection)
    requires 0 <= n <= |a.log|
  {
    w.log.decide(Replay(w.log.apply, w.initial, a.log[..n]), p) == Reject(reason)
  }

  lemma EveryDecisionIsJudged(w: World, s: System, operationId: string) returns (id: string, p: Proposal)
    requires Lawful(w) && Reachable(w, s) && operationId in s.authority.decisions
    ensures id in s.clients && p in s.clients[id].issued && p.operationId == operationId
    ensures IsJudged(w, p, s.authority)
  {
    hide *;
    ReachableIsSafe(w, s);
    id, p := DecisionIsJudged(w, s, operationId);
  }

  lemma DecisionIsJudged(w: World, s: System, operationId: string) returns (id: string, p: Proposal)
    requires SystemInv(w, s) && operationId in s.authority.decisions
    ensures id in s.clients && p in s.clients[id].issued && p.operationId == operationId
    ensures IsJudged(w, p, s.authority)
  {
    hide *;
    InvParts(w, s);
    id := DecidedIsIssued(w, s.clients, s.authority, operationId);
    p := ProposalOf(s.clients[id].issued, operationId);
    IssueOf(w, s.clients, s.authority, id);
    JudgedFrom(w, id, s.clients[id].first, s.clients[id].issued, s.authority, p);
  }

  lemma ProposalOf(issued: seq<Proposal>, operationId: string) returns (p: Proposal)
    requires operationId in ProposalIds(issued)
    ensures p in issued && p.operationId == operationId
  {
    p :| p in issued && p.operationId == operationId;
  }

  lemma JudgedFrom(w: World, id: string, first: int, issued: seq<Proposal>, a: Authority, p: Proposal)
    requires IssueInv(w, id, first, issued, a) && Sound(w, a) && p in issued && p.operationId in a.decisions
    ensures IsJudged(w, p, a)
  {
    hide Owned, InOrder, ValidIssue;
    assert Remembers(a, p) && JudgedFairly(w, p, a) && StoredCoherent(a, p.operationId);
    match a.decisions[p.operationId].decision
    case Accepted(_, sequence, operation) =>
      assert LogServer.Records(a, a.log[sequence - 1]);
    case Rejected(_, reason) =>
      var n :| 0 <= n <= |a.log| && w.log.decide(StateAt(w, a, n), p) == Reject(reason);
      assert IsRejectedAfter(w, p, a, n, reason);
  }

  /* ---- Conservation ---- */

  datatype Standing = IsPending | IsAwaitingEntry | IsConfirmed | IsRejected

  /** Where the client's own data, and the canonical prefix it has confirmed, show a proposal. */
  ghost predicate Stands(t: Standing, p: Proposal, c: Client, a: Authority)
    requires 0 <= c.record.replica.confirmedSequence <= |a.log|
  {
    match t
    case IsPending => PendingEntry(p) in c.record.replica.outbox
    case IsAwaitingEntry => exists x :: x in c.record.replica.outbox && x.AcceptedEntry? && x.proposal == p
    case IsConfirmed =>
      exists e :: e in a.log[..c.record.replica.confirmedSequence]
        && e.operationId == p.operationId && e.origin == Origin(p.clientId, p.clientSequence, p.intentHash)
    case IsRejected => exists d :: d in c.reported && d.Rejected? && d.operationId == p.operationId
  }

  lemma {:induction false} ViewedAreProjected(issued: seq<Proposal>, k: Known, a: Authority)
    ensures forall p, x | p in issued && x in View(p, k, a) :: x in Project(issued, k, a)
  {
    if issued != [] {
      ViewedAreProjected(issued[..|issued| - 1], k, a);
      assert forall p | p in issued :: p in issued[..|issued| - 1] || p == issued[|issued| - 1];
    }
  }

  lemma OutboxShows(issued: seq<Proposal>, k: Known, a: Authority, p: Proposal)
    requires p in issued
    ensures forall x: OutboxEntry | x.proposal == p :: x in Project(issued, k, a) <==> x in View(p, k, a)
    ensures forall x | x in Project(issued, k, a) :: x.proposal in issued
  {
    ProjectedAreIssued(issued, k, a);
    ViewedAreProjected(issued, k, a);
  }

  lemma ReportsShow(w: World, c: Client, a: Authority, p: Proposal)
    requires Coherent(w, a) && Learned(c.reported, c.issued, NOTHING, KnownTo(c), a)
    requires p in c.issued && DistinctProposals(c.issued)
    ensures p.operationId in DecisionIds(c.reported) <==> !IsOpen(p.operationId, KnownTo(c), a)
    ensures (exists d :: d in c.reported && d.Rejected? && d.operationId == p.operationId) <==>
      !IsOpen(p.operationId, KnownTo(c), a) && a.decisions[p.operationId].decision.Rejected?
  {
    NothingIsKnown(w, c.issued, a);
    hide Coherent, IsOpen;
    assert p.operationId in ProposalIds(c.issued);
    assert p.operationId in Unresolved(c.issued, KnownTo(c), a) <==> IsOpen(p.operationId, KnownTo(c), a) by {
      if p.operationId in Unresolved(c.issued, KnownTo(c), a) {
        var q :| q in c.issued && IsOpen(q.operationId, KnownTo(c), a) && q.operationId == p.operationId;
      }
    }
  }

  lemma LogShows(w: World, issued: seq<Proposal>, k: Known, a: Authority, p: Proposal)
    requires Sound(w, a) && p in issued && Attributed(issued, a) && 0 <= k.cursor <= |a.log|
    ensures (exists e :: e in a.log[..k.cursor]
               && e.operationId == p.operationId && e.origin == Origin(p.clientId, p.clientSequence, p.intentHash))
       <==> p.operationId in a.decisions && a.decisions[p.operationId].decision.Accepted?
            && a.decisions[p.operationId].decision.sequence <= k.cursor
  {
    forall e | e in a.log[..k.cursor] ensures Records(a, e) && e.sequence <= k.cursor {
      var i :| 0 <= i < k.cursor && a.log[i] == e;
    }
    if p.operationId in a.decisions && a.decisions[p.operationId].decision.Accepted?
       && a.decisions[p.operationId].decision.sequence <= k.cursor {
      assert Remembers(a, p) && StoredCoherent(a, p.operationId);
      var e := a.log[a.decisions[p.operationId].decision.sequence - 1];
      assert Records(a, e) && e in a.log[..k.cursor];
    }
  }

  ghost predicate OnlyStanding(t: Standing, p: Proposal, c: Client, a: Authority)
    requires 0 <= c.record.replica.confirmedSequence <= |a.log|
  {
    forall u :: Stands(u, p, c, a) <==> u == t
  }

  /** The client sequence was given to one issued proposal, which stands in exactly one place; its
      outcome has been reported, once, exactly when it is no longer pending. */
  ghost predicate Accounted(t: Standing, id: string, c: Client, a: Authority, sequence: int) {
    && 0 <= c.record.replica.confirmedSequence <= |a.log|
    && c.record.replica.nextClientSequence == c.first + |c.issued|
    && 0 <= sequence - c.first < |c.issued|
    && var p := c.issued[sequence - c.first];
    && p.clientId == id && p.clientSequence == sequence
    && OnlyStanding(t, p, c, a)
    && (p.operationId in DecisionIds(c.reported) <==> t != IsPending)
    && DistinctDecisions(c.reported)
  }

  /** Conservation: every client sequence allocated so far is accounted for: pending, accepted and
      awaiting its entry, confirmed, or rejected. */
  lemma EverythingIsSomewhere(w: World, s: System, id: string, sequence: int) returns (t: Standing)
    requires Lawful(w) && Reachable(w, s) && id in s.clients
    requires s.clients[id].first <= sequence < s.clients[id].record.replica.nextClientSequence
    ensures Accounted(t, id, s.clients[id], s.authority, sequence)
  {
    hide *;
    ReachableIsSafe(w, s);
    ClientOf(w, s, id);
    t := ClientAccounts(w, id, s.clients[id], s.streamId, s.authority, sequence);
  }

  lemma ClientAccounts(w: World, id: string, c: Client, streamId: string, a: Authority, sequence: int) returns (t: Standing)
    requires Sound(w, a) && ClientInv(w, id, c, streamId, a)
    requires c.first <= sequence < c.record.replica.nextClientSequence
    ensures Accounted(t, id, c, a, sequence)
  {
    hide *;
    ClientParts(w, id, c, streamId, a);
    ReplicaParts(w, id, c, streamId, a);
    IssuedAt(id, c.first, c.issued, sequence);
    t := OneStanding(w, id, c, streamId, a, c.issued[sequence - c.first]);
    LearnedIsDistinct(c.reported, c.issued, NOTHING, KnownTo(c), a);
    AccountedFrom(t, id, c, a, sequence);
  }

  lemma AccountedFrom(t: Standing, id: string, c: Client, a: Authority, sequence: int)
    requires 0 <= c.record.replica.confirmedSequence <= |a.log|
    requires c.record.replica.nextClientSequence == c.first + |c.issued| && 0 <= sequence - c.first < |c.issued|
    requires var p := c.issued[sequence - c.first];
      && p.clientId == id && p.clientSequence == sequence && OnlyStanding(t, p, c, a)
      && (p.operationId in DecisionIds(c.reported) <==> t != IsPending)
    requires DistinctDecisions(c.reported)
    ensures Accounted(t, id, c, a, sequence)
  {
    hide OnlyStanding, DecisionIds, DistinctDecisions;
  }

  lemma IssuedAt(id: string, first: int, issued: seq<Proposal>, sequence: int)
    requires ValidIssue(id, first, issued) && first <= sequence < first + |issued|
    ensures issued[sequence - first] in issued
    ensures issued[sequence - first].clientSequence == sequence && issued[sequence - first].clientId == id
  {
  }

  lemma LearnedIsDistinct(ds: seq<Decision>, issued: seq<Proposal>, k: Known, l: Known, a: Authority)
    requires Learned(ds, issued, k, l, a)
    ensures DistinctDecisions(ds)
  {
  }

  lemma OneStanding(w: World, id: string, c: Client, streamId: string, a: Authority, p: Proposal) returns (t: Standing)
    requires Sound(w, a) && ClientInv(w, id, c, streamId, a) && p in c.issued
    ensures 0 <= c.record.replica.confirmedSequence <= |a.log| && OnlyStanding(t, p, c, a)
    ensures p.operationId in DecisionIds(c.reported) <==> t != IsPending
  {
    hide *;
    ClientParts(w, id, c, streamId, a);
    OutboxShows(c.issued, KnownTo(c), a, p);
    ReportsShow(w, c, a, p);
    LogShows(w, c.issued, KnownTo(c), a, p);
    t := StandingIs(c, a, p);
  }

  lemma StandingIs(c: Client, a: Authority, p: Proposal) returns (t: Standing)
    requires 0 <= KnownTo(c).cursor <= |a.log|
    requires forall x: OutboxEntry | x.proposal == p :: x in c.record.replica.outbox <==> x in View(p, KnownTo(c), a)
    requires (exists d :: d in c.reported && d.Rejected? && d.operationId == p.operationId) <==>
      !IsOpen(p.operationId, KnownTo(c), a) && a.decisions[p.operationId].decision.Rejected?
    requires (exists e :: e in a.log[..KnownTo(c).cursor]
               && e.operationId == p.operationId && e.origin == Origin(p.clientId, p.clientSequence, p.intentHash))
        <==> p.operationId in a.decisions && a.decisions[p.operationId].decision.Accepted?
             && a.decisions[p.operationId].decision.sequence <= KnownTo(c).cursor
    ensures 0 <= c.record.replica.confirmedSequence <= |a.log| && OnlyStanding(t, p, c, a)
    ensures t == IsPending <==> IsOpen(p.operationId, KnownTo(c), a)
  {
    var k := KnownTo(c);
    t := if IsOpen(p.operationId, k, a) then IsPending
         else match a.decisions[p.operationId].decision
           case Rejected(_, _) => IsRejected
           case Accepted(_, sequence, _) => if sequence <= k.cursor then IsConfirmed else IsAwaitingEntry;
    forall u ensures Stands(u, p, c, a) <==> u == t {
      AcceptedIsShown(c, a, p, k, u);
    }
  }

  lemma AcceptedIsShown(c: Client, a: Authority, p: Proposal, k: Known, u: Standing)
    requires k == KnownTo(c) && 0 <= k.cursor <= |a.log|
    requires forall x: OutboxEntry | x.proposal == p :: x in c.record.replica.outbox <==> x in View(p, k, a)
    ensures u == IsPending ==> (Stands(u, p, c, a) <==> IsOpen(p.operationId, k, a))
    ensures u == IsAwaitingEntry ==> (Stands(u, p, c, a) <==>
      !IsOpen(p.operationId, k, a) && a.decisions[p.operationId].decision.Accepted?
      && a.decisions[p.operationId].decision.sequence > k.cursor)
  {
    if !IsOpen(p.operationId, k, a) && a.decisions[p.operationId].decision.Accepted?
       && a.decisions[p.operationId].decision.sequence > k.cursor {
      var d := a.decisions[p.operationId].decision;
      assert AcceptedEntry(p, d.sequence, d.operation) in c.record.replica.outbox;
    }
  }

  /* ---- Reports and the inbox ---- */

  /** The inbox holds exactly what has been reported and not acknowledged. */
  ghost predicate InboxExact(c: Client) {
    && DistinctDecisions(c.reported)
    && (forall d :: d in c.record.resolutions <==> d in c.reported && d.operationId !in c.acknowledged)
  }

  lemma ReportsAndInbox(w: World, id: string, c: Client, streamId: string, a: Authority)
    requires Sound(w, a) && ClientInv(w, id, c, streamId, a)
    ensures InboxExact(c) && ValidRecord(c.record, streamId)
    ensures forall d | d in c.reported :: d.operationId in a.decisions && a.decisions[d.operationId].decision == d
    ensures DecisionIds(c.reported) <= ProposalIds(c.issued) && DistinctProposals(c.issued)
    ensures forall p | p in c.issued :: p.operationId in DecisionIds(c.reported) <==> PendingEntry(p) !in c.record.replica.outbox
  {
    hide *;
    ClientParts(w, id, c, streamId, a);
    HonestRecordIsValid(w, id, c, streamId, a);
    NothingIsKnown(w, c.issued, a);
    InboxParts(w, id, c, streamId, a);
    forall p | p in c.issued
      ensures p.operationId in DecisionIds(c.reported) <==> PendingEntry(p) !in c.record.replica.outbox
    {
      var t := OneStanding(w, id, c, streamId, a, p);
      OnlyPending(t, p, c, a);
    }
  }

  lemma OnlyPending(t: Standing, p: Proposal, c: Client, a: Authority)
    requires 0 <= c.record.replica.confirmedSequence <= |a.log| && OnlyStanding(t, p, c, a)
    ensures t == IsPending <==> PendingEntry(p) in c.record.replica.outbox
  {
    assert Stands(IsPending, p, c, a) <==> IsPending == t;
  }

  lemma InboxParts(w: World, id: string, c: Client, streamId: string, a: Authority)
    requires ReplicaInv(w, id, c, streamId, a) && Unresolved(c.issued, NOTHING, a) == ProposalIds(c.issued)
    ensures InboxExact(c) && DecisionIds(c.reported) <= ProposalIds(c.issued)
    ensures forall d | d in c.reported :: d.operationId in a.decisions && a.decisions[d.operationId].decision == d
  {
    hide Represents, Unresolved, Unacknowledged;
    UnacknowledgedMembers(c.reported, c.acknowledged);
  }

  lemma ReportedBetween(issued: seq<Proposal>, longer: seq<Proposal>, before: seq<Decision>, after: seq<Decision>, p: Proposal)
    requires issued <= longer && before <= after && p in longer
    requires DistinctProposals(longer) && DistinctDecisions(after) && DecisionIds(before) <= ProposalIds(issued)
    ensures p.operationId in DecisionIds(after[|before|..]) <==>
      p.operationId in DecisionIds(after) && (p in issued ==> p.operationId !in DecisionIds(before))
  {
    var rest := after[|before|..];
    assert after == before + rest;
    assert DecisionIds(after) == DecisionIds(before) + DecisionIds(rest);
    if p.operationId in DecisionIds(before) {
      var q :| q in issued && q.operationId == p.operationId;
      assert q in longer;
      SameIdSameProposal(longer, p, q);
    }
    forall d, e | d in before && e in rest ensures d.operationId != e.operationId {
      var i :| 0 <= i < |before| && before[i] == d;
      var j :| 0 <= j < |rest| && rest[j] == e;
      assert after[i] == d && after[|before| + j] == e;
    }
  }

  /** Exactly once: between any two moments of a run, an operation is reported if and only if it
      leaves pending between them, its report is the permanent decision, and no report is repeated. */
  lemma ResolvedExactlyOnce(w: World, streamId: string, firsts: map<string, int>,
                            states: seq<System>, steps: seq<Step>, i: nat, j: nat, id: string, p: Proposal)
    requires Lawful(w) && IsRun(w, streamId, firsts, states, steps) && i <= j < |states| && id in firsts
    requires id in states[i].clients && id in states[j].clients && p in states[j].clients[id].issued
    ensures var c, d := states[i].clients[id], states[j].clients[id];
      && c.reported <= d.reported && DistinctDecisions(d.reported)
      && (forall r | r in d.reported :: r.operationId in states[j].authority.decisions
                                        && states[j].authority.decisions[r.operationId].decision == r)
      && (p.operationId in DecisionIds(d.reported[|c.reported|..]) <==>
            PendingEntry(p) !in d.record.replica.outbox && (p in c.issued ==> PendingEntry(p) in c.record.replica.outbox))
  {
    hide *;
    var c, d := states[i].clients[id], states[j].clients[id];
    RunsAreSafe(w, streamId, firsts, states, steps, i, i);
    RunsAreSafe(w, streamId, firsts, states, steps, i, j);
    AdvancesMeans(states[i], states[j], id);
    ClientOf(w, states[i], id);
    ClientOf(w, states[j], id);
    ReportsAndInbox(w, id, c, states[i].streamId, states[i].authority);
    ReportsAndInbox(w, id, d, states[j].streamId, states[j].authority);
    InboxIsDistinct(d);
    ReportedBetween(c.issued, d.issued, c.reported, d.reported, p);
  }

  lemma InboxIsDistinct(c: Client)
    requires InboxExact(c)
    ensures DistinctDecisions(c.reported)
  {
  }

  /** The inbox is durable: a report stays until it is acknowledged and never returns after that,
      and in every state of every run the record is one the validator accepts. */
  lemma InboxIsDurable(w: World, streamId: string, firsts: map<string, int>,
                       states: seq<System>, steps: seq<Step>, i: nat, j: nat, id: string, d: Decision)
    requires Lawful(w) && IsRun(w, streamId, firsts, states, steps) && i <= j < |states| && id in firsts
    requires id in states[i].clients && id in states[j].clients
    ensures d in states[i].clients[id].reported && d.operationId !in states[j].clients[id].acknowledged ==>
      d in states[j].clients[id].record.resolutions
    ensures d.operationId in states[i].clients[id].acknowledged ==> d !in states[j].clients[id].record.resolutions
    ensures RecordCheck(states[j].clients[id].record, states[j].streamId).Pass?
  {
    hide *;
    RunsAreSafe(w, streamId, firsts, states, steps, i, j);
    AdvancesMeans(states[i], states[j], id);
    ClientOf(w, states[j], id);
    ReportsAndInbox(w, id, states[j].clients[id], states[j].streamId, states[j].authority);
    InboxMeans(states[i].clients[id], states[j].clients[id], d);
    ValidRecordPasses(states[j].clients[id].record, states[j].streamId);
  }

  lemma InboxMeans(c: Client, later: Client, d: Decision)
    requires c.reported <= later.reported && c.acknowledged <= later.acknowledged && InboxExact(later)
    ensures d in c.reported && d.operationId !in later.acknowledged ==> d in later.record.resolutions
    ensures d.operationId in c.acknowledged ==> d !in later.record.resolutions
  {
  }

  lemma ValidRecordPasses(record: Record, streamId: string)
    requires ValidRecord(record, streamId)
    ensures RecordCheck(record, streamId).Pass?
  {
    hide ValidRecord;
  }

  /* ---- Merging, in any reachable state ---- */

  /** What a client is, in a reachable state. */
  lemma ReachableClient(w: World, s: System, id: string)
    requires Lawful(w) && Reachable(w, s) && id in s.clients
    ensures Sound(w, s.authority) && DistinctProposals(s.clients[id].issued) && Attributed(s.clients[id].issued, s.authority)
    ensures Represents(w, s.clients[id].record.replica, s.clients[id].issued, KnownTo(s.clients[id]), s.authority)
  {
    hide *;
    ReachableIsSafe(w, s);
    ClientOf(w, s, id);
    ClientParts(w, id, s.clients[id], s.streamId, s.authority);
  }

  /** And what a response that was sent to it is. */
  lemma ClientAndResponse(w: World, s: System, id: string, response: Response)
    requires Lawful(w) && Reachable(w, s) && id in s.clients && (id, response) in s.responses
    ensures Sound(w, s.authority) && DistinctProposals(s.clients[id].issued) && Attributed(s.clients[id].issued, s.authority)
    ensures Represents(w, s.clients[id].record.replica, s.clients[id].issued, KnownTo(s.clients[id]), s.authority)
    ensures Honest(response, s.authority) && response.requestedBase <= KnownTo(s.clients[id]).cursor
  {
    hide *;
    ReachableClient(w, s, id);
    ReachableIsSafe(w, s);
    InvParts(w, s);
    DeliveredIsHonest(w, s, id, response);
  }

  /** Two responses that were sent to a client may arrive in either order. */
  lemma ArrivalOrderIsIrrelevant(w: World, s: System, id: string, one: Response, two: Response)
    requires Lawful(w) && Reachable(w, s) && id in s.clients && (id, one) in s.responses && (id, two) in s.responses
    ensures var r := s.clients[id].record.replica;
      && Merge(r, one, w.replica).Ok? && Merge(r, two, w.replica).Ok?
      && var m, n := Merge(r, one, w.replica).value, Merge(r, two, w.replica).value;
      && Merge(m.state, two, w.replica).Ok? && Merge(n.state, one, w.replica).Ok?
      && var mn, nm := Merge(m.state, two, w.replica).value, Merge(n.state, one, w.replica).value;
      && mn.state == nm.state
      && (forall d :: d in m.newly + mn.newly <==> d in n.newly + nm.newly)
  {
    hide *;
    ClientAndResponse(w, s, id, one);
    ClientAndResponse(w, s, id, two);
    var c := s.clients[id];
    DeliveryOrderIsIrrelevant(w, c.record.replica, one, two, c.issued, KnownTo(c), s.authority);
  }

  /** Whatever was sent to a client, it can be merged in any order and any number of times, and only
      the set of what was merged shows in the result. */
  lemma OnlyWhatArrivesMatters(w: World, s: System, id: string, some: seq<Response>, same: seq<Response>)
    requires Lawful(w) && Reachable(w, s) && id in s.clients
    requires forall response | response in some :: (id, response) in s.responses
    requires forall response :: response in some <==> response in same
    ensures var r := s.clients[id].record.replica;
      && Fold(MergeStep(w.replica), r, some).Ok?
      && Fold(MergeStep(w.replica), r, same) == Fold(MergeStep(w.replica), r, some)
  {
    hide *;
    var c := s.clients[id];
    ReachableClient(w, s, id);
    forall response | response in some
      ensures Honest(response, s.authority) && response.requestedBase <= KnownTo(c).cursor
    {
      ClientAndResponse(w, s, id, response);
    }
    OnlyTheSetMatters(w, c.record.replica, some, same, c.issued, KnownTo(c), s.authority);
  }

  /** The last pass of a merge, which looks for receipts already confirmed, finds none: what the
      other passes leave is the outbox of the merged replica. */
  lemma LastPassIsIdle(w: World, s: System, id: string, response: Response) returns (o: Overlay, p: Progress)
    requires Lawful(w) && Reachable(w, s) && id in s.clients && (id, response) in s.responses
    ensures var r := s.clients[id].record.replica;
      && Fold(DecisionStep(w.replica.areEqual), Overlay(r.outbox, []), response.decisions) == Ok(o)
      && Fold(EntryStep(RetainedBase(r), w.replica),
              Progress(o, r.confirmedSequence, r.confirmedState, r.confirmedLog), response.entries) == Ok(p)
      && Fold(SettleStep(p.sequence, RetainedBase(r), p.log, w.replica.areEqual), [], p.overlay.outbox) == Ok(p.overlay.outbox)
  {
    hide *;
    ClientAndResponse(w, s, id, response);
    var c := s.clients[id];
    o, p := ReconciliationRemovesNothing(w, c.record.replica, response, c.issued, KnownTo(c), s.authority);
  }
}
