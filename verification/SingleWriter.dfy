/** One client writes, nothing is rejected, and applying the decided operation has the effect of
    applying its intent. Then the optimistic view is never revised: whatever has been confirmed,
    accepted beyond the page, or is still pending, it is the fold of everything ever enqueued. */
module SingleWriter {
  import opened Protocol
  import opened Validators
  import opened LogServer
  import opened Replicas
  import opened MergeLaws
  import opened Knowledge
  import opened DurableRecords
  import opened Clients
  import opened ClientSteps
  import opened ProtocolRuns
  import opened Guarantees

  /** Accepting an intent has the effect that the client showed for it. */
  ghost predicate Faithful(w: World) {
    forall s, p | w.log.decide(s, p).Accept? ::
      w.log.apply(s, w.log.decide(s, p).operation) == w.replica.applyOptimistic(s, p.intent)
  }

  ghost predicate OnlyWriter(clients: map<string, Client>, id: string) {
    id in clients && forall j | j in clients && j != id :: clients[j].issued == []
  }

  ghost predicate NothingRejected(a: Authority) {
    forall k | k in a.decisions :: a.decisions[k].decision.Accepted?
  }

  /** All intents, applied in the order they were enqueued. */
  function Foresee(w: World, ps: seq<Proposal>): State {
    if ps == [] then w.initial
    else w.replica.applyOptimistic(Foresee(w, ps[..|ps| - 1]), ps[|ps| - 1].intent)
  }

  /** The canonical log is the decided part of what the writer issued, in the same order. */
  ghost predicate LogIsIssue(issued: seq<Proposal>, a: Authority, n: nat) {
    && n == |a.log| <= |issued|
    && (forall i | 0 <= i < |issued| :: issued[i].operationId in a.decisions <==> i < n)
    && (forall i | 0 <= i < n ::
          && a.log[i].operationId == issued[i].operationId
          && a.decisions[issued[i].operationId].decision == Accepted(issued[i].operationId, i + 1, a.log[i].operation))
  }

  /* ---- The log ---- */

  /** The place of the log's entry i among what was issued. */
  function PlaceOf(a: Authority, first: int, i: nat): int
    requires i < |a.log|
  {
    a.log[i].origin.clientSequence - first
  }

  ghost predicate HasPlace(a: Authority, first: int, m: int) {
    exists i :: 0 <= i < |a.log| && PlaceOf(a, first, i) == m
  }

  ghost predicate IsPlaced(issued: seq<Proposal>, a: Authority, first: int, n: nat, i: nat)
    requires i < |a.log| && n <= |issued|
  {
    0 <= PlaceOf(a, first, i) < n && a.log[i].operationId == issued[PlaceOf(a, first, i)].operationId
  }

  ghost predicate Placed(issued: seq<Proposal>, a: Authority, first: int, n: nat) {
    && n <= |issued|
    && (forall i: nat | i < |a.log| :: IsPlaced(issued, a, first, n, i))
    && (forall i, j | 0 <= i < j < |a.log| :: PlaceOf(a, first, i) < PlaceOf(a, first, j))
    && (forall m | 0 <= m < n :: HasPlace(a, first, m))
  }

  /** Every entry of the log is the writer's own. */
  lemma EntryIsOwn(w: World, s: System, id: string, i: nat)
    requires SystemInv(w, s) && OnlyWriter(s.clients, id) && i < |s.authority.log|
    ensures var c, a, k := s.clients[id], s.authority, s.authority.log[i].operationId;
      && a.log[i].origin.clientId == id && k in a.decisions
      && 0 <= PlaceOf(a, c.first, i) < |c.issued| && k == c.issued[PlaceOf(a, c.first, i)].operationId
  {
    hide *;
    InvParts(w, s);
    SoundMeans(w, s.authority);
    EntryIsStored(w, s.authority, i);
    var j := DecidedIsIssued(w, s.clients, s.authority, s.authority.log[i].operationId);
    WriterIssued(s.clients, id, j, s.authority.log[i].operationId);
    IssueOf(w, s.clients, s.authority, id);
    OwnEntryPlace(w, s.clients, id, s.authority, i);
  }

  lemma WriterIssued(clients: map<string, Client>, id: string, j: string, k: string)
    requires OnlyWriter(clients, id) && j in clients && k in ProposalIds(clients[j].issued)
    ensures j == id
  {
  }

  lemma OwnEntryPlace(w: World, clients: map<string, Client>, id: string, a: Authority, i: nat)
    requires id in clients && i < |a.log| && Records(a, a.log[i])
    requires IssueInv(w, id, clients[id].first, clients[id].issued, a)
    requires a.log[i].operationId in ProposalIds(clients[id].issued)
    ensures var c := clients[id];
      && a.log[i].origin.clientId == id && a.log[i].operationId in a.decisions
      && 0 <= PlaceOf(a, c.first, i) < |c.issued| && a.log[i].operationId == c.issued[PlaceOf(a, c.first, i)].operationId
  {
    hide *;
    var c := clients[id];
    IssueParts(w, id, c.first, c.issued, a);
    var p := ProposalOf(c.issued, a.log[i].operationId);
    EntryOfProposal(id, c.first, c.issued, a, p, a.log[i]);
    PlaceIs(a, c.first, i);
  }

  lemma ProposalOf(issued: seq<Proposal>, id: string) returns (p: Proposal)
    requires id in ProposalIds(issued)
    ensures p in issued && p.operationId == id
  {
    p :| p in issued && p.operationId == id;
  }

  lemma PlaceIs(a: Authority, first: int, i: nat)
    requires i < |a.log|
    ensures PlaceOf(a, first, i) == a.log[i].origin.clientSequence - first
  {
  }

  lemma EntryOfProposal(id: string, first: int, issued: seq<Proposal>, a: Authority, p: Proposal, e: Entry)
    requires ValidIssue(id, first, issued) && Attributed(issued, a) && Records(a, e)
    requires p in issued && p.operationId == e.operationId
    ensures e.operationId in a.decisions && e.origin.clientId == id
    ensures 0 <= e.origin.clientSequence - first < |issued|
    ensures issued[e.origin.clientSequence - first].operationId == e.operationId
  {
    assert Remembers(a, p);
    var m :| 0 <= m < |issued| && issued[m] == p;
    hide DistinctProposals;
  }

  lemma EntryIsStored(w: World, a: Authority, i: nat)
    requires Coherent(w, a) && i < |a.log|
    ensures Records(a, a.log[i]) && a.log[i].sequence == i + 1
  {
  }

  lemma DecidedHasPlace(w: World, id: string, first: int, issued: seq<Proposal>, a: Authority, m: nat)
    requires Coherent(w, a) && NothingRejected(a) && m < |issued| && issued[m].operationId in a.decisions
    requires ValidIssue(id, first, issued) && Attributed(issued, a)
    ensures HasPlace(a, first, m)
  {
    var p := issued[m];
    hide PositionsCoherent;
    assert p in issued && Remembers(a, p) && StoredCoherent(a, p.operationId);
    var i := a.decisions[p.operationId].decision.sequence - 1;
    assert Records(a, a.log[i]) && PlaceOf(a, first, i) == m;
  }

  /** An increasing map onto the first n numbers is the identity. */
  lemma {:induction false} PlacesAreInOrder(issued: seq<Proposal>, a: Authority, first: int, n: nat, i: nat)
    requires Placed(issued, a, first, n) && i < |a.log|
    ensures PlaceOf(a, first, i) == i
  {
    forall j | 0 <= j < i ensures PlaceOf(a, first, j) == j {
      PlacesAreInOrder(issued, a, first, n, j);
    }
    var q := PlaceOf(a, first, i);
    assert IsPlaced(issued, a, first, n, i);
    if i > 0 {
      assert PlaceOf(a, first, i - 1) == i - 1;
    }
    assert HasPlace(a, first, i);
    var j :| 0 <= j < |a.log| && PlaceOf(a, first, j) == i;
    assert j == i;
  }

  lemma PlaceIsInLog(a: Authority, first: int, m: nat)
    requires HasPlace(a, first, m) && forall i: nat | i < |a.log| :: PlaceOf(a, first, i) == i
    ensures m < |a.log|
  {
  }

  lemma PlacedIsIssue(issued: seq<Proposal>, a: Authority, first: int, n: nat)
    requires Placed(issued, a, first, n)
    ensures |a.log| == n && forall i | 0 <= i < n :: a.log[i].operationId == issued[i].operationId
  {
    forall i: nat | i < |a.log| ensures PlaceOf(a, first, i) == i < n && IsPlaced(issued, a, first, n, i) {
      PlacesAreInOrder(issued, a, first, n, i);
      assert IsPlaced(issued, a, first, n, i);
    }
    assert |a.log| > 0 ==> PlaceOf(a, first, |a.log| - 1) == |a.log| - 1;
    if n > 0 {
      PlaceIsInLog(a, first, n - 1);
    }
    forall i: nat | i < n ensures a.log[i].operationId == issued[i].operationId {
      assert PlaceOf(a, first, i) == i;
    }
  }

  /** The canonical log is, position by position, the decided part of what the writer issued. */
  lemma WriterOwnsTheLog(w: World, s: System, id: string) returns (n: nat)
    requires Lawful(w) && Reachable(w, s) && OnlyWriter(s.clients, id) && NothingRejected(s.authority)
    ensures id in s.clients && LogIsIssue(s.clients[id].issued, s.authority, n)
  {
    hide *;
    ReachableIsSafe(w, s);
    n := LogIsDecidedPrefix(w, s, id);
  }

  lemma LogIsDecidedPrefix(w: World, s: System, id: string) returns (n: nat)
    requires SystemInv(w, s) && OnlyWriter(s.clients, id) && NothingRejected(s.authority)
    ensures id in s.clients && LogIsIssue(s.clients[id].issued, s.authority, n)
  {
    hide *;
    WriterIsClient(s, id);
    var c, a := s.clients[id], s.authority;
    n := DecidedIsPrefix(w, s, id);
    InvParts(w, s);
    SoundMeans(w, a);
    IssueOf(w, s.clients, a, id);
    IssueParts(w, id, c.first, c.issued, a);
    forall i: nat | i < |a.log| ensures IsPlaced(c.issued, a, c.first, n, i) && a.log[i].origin.clientId == id {
      EntryIsOwn(w, s, id, i);
      PlacedBelow(c.issued, a, c.first, n, i);
    }
    forall m: nat | m < n ensures HasPlace(a, c.first, m) {
      DecidedHasPlace(w, id, c.first, c.issued, a, m);
    }
    AllPlaced(id, c.issued, a, c.first, n);
    PlacedIsIssue(c.issued, a, c.first, n);
    LogIsIssueFrom(w, c.issued, a, n);
  }

  lemma PlacedBelow(issued: seq<Proposal>, a: Authority, first: int, n: nat, i: nat)
    requires i < |a.log| && n <= |issued| && 0 <= PlaceOf(a, first, i) < |issued|
    requires a.log[i].operationId in a.decisions && a.log[i].operationId == issued[PlaceOf(a, first, i)].operationId
    requires forall m | 0 <= m < |issued| :: issued[m].operationId in a.decisions <==> m < n
    ensures IsPlaced(issued, a, first, n, i)
  {
  }

  lemma AllPlaced(id: string, issued: seq<Proposal>, a: Authority, first: int, n: nat)
    requires n <= |issued| && Fifo(a.log)
    requires forall i: nat | i < |a.log| :: IsPlaced(issued, a, first, n, i) && a.log[i].origin.clientId == id
    requires forall m: nat | m < n :: HasPlace(a, first, m)
    ensures Placed(issued, a, first, n)
  {
    hide IsPlaced, HasPlace;
    forall i: nat, j: nat | i < j < |a.log| ensures PlaceOf(a, first, i) < PlaceOf(a, first, j) {
      assert IsPlaced(issued, a, first, n, i) && IsPlaced(issued, a, first, n, j);
    }
  }

  lemma LogIsIssueFrom(w: World, issued: seq<Proposal>, a: Authority, n: nat)
    requires Coherent(w, a) && n == |a.log| <= |issued|
    requires forall i | 0 <= i < |issued| :: issued[i].operationId in a.decisions <==> i < n
    requires forall i | 0 <= i < n :: a.log[i].operationId == issued[i].operationId
    ensures LogIsIssue(issued, a, n)
  {
    hide DecisionsCoherent, PositionsCoherent;
    forall i: nat | i < n
      ensures a.decisions[issued[i].operationId].decision == Accepted(issued[i].operationId, i + 1, a.log[i].operation)
    {
      assert Records(a, a.log[i]);
    }
  }

  /* ---- The states ---- */

  lemma {:induction false} LogStateIsForeseen(w: World, id: string, first: int, issued: seq<Proposal>, a: Authority, n: nat, m: nat)
    requires Faithful(w) && IssueInv(w, id, first, issued, a) && LogIsIssue(issued, a, n) && m <= n
    ensures StateAt(w, a, m) == Foresee(w, issued[..m])
  {
    hide IssueInv, Faithful;
    if m > 0 {
      LogStateIsForeseen(w, id, first, issued, a, n, m - 1);
      assert a.log[..m][..m - 1] == a.log[..m - 1] && issued[..m][..m - 1] == issued[..m - 1];
      EntryIsFaithful(w, id, first, issued, a, n, m - 1);
    }
  }

  lemma EntryIsFaithful(w: World, id: string, first: int, issued: seq<Proposal>, a: Authority, n: nat, i: nat)
    requires Faithful(w) && IssueInv(w, id, first, issued, a) && LogIsIssue(issued, a, n) && i < n
    ensures w.log.apply(StateAt(w, a, i), a.log[i].operation)
         == w.replica.applyOptimistic(StateAt(w, a, i), issued[i].intent)
  {
    assert issued[i] in issued && JudgedFairly(w, issued[i], a);
  }

  /** The view of the outbox of the first m proposals, over the confirmed state. */
  lemma {:induction false} ViewIsForeseen(w: World, id: string, first: int, issued: seq<Proposal>, k: Known, a: Authority, n: nat, m: nat)
    requires Lawful(w) && Faithful(w) && IssueInv(w, id, first, issued, a) && LogIsIssue(issued, a, n)
    requires 0 <= k.cursor <= n && m <= |issued|
    ensures m <= k.cursor ==> Project(issued[..m], k, a) == []
    ensures m >= k.cursor ==>
      Materialize(StateAt(w, a, k.cursor), Project(issued[..m], k, a), w.replica) == Foresee(w, issued[..m])
  {
    hide IssueInv, Faithful, StateAt, Lawful;
    if m == 0 {
      LogStateIsForeseen(w, id, first, issued, a, n, k.cursor);
      return;
    }
    assert issued[..m][..m - 1] == issued[..m - 1];
    ViewIsForeseen(w, id, first, issued, k, a, n, m - 1);
    if m <= k.cursor {
      LogStateIsForeseen(w, id, first, issued, a, n, k.cursor);
    } else {
      LastViewIsForeseen(w, id, first, issued, k, a, n, m - 1);
    }
  }

  lemma LastViewIsForeseen(w: World, id: string, first: int, issued: seq<Proposal>, k: Known, a: Authority, n: nat, m: nat)
    requires Lawful(w) && Faithful(w) && IssueInv(w, id, first, issued, a) && LogIsIssue(issued, a, n)
    requires 0 <= k.cursor <= n && k.cursor <= m < |issued|
    requires Materialize(StateAt(w, a, k.cursor), Project(issued[..m], k, a), w.replica) == Foresee(w, issued[..m])
    ensures Materialize(StateAt(w, a, k.cursor), Project(issued[..m + 1], k, a), w.replica) == Foresee(w, issued[..m + 1])
  {
    hide IssueInv, Faithful, StateAt, Project, Foresee;
    var before, x := Project(issued[..m], k, a), View(issued[m], k, a);
    ProjectOneMore(w, issued, k, a, m);
    assert |x| == 1 && (before + x)[..|before|] == before;
    if m < n {
      LogStateIsForeseen(w, id, first, issued, a, n, m);
      EntryIsFaithful(w, id, first, issued, a, n, m);
    }
  }

  lemma ProjectOneMore(w: World, issued: seq<Proposal>, k: Known, a: Authority, m: nat)
    requires m < |issued|
    ensures Project(issued[..m + 1], k, a) == Project(issued[..m], k, a) + View(issued[m], k, a)
    ensures Foresee(w, issued[..m + 1]) == w.replica.applyOptimistic(Foresee(w, issued[..m]), issued[m].intent)
  {
    assert issued[..m + 1][..m] == issued[..m];
  }

  /** Single-writer stability: in every state of every run the writer's optimistic view is the fold
      of all it has enqueued, however much of that is confirmed. */
  lemma ViewNeverFlickers(w: World, s: System, id: string)
    requires Lawful(w) && Reachable(w, s)
    requires Faithful(w) && OnlyWriter(s.clients, id) && NothingRejected(s.authority)
    ensures id in s.clients && OptimisticView(w, s.clients[id].record.replica) == Foresee(w, s.clients[id].issued)
  {
    hide *;
    ReachableIsSafe(w, s);
    ViewIsFold(w, s, id);
    ViewOf(w, s.clients[id].record.replica);
  }

  function OptimisticView(w: World, r: Replica): State {
    Materialize(r.confirmedState, r.outbox, w.replica)
  }

  lemma ViewOf(w: World, r: Replica)
    ensures OptimisticView(w, r) == Materialize(r.confirmedState, r.outbox, w.replica)
  {
  }

  lemma ViewIsFold(w: World, s: System, id: string)
    requires Lawful(w) && Faithful(w) && SystemInv(w, s) && OnlyWriter(s.clients, id) && NothingRejected(s.authority)
    ensures id in s.clients
    ensures var c := s.clients[id];
      Materialize(c.record.replica.confirmedState, c.record.replica.outbox, w.replica) == Foresee(w, c.issued)
  {
    hide *;
    WriterIsClient(s, id);
    ClientOf(w, s, id);
    var n := LogIsDecidedPrefix(w, s, id);
    ClientViewIsForeseen(w, id, s.clients[id], s.streamId, s.authority, n);
  }

  lemma ClientViewIsForeseen(w: World, id: string, c: Client, streamId: string, a: Authority, n: nat)
    requires Lawful(w) && Faithful(w) && Sound(w, a) && ClientInv(w, id, c, streamId, a) && LogIsIssue(c.issued, a, n)
    ensures Materialize(c.record.replica.confirmedState, c.record.replica.outbox, w.replica) == Foresee(w, c.issued)
  {
    hide *;
    ClientParts(w, id, c, streamId, a);
    ConfirmedStateIs(w, c, a);
    LogLength(c.issued, a, n);
    WholeIssue(c.issued);
    ViewIsForeseen(w, id, c.first, c.issued, KnownTo(c), a, n, |c.issued|);
  }

  lemma WholeIssue(issued: seq<Proposal>)
    ensures issued[..|issued|] == issued
  {
  }

  lemma WriterIsClient(s: System, id: string)
    requires OnlyWriter(s.clients, id)
    ensures id in s.clients
  {
  }

  lemma ConfirmedStateIs(w: World, c: Client, a: Authority)
    requires Represents(w, c.record.replica, c.issued, KnownTo(c), a)
    ensures 0 <= KnownTo(c).cursor <= |a.log| && c.record.replica.confirmedState == StateAt(w, a, KnownTo(c).cursor)
  {
  }

  lemma LogLength(issued: seq<Proposal>, a: Authority, n: nat)
    requires LogIsIssue(issued, a, n)
    ensures n == |a.log| <= |issued|
  {
  }

  /** A merge leaves the writer's view exactly as it was. */
  lemma MergeKeepsView(w: World, s: System, id: string, response: Response)
    requires Lawful(w) && Reachable(w, s) && (id, response) in s.responses
    requires Faithful(w) && OnlyWriter(s.clients, id) && NothingRejected(s.authority)
    ensures id in s.clients && Merge(s.clients[id].record.replica, response, w.replica).Ok?
    ensures OptimisticView(w, Merge(s.clients[id].record.replica, response, w.replica).value.state)
         == OptimisticView(w, s.clients[id].record.replica)
  {
    hide *;
    ReachableIsSafe(w, s);
    WriterIsClient(s, id);
    var t := DeliveredState(w, s, id, response);
    StillOnlyWriter(s, t, id);
    ViewIsFold(w, s, id);
    ViewIsFold(w, t, id);
    ViewOf(w, s.clients[id].record.replica);
    ViewOf(w, t.clients[id].record.replica);
  }

  lemma DeliveredState(w: World, s: System, id: string, response: Response) returns (t: System)
    requires Lawful(w) && SystemInv(w, s) && id in s.clients && (id, response) in s.responses
    ensures SystemInv(w, t) && t.authority == s.authority
    ensures t.clients.Keys == s.clients.Keys && forall j | j in s.clients :: t.clients[j].issued == s.clients[j].issued
    ensures Merge(s.clients[id].record.replica, response, w.replica).Ok?
    ensures t.clients[id].record.replica == Merge(s.clients[id].record.replica, response, w.replica).value.state
  {
    hide *;
    InvParts(w, s);
    DeliverIsAllowed(w, s, id, response);
    StepIsSafe(w, s, Deliver(id, response));
    t := Next(w, s, Deliver(id, response)).value;
    DeliveredMerges(w, s, id, response, t);
  }

  lemma DeliverIsAllowed(w: World, s: System, id: string, response: Response)
    requires Lawful(w) && id in s.clients && (id, response) in s.responses
    ensures Allowed(w, s, Deliver(id, response)) && 0 <= w.limits.maximumEntries
  {
  }

  lemma DeliveredMerges(w: World, s: System, id: string, response: Response, t: System)
    requires id in s.clients && 0 <= w.limits.maximumEntries && Next(w, s, Deliver(id, response)) == Ok(t)
    ensures t.authority == s.authority
    ensures t.clients.Keys == s.clients.Keys && forall j | j in s.clients :: t.clients[j].issued == s.clients[j].issued
    ensures Merge(s.clients[id].record.replica, response, w.replica).Ok?
    ensures t.clients[id].record.replica == Merge(s.clients[id].record.replica, response, w.replica).value.state
  {
    hide Merge, ValidRecord, AppendUnique;
  }

  lemma StillOnlyWriter(s: System, t: System, id: string)
    requires OnlyWriter(s.clients, id) && NothingRejected(s.authority) && t.authority == s.authority
    requires t.clients.Keys == s.clients.Keys && forall j | j in s.clients :: t.clients[j].issued == s.clients[j].issued
    ensures OnlyWriter(t.clients, id) && NothingRejected(t.authority)
  {
  }
}
