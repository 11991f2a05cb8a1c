/** What materializeOptimisticState shows, for any number of writers and any interpreters: accepted
    operations as the authority decided them, pending ones as the client intends them. */
module OptimisticViews {
  import opened Protocol
  import opened Validators
  import opened LogServer
  import opened Replicas
  import opened Knowledge
  import opened Clients
  import opened ClientSteps
  import opened ProtocolRuns
  import opened Guarantees

  /** Intents applied one after another, the way a client shows them. */
  function Foretell(w: World, s: State, ps: seq<Proposal>): State {
    if ps == [] then s else w.replica.applyOptimistic(Foretell(w, s, ps[..|ps| - 1]), ps[|ps| - 1].intent)
  }

  /** Accepted entries at the n sequences after the cursor, then pending ones only. */
  ghost predicate AcceptedThenPending(r: Replica, n: nat) {
    && n <= |r.outbox|
    && (forall i | 0 <= i < n :: r.outbox[i].AcceptedEntry? && r.outbox[i].sequence == r.confirmedSequence + i + 1)
    && (forall i | n <= i < |r.outbox| :: r.outbox[i].PendingEntry?)
  }

  function ProposalsOf(outbox: seq<OutboxEntry>): (ps: seq<Proposal>)
    ensures |ps| == |outbox| && forall i | 0 <= i < |ps| :: ps[i] == outbox[i].proposal
  {
    seq(|outbox|, i requires 0 <= i < |outbox| => outbox[i].proposal)
  }

  /** A receipt in the outbox is for the entry that the log holds at its sequence, once it is there. */
  lemma ReceiptIsForEntry(w: World, issued: seq<Proposal>, k: Known, a: Authority, x: OutboxEntry)
    requires Sound(w, a) && 0 <= k.cursor && x in Project(issued, k, a) && x.AcceptedEntry?
    ensures k.cursor < x.sequence <= |a.log| && x.operation == a.log[x.sequence - 1].operation
    ensures x.proposal.operationId == a.log[x.sequence - 1].operationId
    ensures x.proposal.operationId in a.decisions
    ensures a.decisions[x.proposal.operationId].decision == Accepted(x.proposal.operationId, x.sequence, x.operation)
  {
    ProjectedAreIssued(issued, k, a);
    assert StoredCoherent(a, x.proposal.operationId);
    var e := a.log[x.sequence - 1];
    assert Records(a, e);
  }

  /** The accepted part of the view is the canonical log, further on than is confirmed. */
  lemma {:induction false} AcceptedPartIsLog(w: World, r: Replica, issued: seq<Proposal>, k: Known, a: Authority, n: nat, m: nat)
    requires Lawful(w) && Sound(w, a) && Represents(w, r, issued, k, a) && AcceptedThenPending(r, n) && m <= n
    ensures k.cursor + m <= |a.log|
    ensures Materialize(r.confirmedState, r.outbox[..m], w.replica) == StateAt(w, a, k.cursor + m)
  {
    hide Sound, Project, Replay, Lawful;
    if m > 0 {
      AcceptedPartIsLog(w, r, issued, k, a, n, m - 1);
      assert r.outbox[..m][..m - 1] == r.outbox[..m - 1] && r.outbox[m - 1] in r.outbox;
      ReceiptIsForEntry(w, issued, k, a, r.outbox[m - 1]);
      NextState(w, a, k.cursor + m - 1);
    }
  }

  lemma NextState(w: World, a: Authority, s: int)
    requires Lawful(w) && 0 <= s < |a.log|
    ensures StateAt(w, a, s + 1) == w.replica.applyCommitted(StateAt(w, a, s), a.log[s].operation)
  {
    assert a.log[..s + 1][..s] == a.log[..s];
  }

  lemma {:induction false} PendingPartIsForetold(w: World, r: Replica, n: nat, m: nat)
    requires AcceptedThenPending(r, n) && n <= m <= |r.outbox|
    ensures Materialize(r.confirmedState, r.outbox[..m], w.replica)
         == Foretell(w, Materialize(r.confirmedState, r.outbox[..n], w.replica), ProposalsOf(r.outbox[n..m]))
  {
    hide Materialize, Foretell;
    var shown := Materialize(r.confirmedState, r.outbox[..n], w.replica);
    if m > n {
      PendingPartIsForetold(w, r, n, m - 1);
      PendingOnTop(w, r, m - 1);
      assert ProposalsOf(r.outbox[n..m]) == ProposalsOf(r.outbox[n..m - 1]) + [r.outbox[m - 1].proposal];
      OneMoreForetold(w, shown, ProposalsOf(r.outbox[n..m - 1]), r.outbox[m - 1].proposal);
    } else {
      assert r.outbox[n..m] == [];
      NothingForetold(w, shown);
    }
  }

  lemma PendingOnTop(w: World, r: Replica, m: nat)
    requires m < |r.outbox| && r.outbox[m].PendingEntry?
    ensures Materialize(r.confirmedState, r.outbox[..m + 1], w.replica)
         == w.replica.applyOptimistic(Materialize(r.confirmedState, r.outbox[..m], w.replica), r.outbox[m].proposal.intent)
  {
    assert r.outbox[..m + 1][..m] == r.outbox[..m];
  }

  lemma OneMoreForetold(w: World, s: State, ps: seq<Proposal>, p: Proposal)
    ensures Foretell(w, s, ps + [p]) == w.replica.applyOptimistic(Foretell(w, s, ps), p.intent)
  {
    assert (ps + [p])[..|ps|] == ps;
  }

  /** In every reachable state: where the outbox is accepted entries right after the cursor and then
      pending ones, the view is the canonical state after those entries with the pending intents on
      top. With nothing pending it is the authority's own state there. */
  lemma ViewIsLogThenIntents(w: World, s: System, id: string, n: nat)
    requires Lawful(w) && Reachable(w, s) && id in s.clients && AcceptedThenPending(s.clients[id].record.replica, n)
    ensures var r, a := s.clients[id].record.replica, s.authority;
      && 0 <= r.confirmedSequence <= r.confirmedSequence + n <= |a.log|
      && Materialize(r.confirmedState, r.outbox, w.replica)
         == Foretell(w, StateAt(w, a, r.confirmedSequence + n), ProposalsOf(r.outbox[n..]))
      && (n == |r.outbox| ==>
            Materialize(r.confirmedState, r.outbox, w.replica) == StateAt(w, a, r.confirmedSequence + n))
      && (n == |r.outbox| && r.confirmedSequence + n == |a.log| ==>
            Materialize(r.confirmedState, r.outbox, w.replica) == a.state)
  {
    hide *;
    ReachableClient(w, s, id);
    var c, a := s.clients[id], s.authority;
    AcceptedPartIsLog(w, c.record.replica, c.issued, KnownTo(c), a, n, n);
    Within(c.record.replica, n);
    PendingPartIsForetold(w, c.record.replica, n, |c.record.replica.outbox|);
    Slices(c.record.replica.outbox, n);
    CursorOf(w, c, a);
    NothingForetold(w, StateAt(w, a, KnownTo(c).cursor + n));
    SoundMeans(w, a);
    HeadState(w, a);
  }

  lemma Within(r: Replica, n: nat)
    requires AcceptedThenPending(r, n)
    ensures n <= |r.outbox|
  {
  }

  lemma Slices<T>(xs: seq<T>, n: nat)
    requires n <= |xs|
    ensures xs[..|xs|] == xs && xs[n..|xs|] == xs[n..] && (n == |xs| ==> xs[n..] == [])
  {
  }

  lemma CursorOf(w: World, c: Client, a: Authority)
    requires Represents(w, c.record.replica, c.issued, KnownTo(c), a)
    ensures 0 <= c.record.replica.confirmedSequence == KnownTo(c).cursor <= |a.log|
  {
  }

  lemma NothingForetold(w: World, s: State)
    ensures Foretell(w, s, ProposalsOf([])) == s
  {
  }

  lemma HeadState(w: World, a: Authority)
    requires Coherent(w, a)
    ensures StateAt(w, a, |a.log|) == a.state
  {
    assert a.log[..|a.log|] == a.log;
  }

  /** One entry further up: the decided operation of what is accepted, the intent of what is pending. */
  ghost predicate OneEntryOn(w: World, a: Authority, x: OutboxEntry, below: State, above: State) {
    var id := x.proposal.operationId;
    if x.PendingEntry? then above == w.replica.applyOptimistic(below, x.proposal.intent)
    else
      && id in a.decisions && a.decisions[id].decision.Accepted?
      && above == w.log.apply(below, a.decisions[id].decision.operation)
  }

  lemma EntryOnTop(w: World, r: Replica, issued: seq<Proposal>, k: Known, a: Authority, i: nat)
    requires Lawful(w) && Sound(w, a) && Represents(w, r, issued, k, a) && i < |r.outbox|
    ensures OneEntryOn(w, a, r.outbox[i], Materialize(r.confirmedState, r.outbox[..i], w.replica),
                       Materialize(r.confirmedState, r.outbox[..i + 1], w.replica))
  {
    hide Sound, Project, Replay, Lawful;
    assert r.outbox[..i + 1][..i] == r.outbox[..i] && r.outbox[i] in r.outbox;
    AppliesAlike(w, Materialize(r.confirmedState, r.outbox[..i], w.replica), r.outbox[i]);
    if r.outbox[i].AcceptedEntry? {
      ReceiptIsForEntry(w, issued, k, a, r.outbox[i]);
    }
  }

  lemma AppliesAlike(w: World, s: State, x: OutboxEntry)
    requires Lawful(w)
    ensures x.AcceptedEntry? ==> w.replica.applyCommitted(s, x.operation) == w.log.apply(s, x.operation)
  {
  }

  /** In every reachable state, whatever the outbox holds: the view comes from the confirmed state by
      applying, in outbox order, the decided operation of what is accepted and the intent of what is
      pending. */
  lemma ViewIsBuiltUp(w: World, s: System, id: string) returns (views: seq<State>)
    requires Lawful(w) && Reachable(w, s) && id in s.clients
    ensures var r, a := s.clients[id].record.replica, s.authority;
      && |views| == |r.outbox| + 1
      && views[0] == r.confirmedState
      && views[|r.outbox|] == Materialize(r.confirmedState, r.outbox, w.replica)
      && forall i | 0 <= i < |r.outbox| :: OneEntryOn(w, a, r.outbox[i], views[i], views[i + 1])
  {
    hide *;
    var c, r, a := s.clients[id], s.clients[id].record.replica, s.authority;
    ReachableClient(w, s, id);
    views := ViewsOf(w, r);
    forall i | 0 <= i < |r.outbox| ensures OneEntryOn(w, a, r.outbox[i], views[i], views[i + 1]) {
      EntryOnTop(w, r, c.issued, KnownTo(c), a, i);
    }
  }

  lemma ViewsOf(w: World, r: Replica) returns (views: seq<State>)
    ensures |views| == |r.outbox| + 1
    ensures forall i | 0 <= i <= |r.outbox| :: views[i] == Materialize(r.confirmedState, r.outbox[..i], w.replica)
    ensures views[0] == r.confirmedState && views[|r.outbox|] == Materialize(r.confirmedState, r.outbox, w.replica)
  {
    views := seq(|r.outbox| + 1, i requires 0 <= i <= |r.outbox| => Materialize(r.confirmedState, r.outbox[..i], w.replica));
    assert r.outbox[..|r.outbox|] == r.outbox;
  }
}
