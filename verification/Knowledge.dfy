/** What an honest replica is. A client has issued proposals; what it knows of the authority is a
    cursor into the canonical log and a set of operations whose decisions it has received. Its
    confirmed state, retained log and outbox are then determined, and merging an honest response
    is a join: the greater cursor, the union of the decisions. Delivery order, duplication and
    delay cannot matter to a join. (src/replica.ts:236-380) */
module Knowledge {
  import opened Protocol
  import opened Validators
  import opened LogServer
  import opened Replicas
  import opened MergeLaws

  datatype Known = Known(cursor: int, decided: set<string>)

  /** The client does not know the outcome: no receipt, and no canonical entry within its cursor. */
  predicate IsOpen(id: string, k: Known, a: Authority) {
    id in a.decisions ==>
      && id !in k.decided
      && (a.decisions[id].decision.Accepted? ==> a.decisions[id].decision.sequence > k.cursor)
  }

  /** What one issued proposal contributes to the outbox. */
  function View(p: Proposal, k: Known, a: Authority): seq<OutboxEntry> {
    if IsOpen(p.operationId, k, a) then [PendingEntry(p)]
    else
      match a.decisions[p.operationId].decision
      case Rejected(_, _) => []
      case Accepted(_, sequence, operation) =>
        if sequence <= k.cursor then [] else [AcceptedEntry(p, sequence, operation)]
  }

  function Project(issued: seq<Proposal>, k: Known, a: Authority): seq<OutboxEntry> {
    if issued == [] then []
    else Project(issued[..|issued| - 1], k, a) + View(issued[|issued| - 1], k, a)
  }

  /** Issued operations whose outcome the client does not know. */
  function Unresolved(issued: seq<Proposal>, k: Known, a: Authority): set<string> {
    set p | p in issued && IsOpen(p.operationId, k, a) :: p.operationId
  }

  ghost predicate DistinctProposals(issued: seq<Proposal>) {
    forall i, j | 0 <= i < j < |issued| :: issued[i].operationId != issued[j].operationId
  }

  /** What the authority has decided of these proposals, it decided under their own identities. */
  ghost predicate Attributed(issued: seq<Proposal>, a: Authority) {
    forall p | p in issued && p.operationId in a.decisions :: Remembers(a, p)
  }

  /** r is the replica of a client that issued these proposals and knows k. */
  ghost predicate Represents(w: World, r: Replica, issued: seq<Proposal>, k: Known, a: Authority) {
    && 0 <= RetainedBase(r) <= r.confirmedSequence == k.cursor <= |a.log|
    && r.confirmedLog == a.log[RetainedBase(r)..k.cursor]
    && r.confirmedState == Replay(w.log.apply, w.initial, a.log[..k.cursor])
    && k.decided <= a.decisions.Keys
    && r.outbox == Project(issued, k, a)
  }

  function Join(k: Known, response: Response): Known {
    Known(Max(k.cursor, response.through), k.decided + DecisionIds(response.decisions))
  }

  /** The decisions learned on the way from k to l: each once, and each the permanent one. */
  ghost predicate Learned(newly: seq<Decision>, issued: seq<Proposal>, k: Known, l: Known, a: Authority) {
    && DistinctDecisions(newly)
    && DecisionIds(newly) == Unresolved(issued, k, a) - Unresolved(issued, l, a)
    && forall d | d in newly :: d.operationId in a.decisions && a.decisions[d.operationId].decision == d
  }

  /* ---- Projections ---- */

  lemma {:induction false} ProjectSplit(issued: seq<Proposal>, m: nat, k: Known, a: Authority)
    requires m < |issued|
    ensures Project(issued, k, a)
         == Project(issued[..m], k, a) + View(issued[m], k, a) + Project(issued[m + 1..], k, a)
  {
    hide View;
    var init, last, tail := issued[..|issued| - 1], issued[|issued| - 1], issued[m + 1..];
    if m < |init| {
      ProjectSplit(init, m, k, a);
      assert init[..m] == issued[..m] && init[m] == issued[m];
      assert tail[..|tail| - 1] == init[m + 1..] && tail[|tail| - 1] == last;
      assert Project(tail, k, a) == Project(init[m + 1..], k, a) + View(last, k, a);
    } else {
      assert tail == [];
    }
  }

  lemma {:induction false} ProjectSame(issued: seq<Proposal>, k: Known, a: Authority, l: Known, b: Authority)
    requires forall p | p in issued :: View(p, k, a) == View(p, l, b)
    ensures Project(issued, k, a) == Project(issued, l, b)
  {
    if issued != [] {
      assert forall p | p in issued[..|issued| - 1] :: p in issued;
      ProjectSame(issued[..|issued| - 1], k, a, l, b);
      assert issued[|issued| - 1] in issued;
    }
  }

  lemma {:induction false} ProjectedAreIssued(issued: seq<Proposal>, k: Known, a: Authority)
    ensures forall x | x in Project(issued, k, a) :: x.proposal in issued && x in View(x.proposal, k, a)
  {
    if issued != [] {
      ProjectedAreIssued(issued[..|issued| - 1], k, a);
      assert forall p | p in issued[..|issued| - 1] :: p in issued;
      assert issued[|issued| - 1] in issued;
    }
  }

  lemma {:induction false} ProjectedAreDistinct(issued: seq<Proposal>, k: Known, a: Authority)
    requires DistinctProposals(issued)
    ensures DistinctOutbox(Project(issued, k, a))
  {
    if issued != [] {
      var init := issued[..|issued| - 1];
      ProjectedAreDistinct(init, k, a);
      ProjectedAreIssued(init, k, a);
      forall x | x in Project(init, k, a) ensures x.proposal.operationId != issued[|issued| - 1].operationId {
        var i :| 0 <= i < |init| && init[i] == x.proposal;
      }
    }
  }

  /** Where one operation stands in the outbox, and how the outbox changes when only its own
      contribution changes. Minus one: it was not issued. */
  lemma Locate(issued: seq<Proposal>, id: string, k: Known, l: Known, a: Authority) returns (m: int)
    requires DistinctProposals(issued)
    requires forall p | p in issued && p.operationId != id :: View(p, k, a) == View(p, l, a)
    ensures -1 <= m < |issued|
    ensures m == -1 ==>
      && id !in ProposalIds(issued)
      && Find(Project(issued, k, a), id) == |Project(issued, k, a)|
      && Project(issued, l, a) == Project(issued, k, a)
    ensures m >= 0 ==>
      && issued[m].operationId == id
      && var o, i := Project(issued, k, a), Find(Project(issued, k, a), id);
      if View(issued[m], k, a) == [] then
        i == |o| && (View(issued[m], l, a) == [] ==> Project(issued, l, a) == o)
      else
        && i < |o|
        && [o[i]] == View(issued[m], k, a)
        && Project(issued, l, a) == o[..i] + View(issued[m], l, a) + o[i + 1..]
  {
    ProjectedAreIssued(issued, k, a);
    if id !in ProposalIds(issued) {
      m := -1;
      hide Project, View, DistinctProposals;
      FindNone(Project(issued, k, a), id);
      ProjectSame(issued, k, a, l, a);
      return;
    }
    m :| 0 <= m < |issued| && issued[m].operationId == id;
    OthersDiffer(issued, m);
    OneEntryEach(issued[m], k, a);
    hide *;
    ProjectSplit(issued, m, k, a);
    ProjectSplit(issued, m, l, a);
    ProjectSame(issued[..m], k, a, l, a);
    ProjectSame(issued[m + 1..], k, a, l, a);
    ProjectedAreIssued(issued[..m], k, a);
    ProjectedAreIssued(issued[m + 1..], k, a);
    FindInMiddle(Project(issued[..m], k, a), View(issued[m], k, a), Project(issued[m + 1..], k, a), id);
  }

  lemma OneEntryEach(p: Proposal, k: Known, a: Authority)
    ensures |View(p, k, a)| <= 1 && forall x | x in View(p, k, a) :: x.proposal == p
  {
  }

  lemma OthersDiffer(issued: seq<Proposal>, m: nat)
    requires DistinctProposals(issued) && m < |issued|
    ensures forall p | p in issued[..m] || p in issued[m + 1..] :: p in issued && p.operationId != issued[m].operationId
  {
  }

  lemma FindInMiddle(before: seq<OutboxEntry>, here: seq<OutboxEntry>, after: seq<OutboxEntry>, id: string)
    requires |here| <= 1 && forall x | x in here :: x.proposal.operationId == id
    requires forall x | x in before || x in after :: x.proposal.operationId != id
    ensures Find(before + here + after, id) == if here == [] then |before + here + after| else |before|
    ensures here != [] ==>
      var o := before + here + after;
      [o[|before|]] == here && o[..|before|] == before && o[|before| + 1..] == after
  {
    var o := before + here + after;
    if here == [] {
      FindNone(o, id);
    } else {
      assert o[|before|] in here;
      assert forall j | 0 <= j < |before| :: o[j] in before;
      FindFirst(o, |before|, id);
    }
  }

  lemma FindFirst(outbox: seq<OutboxEntry>, i: nat, id: string)
    requires i < |outbox| && outbox[i].proposal.operationId == id
    requires forall j | 0 <= j < i :: outbox[j].proposal.operationId != id
    ensures Find(outbox, id) == i
  {
    if i < |outbox| - 1 {
      FindFirst(outbox[..|outbox| - 1], i, id);
    } else {
      forall x | x in outbox[..i] ensures x.proposal.operationId != id {}
      FindNone(outbox[..i], id);
    }
  }

  /* ---- One decision, one entry ---- */

  /** One more operation is known, of those that were open. */
  lemma LearnOne(newly: seq<Decision>, d: Decision, issued: seq<Proposal>, k: Known, l: Known, m: Known, a: Authority)
    requires Learned(newly, issued, k, l, a)
    requires d.operationId in a.decisions && a.decisions[d.operationId].decision == d
    requires d.operationId in Unresolved(issued, l, a)
    requires Unresolved(issued, l, a) <= Unresolved(issued, k, a)
    requires Unresolved(issued, m, a) == Unresolved(issued, l, a) - {d.operationId}
    ensures Learned(newly + [d], issued, k, m, a)
  {
    assert d.operationId !in DecisionIds(newly);
    assert DecisionIds(newly + [d]) == DecisionIds(newly) + {d.operationId};
    forall i | 0 <= i < |newly| ensures newly[i].operationId != d.operationId {
      assert newly[i] in newly;
    }
  }

  lemma LearnNone(newly: seq<Decision>, issued: seq<Proposal>, k: Known, l: Known, m: Known, a: Authority)
    requires Learned(newly, issued, k, l, a) && Unresolved(issued, m, a) == Unresolved(issued, l, a)
    ensures Learned(newly, issued, k, m, a)
  {
    hide Unresolved, DistinctDecisions;
  }

  /** A decision received: the operation joins the decided set. */
  function Receive(k: Known, id: string): Known { k.(decided := k.decided + {id}) }

  lemma DecisionJoins(w: World, o: Overlay, d: Decision, issued: seq<Proposal>, start: Known, k: Known, a: Authority)
    requires Lawful(w) && DistinctProposals(issued)
    requires d.operationId in a.decisions && a.decisions[d.operationId].decision == d
    requires o.outbox == Project(issued, k, a)
    requires Learned(o.newly, issued, start, k, a) && Unresolved(issued, k, a) <= Unresolved(issued, start, a)
    ensures var l := Receive(k, d.operationId);
      && MergeDecision(o, d, w.replica.areEqual).Ok?
      && var q := MergeDecision(o, d, w.replica.areEqual).value;
      && q.outbox == Project(issued, l, a)
      && Learned(q.newly, issued, start, l, a)
      && Unresolved(issued, l, a) <= Unresolved(issued, k, a)
  {
    var l := Receive(k, d.operationId);
    ReceiveMovesOne(issued, k, d, a);
    var m := Locate(issued, d.operationId, k, l, a);
    if m >= 0 && IsOpen(d.operationId, k, a) {
      assert issued[m] in issued;
      LearnOne(o.newly, d, issued, start, k, l, a);
    }
    hide Project, Learned, Unresolved, DistinctProposals;
    DecisionEffect(w, o, d, issued, k, a, m);
  }

  /** Only the decided operation is affected by its decision. */
  lemma ReceiveMovesOne(issued: seq<Proposal>, k: Known, d: Decision, a: Authority)
    requires d.operationId in a.decisions
    ensures var l := Receive(k, d.operationId);
      && (forall p | p in issued && p.operationId != d.operationId :: View(p, k, a) == View(p, l, a))
      && Unresolved(issued, l, a) == Unresolved(issued, k, a) - {d.operationId}
      && (d.operationId !in Unresolved(issued, k, a) ==> Unresolved(issued, l, a) == Unresolved(issued, k, a))
      && (forall p | p in issued && p.operationId == d.operationId && IsOpen(d.operationId, k, a) ::
            d.operationId in Unresolved(issued, k, a))
  {
  }

  /** What merging one decision does to the place in the outbox where its operation stands. */
  lemma DecisionEffect(w: World, o: Overlay, d: Decision, issued: seq<Proposal>, k: Known, a: Authority, m: int)
    requires Lawful(w) && d.operationId in a.decisions && a.decisions[d.operationId].decision == d
    requires o.outbox == Project(issued, k, a) && -1 <= m < |issued|
    requires var l := Receive(k, d.operationId);
      && (m == -1 ==>
            && d.operationId !in ProposalIds(issued)
            && Find(o.outbox, d.operationId) == |o.outbox| && Project(issued, l, a) == o.outbox)
      && (m >= 0 ==>
            && issued[m].operationId == d.operationId
            && var i := Find(o.outbox, d.operationId);
            if View(issued[m], k, a) == [] then
              i == |o.outbox| && (View(issued[m], l, a) == [] ==> Project(issued, l, a) == o.outbox)
            else
              && i < |o.outbox| && [o.outbox[i]] == View(issued[m], k, a)
              && Project(issued, l, a) == o.outbox[..i] + View(issued[m], l, a) + o.outbox[i + 1..])
    ensures MergeDecision(o, d, w.replica.areEqual).Ok?
    ensures var q := MergeDecision(o, d, w.replica.areEqual).value;
      && q.outbox == Project(issued, Receive(k, d.operationId), a)
      && q.newly == if m >= 0 && IsOpen(d.operationId, k, a) then o.newly + [d] else o.newly
  {
    hide *;
    var i := Find(o.outbox, d.operationId);
    if i == |o.outbox| {
      NotInOutbox(o, d, w.replica.areEqual);
    }
    if m >= 0 {
      ViewReceived(issued[m], k, d, a);
      if View(issued[m], k, a) != [] {
        EffectAt(w, o, d, i, Project(issued, Receive(k, d.operationId), a), issued[m], IsOpen(d.operationId, k, a));
      }
    }
  }

  lemma NotInOutbox(o: Overlay, d: Decision, eq: Equality)
    requires Find(o.outbox, d.operationId) == |o.outbox|
    ensures MergeDecision(o, d, eq) == Ok(o) && o == Overlay(o.outbox, o.newly)
  {
    hide Find;
  }

  lemma EffectAt(w: World, o: Overlay, d: Decision, i: nat, after: seq<OutboxEntry>, p: Proposal, isOpen: bool)
    requires Lawful(w) && Find(o.outbox, d.operationId) == i < |o.outbox|
    requires isOpen ==>
      && [o.outbox[i]] == [PendingEntry(p)]
      && after == o.outbox[..i] + (if d.Rejected? then [] else [AcceptedEntry(p, d.sequence, d.operation)]) + o.outbox[i + 1..]
    requires !isOpen ==>
      && d.Accepted? && [o.outbox[i]] == [AcceptedEntry(p, d.sequence, d.operation)]
      && after == o.outbox[..i] + [AcceptedEntry(p, d.sequence, d.operation)] + o.outbox[i + 1..]
    ensures MergeDecision(o, d, w.replica.areEqual) == Ok(Overlay(after, if isOpen then o.newly + [d] else o.newly))
  {
    hide Find;
    assert [o.outbox[i]][0] == o.outbox[i];
    if !isOpen {
      assert o.outbox[i] == [AcceptedEntry(p, d.sequence, d.operation)][0];
      assert after == o.outbox;
    } else if d.Rejected? {
      assert after == RemoveAt(o.outbox, i);
    } else {
      assert after == o.outbox[i := AcceptedEntry(p, d.sequence, d.operation)];
    }
  }

  /** The contribution of an operation before and after its decision is received. */
  lemma ViewReceived(p: Proposal, k: Known, d: Decision, a: Authority)
    requires p.operationId == d.operationId && d.operationId in a.decisions && a.decisions[d.operationId].decision == d
    ensures var before, after := View(p, k, a), View(p, Receive(k, d.operationId), a);
      if IsOpen(d.operationId, k, a) then
        && before == [PendingEntry(p)]
        && after == if d.Rejected? then [] else [AcceptedEntry(p, d.sequence, d.operation)]
      else
        && after == before
        && (before != [] ==> d.Accepted? && before == [AcceptedEntry(p, d.sequence, d.operation)])
  {
  }

  lemma {:induction false} DecisionsJoin(
    w: World, outbox: seq<OutboxEntry>, ds: seq<Decision>, issued: seq<Proposal>, k: Known, a: Authority)
    requires Lawful(w) && DistinctProposals(issued)
    requires forall d | d in ds :: d.operationId in a.decisions && a.decisions[d.operationId].decision == d
    requires outbox == Project(issued, k, a)
    ensures var l := k.(decided := k.decided + DecisionIds(ds));
      var step := DecisionStep(w.replica.areEqual);
      && Fold(step, Overlay(outbox, []), ds).Ok?
      && var q := Fold(step, Overlay(outbox, []), ds).value;
      && q.outbox == Project(issued, l, a)
      && Learned(q.newly, issued, k, l, a)
      && Unresolved(issued, l, a) <= Unresolved(issued, k, a)
  {
    var step := DecisionStep(w.replica.areEqual);
    if ds == [] {
      assert k.(decided := k.decided + DecisionIds([])) == k;
      return;
    }
    var init, d := ds[..|ds| - 1], ds[|ds| - 1];
    assert forall x | x in init :: x in ds;
    assert d in ds && ds == init + [d];
    DecisionsJoin(w, outbox, init, issued, k, a);
    var before := Fold(step, Overlay(outbox, []), init).value;
    var l := k.(decided := k.decided + DecisionIds(init));
    assert DecisionIds(ds) == DecisionIds(init) + {d.operationId};
    assert k.(decided := k.decided + DecisionIds(ds)) == Receive(l, d.operationId);
    assert step(before, d) == MergeDecision(before, d, w.replica.areEqual);
    hide Project, Learned, Unresolved, MergeDecision;
    DecisionJoins(w, before, d, issued, k, l, a);
  }

  /** The progress of a merge is that of a client that knows k. */
  ghost predicate At(w: World, p: Progress, base: int, issued: seq<Proposal>, start: Known, k: Known, a: Authority) {
    && 0 <= base <= p.sequence == k.cursor <= |a.log|
    && p.log == a.log[base..k.cursor]
    && p.state == Replay(w.log.apply, w.initial, a.log[..k.cursor])
    && p.overlay.outbox == Project(issued, k, a)
    && Learned(p.overlay.newly, issued, start, k, a)
    && Unresolved(issued, k, a) <= Unresolved(issued, start, a)
  }

  /** The entry at the cursor: the cursor moves over it, and its operation leaves the outbox. */
  lemma EntryResolves(w: World, o: Overlay, issued: seq<Proposal>, start: Known, k: Known, a: Authority)
    requires Lawful(w) && Sound(w, a) && DistinctProposals(issued) && Attributed(issued, a)
    requires 0 <= k.cursor < |a.log|
    requires o.outbox == Project(issued, k, a)
    requires Learned(o.newly, issued, start, k, a) && Unresolved(issued, k, a) <= Unresolved(issued, start, a)
    ensures var l := k.(cursor := k.cursor + 1);
      && ResolveCommitted(o, a.log[k.cursor], w.replica.areEqual).Ok?
      && var q := ResolveCommitted(o, a.log[k.cursor], w.replica.areEqual).value;
      && q.outbox == Project(issued, l, a)
      && Learned(q.newly, issued, start, l, a)
      && Unresolved(issued, l, a) <= Unresolved(issued, k, a)
  {
    hide *;
    var e := a.log[k.cursor];
    var l := k.(cursor := k.cursor + 1);
    EntryIsRecorded(w, a, k.cursor);
    OnlyThisEntryMoves(w, issued, k, a);
    var m := Locate(issued, e.operationId, k, l, a);
    if m == -1 {
      NotThere(issued, e.operationId, k, a);
      NoneToResolve(o, e, w.replica.areEqual);
      assert Unresolved(issued, l, a) == Unresolved(issued, k, a);
      LearnNone(o.newly, issued, start, k, l, a);
    } else {
      OwnEntry(issued, m, e, a);
      ViewCommitted(issued[m], k, e, a);
      ResolveAt(w, o, e, Find(o.outbox, e.operationId), Project(issued, l, a), issued[m], IsOpen(e.operationId, k, a));
      OpenIsUnresolved(issued, issued[m], k, a);
      if IsOpen(e.operationId, k, a) {
        LearnOne(o.newly, Accepted(e.operationId, e.sequence, e.operation), issued, start, k, l, a);
      } else {
        assert Unresolved(issued, l, a) == Unresolved(issued, k, a);
        LearnNone(o.newly, issued, start, k, l, a);
      }
    }
  }

  lemma EntryIsRecorded(w: World, a: Authority, i: int)
    requires Sound(w, a) && 0 <= i < |a.log|
    ensures Records(a, a.log[i]) && a.log[i].sequence == i + 1
    ensures var e := a.log[i];
      e.operationId in a.decisions && a.decisions[e.operationId].decision == Accepted(e.operationId, e.sequence, e.operation)
  {
    hide DecisionsCoherent, PositionsCoherent;
  }

  lemma NotThere(issued: seq<Proposal>, id: string, k: Known, a: Authority)
    requires id !in ProposalIds(issued)
    ensures id !in Unresolved(issued, k, a)
  {
  }

  lemma OpenIsUnresolved(issued: seq<Proposal>, p: Proposal, k: Known, a: Authority)
    requires p in issued
    ensures p.operationId in Unresolved(issued, k, a) <==> IsOpen(p.operationId, k, a)
  {
    hide IsOpen;
  }

  lemma NoneToResolve(o: Overlay, e: Entry, eq: Equality)
    requires Find(o.outbox, e.operationId) == |o.outbox|
    ensures ResolveCommitted(o, e, eq) == Ok(o)
  {
    hide Find;
  }

  lemma OwnEntry(issued: seq<Proposal>, m: int, e: Entry, a: Authority)
    requires 0 <= m < |issued| && issued[m].operationId == e.operationId && Records(a, e) && Attributed(issued, a)
    ensures issued[m] in issued && ProposalMatches(issued[m], e)
  {
    assert Remembers(a, issued[m]);
  }

  /** The contribution of the operation whose entry is next. */
  lemma ViewCommitted(p: Proposal, k: Known, e: Entry, a: Authority)
    requires Records(a, e) && p.operationId == e.operationId && e.sequence == k.cursor + 1
    ensures View(p, k.(cursor := k.cursor + 1), a) == []
    ensures View(p, k, a) == [if IsOpen(e.operationId, k, a) then PendingEntry(p) else AcceptedEntry(p, e.sequence, e.operation)]
  {
  }

  lemma ResolveAt(w: World, o: Overlay, e: Entry, i: nat, after: seq<OutboxEntry>, p: Proposal, isOpen: bool)
    requires Lawful(w) && ProposalMatches(p, e) && Find(o.outbox, e.operationId) == i < |o.outbox|
    requires [o.outbox[i]] == [if isOpen then PendingEntry(p) else AcceptedEntry(p, e.sequence, e.operation)]
    requires after == o.outbox[..i] + [] + o.outbox[i + 1..]
    ensures ResolveCommitted(o, e, w.replica.areEqual)
         == Ok(Overlay(after, if isOpen then o.newly + [Accepted(e.operationId, e.sequence, e.operation)] else o.newly))
  {
    hide Find, ProposalMatches;
    assert o.outbox[i] == [o.outbox[i]][0];
    assert after == RemoveAt(o.outbox, i);
  }

  lemma OnlyThisEntryMoves(w: World, issued: seq<Proposal>, k: Known, a: Authority)
    requires Sound(w, a) && 0 <= k.cursor < |a.log|
    ensures var l := k.(cursor := k.cursor + 1);
      var id := a.log[k.cursor].operationId;
      && (forall p | p in issued && p.operationId != id :: View(p, k, a) == View(p, l, a))
      && Unresolved(issued, l, a) == Unresolved(issued, k, a) - {id}
  {
    var l := k.(cursor := k.cursor + 1);
    assert Records(a, a.log[k.cursor]);
    forall p | p in issued && p.operationId != a.log[k.cursor].operationId
      ensures View(p, k, a) == View(p, l, a)
      ensures IsOpen(p.operationId, k, a) <==> IsOpen(p.operationId, l, a)
    {
      assert p.operationId in a.decisions ==> StoredCoherent(a, p.operationId);
    }
  }

  /** An entry within the cursor is already out of the outbox. */
  lemma ConfirmedIsNotInOutbox(w: World, issued: seq<Proposal>, k: Known, a: Authority, s: int)
    requires Sound(w, a) && DistinctProposals(issued)
    requires 0 <= s < k.cursor <= |a.log|
    ensures Find(Project(issued, k, a), a.log[s].operationId) == |Project(issued, k, a)|
  {
    assert Records(a, a.log[s]);
    var m := Locate(issued, a.log[s].operationId, k, k, a);
  }

  lemma OldEntryJoins(w: World, p: Progress, base: int, s: int, issued: seq<Proposal>, start: Known, k: Known, a: Authority)
    requires Lawful(w) && Sound(w, a) && DistinctProposals(issued)
    requires At(w, p, base, issued, start, k, a) && 0 <= s < k.cursor
    ensures MergeEntry(p, a.log[s], base, w.replica) == Ok(p)
  {
    hide Project, Learned, Unresolved, DistinctProposals;
    ConfirmedIsNotInOutbox(w, issued, k, a, s);
    assert a.log[s].sequence == s + 1;
    assert s >= base ==> p.log[s - base] == a.log[s];
  }

  lemma NewEntryJoins(w: World, p: Progress, base: int, issued: seq<Proposal>, start: Known, k: Known, a: Authority)
    requires Lawful(w) && Sound(w, a) && DistinctProposals(issued) && Attributed(issued, a)
    requires At(w, p, base, issued, start, k, a) && k.cursor < |a.log|
    ensures MergeEntry(p, a.log[k.cursor], base, w.replica).Ok?
    ensures At(w, MergeEntry(p, a.log[k.cursor], base, w.replica).value, base, issued, start, k.(cursor := k.cursor + 1), a)
  {
    assert a.log[k.cursor].sequence == k.cursor + 1;
    AtParts(w, p, base, issued, start, k, a);
    hide *;
    EntryResolves(w, p.overlay, issued, start, k, a);
    NewEntryMoves(w, p, base, issued, start, k, a, ResolveCommitted(p.overlay, a.log[k.cursor], w.replica.areEqual).value);
  }

  lemma AtParts(w: World, p: Progress, base: int, issued: seq<Proposal>, start: Known, k: Known, a: Authority)
    requires At(w, p, base, issued, start, k, a)
    ensures 0 <= k.cursor <= |a.log| && p.overlay.outbox == Project(issued, k, a)
    ensures Learned(p.overlay.newly, issued, start, k, a) && Unresolved(issued, k, a) <= Unresolved(issued, start, a)
  {
  }

  lemma NewEntryMoves(w: World, p: Progress, base: int, issued: seq<Proposal>, start: Known, k: Known, a: Authority, q: Overlay)
    requires Lawful(w) && At(w, p, base, issued, start, k, a) && k.cursor < |a.log|
    requires a.log[k.cursor].sequence == k.cursor + 1
    requires ResolveCommitted(p.overlay, a.log[k.cursor], w.replica.areEqual) == Ok(q)
    requires var l := k.(cursor := k.cursor + 1);
      && q.outbox == Project(issued, l, a)
      && Learned(q.newly, issued, start, l, a)
      && Unresolved(issued, l, a) <= Unresolved(issued, k, a)
    ensures MergeEntry(p, a.log[k.cursor], base, w.replica).Ok?
    ensures At(w, MergeEntry(p, a.log[k.cursor], base, w.replica).value, base, issued, start, k.(cursor := k.cursor + 1), a)
  {
    hide Project, Learned, Unresolved, ResolveCommitted;
    assert a.log[..k.cursor + 1][..k.cursor] == a.log[..k.cursor];
    assert a.log[base..k.cursor + 1] == a.log[base..k.cursor] + [a.log[k.cursor]];
  }

  lemma EntryJoins(w: World, p: Progress, base: int, s: int, issued: seq<Proposal>, start: Known, k: Known, a: Authority)
    requires Lawful(w) && Sound(w, a) && DistinctProposals(issued) && Attributed(issued, a)
    requires At(w, p, base, issued, start, k, a)
    requires 0 <= s < |a.log| && s <= k.cursor
    ensures MergeEntry(p, a.log[s], base, w.replica).Ok?
    ensures At(w, MergeEntry(p, a.log[s], base, w.replica).value, base, issued, start,
               k.(cursor := Max(k.cursor, s + 1)), a)
  {
    hide Lawful, Sound, Attributed, DistinctProposals, At, MergeEntry;
    if s < k.cursor {
      assert k.(cursor := Max(k.cursor, s + 1)) == k;
      OldEntryJoins(w, p, base, s, issued, start, k, a);
    } else {
      NewEntryJoins(w, p, base, issued, start, k, a);
    }
  }

  lemma {:induction false} EntriesJoin(
    w: World, p: Progress, base: int, from: int, to: int, issued: seq<Proposal>, start: Known, k: Known, a: Authority)
    requires Lawful(w) && Sound(w, a) && DistinctProposals(issued) && Attributed(issued, a)
    requires At(w, p, base, issued, start, k, a)
    requires 0 <= from <= to <= |a.log| && from <= k.cursor
    ensures var step := EntryStep(base, w.replica);
      && Fold(step, p, a.log[from..to]).Ok?
      && At(w, Fold(step, p, a.log[from..to]).value, base, issued, start, k.(cursor := Max(k.cursor, to)), a)
  {
    hide Lawful, Sound, Attributed, DistinctProposals, At, MergeEntry;
    var step := EntryStep(base, w.replica);
    if from == to {
      assert k.(cursor := Max(k.cursor, to)) == k;
    } else {
      assert a.log[from..to][..to - from - 1] == a.log[from..to - 1];
      EntriesJoin(w, p, base, from, to - 1, issued, start, k, a);
      var before := Fold(step, p, a.log[from..to - 1]).value;
      assert step(before, a.log[to - 1]) == MergeEntry(before, a.log[to - 1], base, w.replica);
      EntryJoins(w, before, base, to - 1, issued, start, k.(cursor := Max(k.cursor, to - 1)), a);
    }
  }

  /* ---- Merging is joining ---- */

  /** An honest response, of a request made no later than now, always merges; and the replica then
      is that of a client which knows, besides what it knew, what the response says. */
  lemma HonestMergeIsJoin(w: World, r: Replica, response: Response, issued: seq<Proposal>, k: Known, a: Authority)
    requires Lawful(w) && Sound(w, a) && DistinctProposals(issued) && Attributed(issued, a)
    requires Represents(w, r, issued, k, a)
    requires Honest(response, a) && response.requestedBase <= k.cursor
    ensures Merge(r, response, w.replica).Ok?
    ensures var m := Merge(r, response, w.replica).value;
      && Represents(w, m.state, issued, Join(k, response), a)
      && RetainedBase(m.state) == RetainedBase(r)
      && m.state.clientId == r.clientId && m.state.nextClientSequence == r.nextClientSequence
      && Learned(m.newly, issued, k, Join(k, response), a)
      && Unresolved(issued, Join(k, response), a) <= Unresolved(issued, k, a)
      && (m.caughtUp <==> Join(k, response).cursor >= response.head)
  {
    RepresentedIsRetained(w, r, issued, k, a);
    HonestIsValid(w, response, a);
    hide *;
    var o, p := ReconciliationRemovesNothing(w, r, response, issued, k, a);
    MergeFromPasses(r, response, w.replica, o, p, p.overlay.outbox);
    AtRepresents(w, r, p, RetainedBase(r), issued, k, Join(k, response), a);
  }

  /** The passes of an honest merge. The last of them, which looks for receipts whose canonical entry
      is already confirmed, never finds any. */
  lemma ReconciliationRemovesNothing(w: World, r: Replica, response: Response, issued: seq<Proposal>, k: Known, a: Authority)
    returns (o: Overlay, p: Progress)
    requires Lawful(w) && Sound(w, a) && DistinctProposals(issued) && Attributed(issued, a)
    requires Represents(w, r, issued, k, a)
    requires Honest(response, a) && response.requestedBase <= k.cursor
    ensures Fold(DecisionStep(w.replica.areEqual), Overlay(r.outbox, []), response.decisions) == Ok(o)
    ensures Fold(EntryStep(RetainedBase(r), w.replica),
                 Progress(o, r.confirmedSequence, r.confirmedState, r.confirmedLog), response.entries) == Ok(p)
    ensures Fold(SettleStep(p.sequence, RetainedBase(r), p.log, w.replica.areEqual), [], p.overlay.outbox)
         == Ok(p.overlay.outbox)
    ensures At(w, p, RetainedBase(r), issued, k, Join(k, response), a) && Join(k, response).decided <= a.decisions.Keys
  {
    var base := RetainedBase(r);
    var l := k.(decided := k.decided + DecisionIds(response.decisions));
    HonestFacts(response, a);
    DecisionsJoin(w, r.outbox, response.decisions, issued, k, a);
    o := Fold(DecisionStep(w.replica.areEqual), Overlay(r.outbox, []), response.decisions).value;
    var start := Progress(o, r.confirmedSequence, r.confirmedState, r.confirmedLog);
    assert At(w, start, base, issued, k, l, a);
    assert Join(k, response).decided <= a.decisions.Keys;
    hide *;
    EntriesJoin(w, start, base, response.requestedBase, response.through, issued, k, l, a);
    p := Fold(EntryStep(base, w.replica), start, response.entries).value;
    JoinInSteps(k, response);
    AtIsSettled(w, p, base, issued, k, Join(k, response), a);
    SettledStays(p.overlay.outbox, p.sequence, base, p.log, w.replica.areEqual);
  }

  lemma HonestFacts(response: Response, a: Authority)
    requires Honest(response, a)
    ensures forall d | d in response.decisions :: d.operationId in a.decisions && a.decisions[d.operationId].decision == d
    ensures 0 <= response.requestedBase <= response.through <= |a.log|
    ensures response.entries == a.log[response.requestedBase..response.through]
  {
    forall d | d in response.decisions ensures d.operationId in a.decisions && a.decisions[d.operationId].decision == d {
      var i :| 0 <= i < |response.decisions| && response.decisions[i] == d;
      assert HonestDecision(response.decisions[i], response.head, a);
    }
  }

  lemma JoinInSteps(k: Known, response: Response)
    ensures k.(decided := k.decided + DecisionIds(response.decisions)).(cursor := Max(k.cursor, response.through))
         == Join(k, response)
  {
  }

  lemma RepresentedIsRetained(w: World, r: Replica, issued: seq<Proposal>, k: Known, a: Authority)
    requires Sound(w, a) && Represents(w, r, issued, k, a)
    ensures ValidRetained(r)
  {
    forall i | 0 <= i < |r.confirmedLog| ensures r.confirmedLog[i].sequence == RetainedBase(r) + i + 1 {
      assert r.confirmedLog[i] == a.log[RetainedBase(r) + i];
    }
  }

  lemma AtIsSettled(w: World, p: Progress, base: int, issued: seq<Proposal>, start: Known, k: Known, a: Authority)
    requires At(w, p, base, issued, start, k, a)
    ensures Settled(p.overlay.outbox, p.sequence)
  {
    ProjectedAreIssued(issued, k, a);
  }

  lemma AtRepresents(w: World, r: Replica, p: Progress, base: int, issued: seq<Proposal>, start: Known, k: Known, a: Authority)
    requires At(w, p, base, issued, start, k, a) && k.decided <= a.decisions.Keys
    ensures var next := r.(confirmedSequence := p.sequence, confirmedState := p.state,
                           confirmedLog := p.log, outbox := p.overlay.outbox);
      Represents(w, next, issued, k, a) && RetainedBase(next) == base
    ensures Learned(p.overlay.newly, issued, start, k, a)
    ensures Unresolved(issued, k, a) <= Unresolved(issued, start, a)
    ensures p.sequence == k.cursor
  {
  }

  /** A client that issued the same and knows the same, with the same retained base, is the same. */
  lemma KnowledgeDetermines(w: World, r: Replica, s: Replica, issued: seq<Proposal>, k: Known, a: Authority)
    requires Represents(w, r, issued, k, a) && Represents(w, s, issued, k, a)
    requires RetainedBase(r) == RetainedBase(s)
    requires r.clientId == s.clientId && r.nextClientSequence == s.nextClientSequence
    ensures r == s
  {
  }

  /** Two honest responses may be merged in either order: the replicas are the same, and the same
      decisions have been learned. */
  lemma DeliveryOrderIsIrrelevant(
    w: World, r: Replica, one: Response, two: Response, issued: seq<Proposal>, k: Known, a: Authority)
    requires Lawful(w) && Sound(w, a) && DistinctProposals(issued) && Attributed(issued, a)
    requires Represents(w, r, issued, k, a)
    requires Honest(one, a) && one.requestedBase <= k.cursor
    requires Honest(two, a) && two.requestedBase <= k.cursor
    ensures Merge(r, one, w.replica).Ok? && Merge(r, two, w.replica).Ok?
    ensures var m, n := Merge(r, one, w.replica).value, Merge(r, two, w.replica).value;
      && Merge(m.state, two, w.replica).Ok? && Merge(n.state, one, w.replica).Ok?
      && var mn, nm := Merge(m.state, two, w.replica).value, Merge(n.state, one, w.replica).value;
      && mn.state == nm.state
      && (forall d :: d in m.newly + mn.newly <==> d in n.newly + nm.newly)
  {
    hide Merge, Represents, Project, Honest, Attributed, Sound, Lawful;
    HonestMergeIsJoin(w, r, one, issued, k, a);
    HonestMergeIsJoin(w, r, two, issued, k, a);
    var m, n := Merge(r, one, w.replica).value, Merge(r, two, w.replica).value;
    HonestMergeIsJoin(w, m.state, two, issued, Join(k, one), a);
    HonestMergeIsJoin(w, n.state, one, issued, Join(k, two), a);
    var mn, nm := Merge(m.state, two, w.replica).value, Merge(n.state, one, w.replica).value;
    assert Join(Join(k, one), two) == Join(Join(k, two), one);
    KnowledgeDetermines(w, mn.state, nm.state, issued, Join(Join(k, one), two), a);
    LearnedTogether(m.newly, mn.newly, n.newly, nm.newly, issued, k, Join(k, one), Join(k, two), Join(Join(k, one), two), a);
  }

  lemma LearnedTogether(x: seq<Decision>, y: seq<Decision>, u: seq<Decision>, v: seq<Decision>,
                        issued: seq<Proposal>, k: Known, l: Known, m: Known, n: Known, a: Authority)
    requires Learned(x, issued, k, l, a) && Learned(y, issued, l, n, a)
    requires Learned(u, issued, k, m, a) && Learned(v, issued, m, n, a)
    requires Unresolved(issued, n, a) <= Unresolved(issued, l, a) <= Unresolved(issued, k, a)
    requires Unresolved(issued, n, a) <= Unresolved(issued, m, a) <= Unresolved(issued, k, a)
    ensures forall d :: d in x + y <==> d in u + v
  {
    hide Unresolved;
    assert DecisionIds(x + y) == DecisionIds(x) + DecisionIds(y);
    assert DecisionIds(u + v) == DecisionIds(u) + DecisionIds(v);
    forall d ensures d in x + y <==> d in u + v {
      SameOutcome(x + y, u + v, d, Unresolved(issued, k, a) - Unresolved(issued, n, a), a);
    }
  }

  lemma SameOutcome(x: seq<Decision>, y: seq<Decision>, d: Decision, ids: set<string>, a: Authority)
    requires forall e | e in x || e in y :: e.operationId in a.decisions && a.decisions[e.operationId].decision == e
    requires DecisionIds(x) == ids && DecisionIds(y) == ids
    ensures d in x <==> d in y
  {
    if d in x {
      assert d.operationId in DecisionIds(y);
    }
    if d in y {
      assert d.operationId in DecisionIds(x);
    }
  }

  /* ---- Any number of responses ---- */

  function MergeStep(interpreter: ReplicaInterpreter): (Replica, Response) -> Result<Replica> {
    (r, response) => match Merge(r, response, interpreter) case Ok(m) => Ok(m.state) case Err(error) => Err(error)
  }

  function JoinEach(k: Known, responses: seq<Response>): Known {
    if responses == [] then k else Join(JoinEach(k, responses[..|responses| - 1]), responses[|responses| - 1])
  }

  lemma {:induction false} EachMergeIsJoin(
    w: World, r: Replica, responses: seq<Response>, issued: seq<Proposal>, k: Known, a: Authority)
    requires Lawful(w) && Sound(w, a) && DistinctProposals(issued) && Attributed(issued, a)
    requires Represents(w, r, issued, k, a)
    requires forall response | response in responses :: Honest(response, a) && response.requestedBase <= k.cursor
    ensures Fold(MergeStep(w.replica), r, responses).Ok?
    ensures var s := Fold(MergeStep(w.replica), r, responses).value;
      && Represents(w, s, issued, JoinEach(k, responses), a) && RetainedBase(s) == RetainedBase(r)
      && s.clientId == r.clientId && s.nextClientSequence == r.nextClientSequence
      && k.cursor <= JoinEach(k, responses).cursor
  {
    hide Lawful, Sound, DistinctProposals, Attributed, Represents, Honest, Merge, RetainedBase;
    if responses != [] {
      var init, last := responses[..|responses| - 1], responses[|responses| - 1];
      assert forall response | response in init :: response in responses;
      EachMergeIsJoin(w, r, init, issued, k, a);
      var before := Fold(MergeStep(w.replica), r, init).value;
      assert last in responses;
      assert MergeStep(w.replica)(before, last) ==
        match Merge(before, last, w.replica) case Ok(m) => Ok(m.state) case Err(error) => Err(error);
      HonestMergeIsJoin(w, before, last, issued, JoinEach(k, init), a);
    }
  }

  lemma {:induction false} JoinEachIsLeastBound(k: Known, responses: seq<Response>)
    ensures var l := JoinEach(k, responses);
      && k.cursor <= l.cursor && (forall x | x in responses :: x.through <= l.cursor)
      && (l.cursor == k.cursor || exists x :: x in responses && x.through == l.cursor)
      && (forall id :: id in l.decided <==> id in k.decided || exists x :: x in responses && id in DecisionIds(x.decisions))
  {
    if responses != [] {
      var init, last := responses[..|responses| - 1], responses[|responses| - 1];
      JoinEachIsLeastBound(k, init);
      assert responses == init + [last];
      hide DecisionIds;
      assert forall x :: x in responses <==> x in init || x == last;
    }
  }

  /** Two sequences of honest responses with the same members leave the same replica: order,
      repetition and delay have no effect at all. */
  lemma OnlyTheSetMatters(
    w: World, r: Replica, some: seq<Response>, same: seq<Response>, issued: seq<Proposal>, k: Known, a: Authority)
    requires Lawful(w) && Sound(w, a) && DistinctProposals(issued) && Attributed(issued, a)
    requires Represents(w, r, issued, k, a)
    requires forall response | response in some :: Honest(response, a) && response.requestedBase <= k.cursor
    requires forall response :: response in some <==> response in same
    ensures Fold(MergeStep(w.replica), r, some).Ok?
    ensures Fold(MergeStep(w.replica), r, same) == Fold(MergeStep(w.replica), r, some)
  {
    hide Lawful, Sound, DistinctProposals, Attributed, Represents, Honest, MergeStep, RetainedBase;
    EachMergeIsJoin(w, r, some, issued, k, a);
    EachMergeIsJoin(w, r, same, issued, k, a);
    JoinEachIsLeastBound(k, some);
    JoinEachIsLeastBound(k, same);
    var l, m := JoinEach(k, some), JoinEach(k, same);
    hide JoinEach, DecisionIds;
    assert l.decided == m.decided;
    assert l.cursor == m.cursor;
    KnowledgeDetermines(w, Fold(MergeStep(w.replica), r, some).value, Fold(MergeStep(w.replica), r, same).value, issued, l, a);
  }
}
