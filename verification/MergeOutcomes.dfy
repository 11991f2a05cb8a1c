/** src/replica.ts:236-380: when mergeSyncResponse succeeds, for any replica and any well-formed
    response, and what it then leaves: said of the inputs, and not of the three passes over them. */
module MergeOutcomes {
  import opened Protocol
  import opened Validators
  import opened Replicas
  import opened MergeLaws

  /* ---- Decisions ---- */

  /** What is known of an operation already agrees with what the decision says of it. */
  predicate AgreesWith(x: OutboxEntry, d: Decision, eq: Equality) {
    x.AcceptedEntry? ==> d.Accepted? && x.sequence == d.sequence && eq(x.operation, d.operation)
  }

  ghost predicate DecisionsAgree(outbox: seq<OutboxEntry>, ds: seq<Decision>, eq: Equality) {
    forall x, d | x in outbox && d in ds && d.operationId == x.proposal.operationId :: AgreesWith(x, d, eq)
  }

  ghost predicate IsPending(outbox: seq<OutboxEntry>, id: string) {
    exists x :: x in outbox && x.PendingEntry? && x.proposal.operationId == id
  }

  /** With the decisions known, the outbox holds y: pending without a decision, or accepted, before or
      by one of them. */
  ghost predicate IsKnown(outbox: seq<OutboxEntry>, ds: seq<Decision>, y: OutboxEntry) {
    if y.PendingEntry? then y in outbox && y.proposal.operationId !in DecisionIds(ds)
    else
      || y in outbox
      || (PendingEntry(y.proposal) in outbox && Accepted(y.proposal.operationId, y.sequence, y.operation) in ds)
  }

  lemma FindsTheOnly(outbox: seq<OutboxEntry>, id: string)
    requires DistinctOutbox(outbox)
    ensures var i := Find(outbox, id);
      && (i == |outbox| ==> forall x | x in outbox :: x.proposal.operationId != id)
      && (i < |outbox| ==> outbox[i] in outbox && outbox[i].proposal.operationId == id
                           && forall x | x in outbox && x.proposal.operationId == id :: x == outbox[i])
  {
    var i := Find(outbox, id);
    forall x | x in outbox && x.proposal.operationId == id ensures i < |outbox| && x == outbox[i] {
      var j :| 0 <= j < |outbox| && outbox[j] == x;
    }
  }

  lemma WithoutOne(outbox: seq<OutboxEntry>, i: nat)
    requires i < |outbox| && DistinctOutbox(outbox)
    ensures DistinctOutbox(RemoveAt(outbox, i))
    ensures forall y :: y in RemoveAt(outbox, i) <==> y in outbox && y.proposal.operationId != outbox[i].proposal.operationId
  {
    RemovedIsGone(outbox, i);
    forall y | y in outbox && y.proposal.operationId != outbox[i].proposal.operationId ensures y in RemoveAt(outbox, i) {
      var j :| 0 <= j < |outbox| && outbox[j] == y;
      assert RemoveAt(outbox, i)[if j < i then j else j - 1] == y;
    }
  }

  lemma WithAnother(outbox: seq<OutboxEntry>, i: nat, x: OutboxEntry)
    requires i < |outbox| && DistinctOutbox(outbox) && x.proposal.operationId == outbox[i].proposal.operationId
    ensures DistinctOutbox(outbox[i := x])
    ensures forall y :: y in outbox[i := x] <==> y == x || (y in outbox && y.proposal.operationId != x.proposal.operationId)
  {
    ReplacedIsReplaced(outbox, i, x);
    var after := outbox[i := x];
    assert after[i] == x;
    forall y | y in outbox && y.proposal.operationId != x.proposal.operationId ensures y in after {
      var j :| 0 <= j < |outbox| && outbox[j] == y;
      assert after[j] == y;
    }
  }

  /** After one decision, in terms of the outbox before it. */
  ghost predicate Follows(before: seq<OutboxEntry>, d: Decision, y: OutboxEntry) {
    if y.proposal.operationId != d.operationId then y in before
    else y.AcceptedEntry? && (y in before || (PendingEntry(y.proposal) in before && d == Accepted(d.operationId, y.sequence, y.operation)))
  }

  lemma OneDecision(o: Overlay, d: Decision, eq: Equality)
    requires DistinctOutbox(o.outbox)
    ensures MergeDecision(o, d, eq).Ok? <==>
      forall x | x in o.outbox && x.proposal.operationId == d.operationId :: AgreesWith(x, d, eq)
    ensures MergeDecision(o, d, eq).Ok? ==>
      var after := MergeDecision(o, d, eq).value;
      && DistinctOutbox(after.outbox)
      && (forall y :: y in after.outbox <==> Follows(o.outbox, d, y))
      && after.newly == o.newly + (if IsPending(o.outbox, d.operationId) then [d] else [])
    ensures MergeDecision(o, d, eq).Err? ==> MergeDecision(o, d, eq).error == DecisionConflict(d.operationId)
  {
    FindsTheOnly(o.outbox, d.operationId);
    var i := Find(o.outbox, d.operationId);
    hide Find, DistinctOutbox;
    if i < |o.outbox| && o.outbox[i].PendingEntry? {
      if d.Rejected? {
        WithoutOne(o.outbox, i);
      } else {
        WithAnother(o.outbox, i, AcceptedEntry(o.outbox[i].proposal, d.sequence, d.operation));
      }
    }
  }

  /** A decision differs from what is known to be accepted, and the error names its operation. */
  ghost predicate DecisionRefused(outbox: seq<OutboxEntry>, ds: seq<Decision>, eq: Equality, error: Error) {
    exists x, d :: x in outbox && d in ds && d.operationId == x.proposal.operationId && !AgreesWith(x, d, eq)
      && error == DecisionConflict(d.operationId)
  }

  lemma StillRefused(outbox: seq<OutboxEntry>, init: seq<Decision>, d: Decision, eq: Equality, error: Error)
    ensures DecisionRefused(outbox, init, eq, error) ==> DecisionRefused(outbox, init + [d], eq, error)
    ensures (exists x :: x in outbox && x.proposal.operationId == d.operationId && !AgreesWith(x, d, eq)) ==>
      DecisionRefused(outbox, init + [d], eq, DecisionConflict(d.operationId))
  {
    hide AgreesWith;
    assert d in init + [d] && forall c | c in init :: c in init + [d];
  }

  lemma {:induction false} AllDecisions(outbox: seq<OutboxEntry>, ds: seq<Decision>, eq: Equality)
    requires DistinctOutbox(outbox) && DistinctDecisions(ds)
    ensures Fold(DecisionStep(eq), Overlay(outbox, []), ds).Ok? <==> DecisionsAgree(outbox, ds, eq)
    ensures Fold(DecisionStep(eq), Overlay(outbox, []), ds).Ok? ==>
      var after := Fold(DecisionStep(eq), Overlay(outbox, []), ds).value;
      && DistinctOutbox(after.outbox)
      && (forall y :: y in after.outbox <==> IsKnown(outbox, ds, y))
      && (forall d :: d in after.newly <==> d in ds && IsPending(outbox, d.operationId))
    ensures Fold(DecisionStep(eq), Overlay(outbox, []), ds).Err? ==>
      DecisionRefused(outbox, ds, eq, Fold(DecisionStep(eq), Overlay(outbox, []), ds).error)
  {
    if ds != [] {
      var init, d := ds[..|ds| - 1], ds[|ds| - 1];
      assert ds == init + [d];
      LastIsNew(init, d);
      AllDecisions(outbox, init, eq);
      var before := Fold(DecisionStep(eq), Overlay(outbox, []), init);
      hide DistinctOutbox, DistinctDecisions, MergeDecision;
      hide DecisionRefused, AgreesWith, IsPending;
      if before.Ok? {
        assert DecisionStep(eq)(before.value, d) == MergeDecision(before.value, d, eq);
        OneDecision(before.value, d, eq);
        DecisionOnTop(outbox, init, d, before.value.outbox, eq);
        StillRefused(outbox, init, d, eq, DecisionConflict(d.operationId));
      } else {
        StillRefused(outbox, init, d, eq, before.error);
      }
    }
  }

  lemma LastIsNew(init: seq<Decision>, d: Decision)
    requires DistinctDecisions(init + [d])
    ensures DistinctDecisions(init) && d.operationId !in DecisionIds(init)
  {
    var ds := init + [d];
    assert ds[|init|] == d && forall i | 0 <= i < |init| :: ds[i] == init[i];
  }

  /** A decision on an operation that the earlier ones did not touch. */
  lemma DecisionOnTop(outbox: seq<OutboxEntry>, init: seq<Decision>, d: Decision, before: seq<OutboxEntry>, eq: Equality)
    requires d.operationId !in DecisionIds(init) && DecisionsAgree(outbox, init, eq)
    requires forall y :: y in before <==> IsKnown(outbox, init, y)
    ensures DecisionsAgree(outbox, init + [d], eq) <==>
      forall x | x in before && x.proposal.operationId == d.operationId :: AgreesWith(x, d, eq)
    ensures forall y :: Follows(before, d, y) <==> IsKnown(outbox, init + [d], y)
    ensures IsPending(before, d.operationId) <==> IsPending(outbox, d.operationId)
    ensures forall x: OutboxEntry | x.proposal.operationId == d.operationId :: x in before <==> x in outbox
  {
    hide AgreesWith;
    DecisionIdsOneMore(init, d);
    assert forall c :: c in init + [d] <==> c in init || c == d;
    forall x: OutboxEntry | x.proposal.operationId == d.operationId ensures x in before <==> x in outbox {
    }
  }

  /* ---- Entries ---- */

  /** The entry is of what the client proposed. */
  predicate IsOf(y: OutboxEntry, e: Entry) {
    && y.proposal.operationId == e.operationId
    && y.proposal.clientId == e.origin.clientId
    && y.proposal.clientSequence == e.origin.clientSequence
    && y.proposal.intentHash == e.origin.intentHash
  }

  /** And it is what the client was told. */
  predicate Fulfils(y: OutboxEntry, e: Entry, eq: Equality) {
    && IsOf(y, e)
    && (y.AcceptedEntry? ==> y.sequence == e.sequence && eq(y.operation, e.operation))
  }

  /** An entry of another proposal diverges; one of another outcome conflicts. */
  predicate Misfits(y: OutboxEntry, e: Entry, eq: Equality, error: Error) {
    if IsOf(y, e) then !Fulfils(y, e, eq) && error == DecisionConflict(e.operationId)
    else error == LogDivergence(e.sequence)
  }

  ghost predicate EntryRefused(outbox: seq<OutboxEntry>, log: seq<Entry>, base: int, e: Entry, eq: Equality, error: Error) {
    && e.sequence > base
    && (|| (!Repeats(log, base, e, eq) && error == LogDivergence(e.sequence))
        || exists y :: y in outbox && y.proposal.operationId == e.operationId && Misfits(y, e, eq, error))
  }

  ghost predicate SomeRefused(outbox: seq<OutboxEntry>, log: seq<Entry>, base: int, es: seq<Entry>, eq: Equality, error: Error) {
    exists e :: e in es && EntryRefused(outbox, log, base, e, eq, error)
  }

  /** What is retained at the entry's sequence is this entry. */
  predicate Repeats(log: seq<Entry>, base: int, e: Entry, eq: Equality)
    requires e.sequence > base
  {
    e.sequence - base <= |log| ==>
      var retained := log[e.sequence - base - 1];
      retained.operationId == e.operationId && retained.origin == e.origin && eq(retained.operation, e.operation)
  }

  /** Of the page only what is not compacted counts: it repeats what is retained and fulfils what is
      in the outbox. */
  ghost predicate EntryAgrees(outbox: seq<OutboxEntry>, log: seq<Entry>, base: int, e: Entry, eq: Equality) {
    e.sequence > base ==>
      && Repeats(log, base, e, eq)
      && forall y | y in outbox && y.proposal.operationId == e.operationId :: Fulfils(y, e, eq)
  }

  ghost predicate EntriesAgree(outbox: seq<OutboxEntry>, log: seq<Entry>, base: int, es: seq<Entry>, eq: Equality) {
    forall e | e in es :: EntryAgrees(outbox, log, base, e, eq)
  }

  /** The operation has an entry on the page that counts. */
  ghost predicate HasEntry(es: seq<Entry>, base: int, id: string) {
    exists e :: e in es && e.sequence > base && e.operationId == id
  }

  /** The page from some sequence on, in order. */
  ghost predicate Consecutive(es: seq<Entry>, from: int) {
    && (forall i | 0 <= i < |es| :: es[i].sequence == from + i + 1)
    && (forall i, j | 0 <= i < j < |es| :: es[i].operationId != es[j].operationId)
  }

  /** The entries of the page beyond the cursor. */
  function Beyond(es: seq<Entry>, from: int, cursor: int): seq<Entry>
    requires from <= cursor
  {
    es[Min(cursor - from, |es|)..]
  }

  /** The overlay after an entry that counts. */
  ghost predicate Resolved(before: Overlay, e: Entry, after: Overlay) {
    && DistinctOutbox(after.outbox)
    && (forall y :: y in after.outbox <==> y in before.outbox && y.proposal.operationId != e.operationId)
    && after.newly == before.newly
         + (if IsPending(before.outbox, e.operationId) then [Accepted(e.operationId, e.sequence, e.operation)] else [])
  }

  lemma OneResolution(o: Overlay, e: Entry, eq: Equality)
    requires DistinctOutbox(o.outbox)
    ensures ResolveCommitted(o, e, eq).Ok? <==>
      forall y | y in o.outbox && y.proposal.operationId == e.operationId :: Fulfils(y, e, eq)
    ensures ResolveCommitted(o, e, eq).Ok? ==>
      Resolved(o, e, ResolveCommitted(o, e, eq).value)
    ensures ResolveCommitted(o, e, eq).Err? ==>
      exists y :: y in o.outbox && y.proposal.operationId == e.operationId && Misfits(y, e, eq, ResolveCommitted(o, e, eq).error)
  {
    FindsTheOnly(o.outbox, e.operationId);
    var i := Find(o.outbox, e.operationId);
    hide Find, DistinctOutbox;
    if i < |o.outbox| {
      WithoutOne(o.outbox, i);
    }
  }

  /** The progress after the first entries of a page that starts after from, in terms of where it began. */
  ghost predicate HasAbsorbed(start: Progress, base: int, from: int, es: seq<Entry>, interpreter: ReplicaInterpreter, p: Progress)
    requires from <= start.sequence
  {
    && p.sequence == Max(start.sequence, from + |es|)
    && p.log == start.log + Beyond(es, from, start.sequence)
    && p.state == Replay(interpreter.applyCommitted, start.state, Beyond(es, from, start.sequence))
    && DistinctOutbox(p.overlay.outbox)
    && (forall y :: y in p.overlay.outbox <==> y in start.overlay.outbox && !HasEntry(es, base, y.proposal.operationId))
    && (forall d :: d in p.overlay.newly <==>
          d in start.overlay.newly || IsReported(start.overlay.outbox, es, base, d))
  }

  /** An entry of the page reports the outcome of what was pending. */
  ghost predicate IsReported(outbox: seq<OutboxEntry>, es: seq<Entry>, base: int, d: Decision) {
    exists e :: e in es && e.sequence > base && IsPending(outbox, e.operationId)
      && d == Accepted(e.operationId, e.sequence, e.operation)
  }

  lemma OneMoreEntry(start: Progress, base: int, from: int, init: seq<Entry>, e: Entry, interpreter: ReplicaInterpreter)
    requires from <= start.sequence && Consecutive(init + [e], from)
    ensures e.sequence == from + |init| + 1 && !HasEntry(init, base, e.operationId)
    ensures Beyond(init + [e], from, start.sequence)
         == Beyond(init, from, start.sequence) + (if e.sequence > start.sequence then [e] else [])
    ensures e.sequence <= start.sequence ==> Beyond(init, from, start.sequence) == []
    ensures Replay(interpreter.applyCommitted, start.state, Beyond(init + [e], from, start.sequence))
         == var before := Replay(interpreter.applyCommitted, start.state, Beyond(init, from, start.sequence));
            if e.sequence > start.sequence then interpreter.applyCommitted(before, e.operation) else before
  {
    var es := init + [e];
    assert es[|init|] == e && forall i | 0 <= i < |init| :: es[i] == init[i];
    assert forall x | x in init :: x.operationId != e.operationId by {
      forall x | x in init ensures x.operationId != e.operationId {
        var i :| 0 <= i < |init| && init[i] == x;
      }
    }
    var before := Beyond(init, from, start.sequence);
    if e.sequence > start.sequence {
      assert Beyond(es, from, start.sequence) == before + [e];
      assert (before + [e])[..|before|] == before;
    }
  }

  lemma OneMoreHas(es: seq<Entry>, base: int, e: Entry)
    ensures forall id :: HasEntry(es + [e], base, id) <==> HasEntry(es, base, id) || (e.sequence > base && e.operationId == id)
    ensures forall outbox, d :: IsReported(outbox, es + [e], base, d) <==>
      || IsReported(outbox, es, base, d)
      || (e.sequence > base && IsPending(outbox, e.operationId) && d == Accepted(e.operationId, e.sequence, e.operation))
  {
    hide IsPending;
    assert forall x :: x in es + [e] <==> x in es || x == e;
  }

  /** Of the entry's operation the outbox still holds what it held at first. */
  lemma StillThere(start: seq<OutboxEntry>, now: seq<OutboxEntry>, es: seq<Entry>, base: int, id: string)
    requires forall y :: y in now <==> y in start && !HasEntry(es, base, y.proposal.operationId)
    requires !HasEntry(es, base, id)
    ensures forall y: OutboxEntry | y.proposal.operationId == id :: y in now <==> y in start
    ensures IsPending(now, id) <==> IsPending(start, id)
  {
    hide HasEntry;
  }

  lemma AbsorbsEntry(start: Progress, base: int, from: int, init: seq<Entry>, e: Entry, interpreter: ReplicaInterpreter,
                     p: Progress, after: Progress)
    requires from <= start.sequence && Consecutive(init + [e], from)
    requires HasAbsorbed(start, base, from, init, interpreter, p)
    requires after.sequence == (if e.sequence > start.sequence then e.sequence else p.sequence)
    requires after.log == (if e.sequence > start.sequence then p.log + [e] else p.log)
    requires after.state == (if e.sequence > start.sequence then interpreter.applyCommitted(p.state, e.operation) else p.state)
    requires if e.sequence > base then Resolved(p.overlay, e, after.overlay) else after.overlay == p.overlay
    ensures HasAbsorbed(start, base, from, init + [e], interpreter, after)
  {
    hide *;
    OneMoreEntry(start, base, from, init, e, interpreter);
    OverlayGoesOn(start, base, from, init, e, interpreter, p, after.overlay);
    ProgressGoesOn(start, base, from, init, e, interpreter, p, after);
  }

  lemma OverlayGoesOn(start: Progress, base: int, from: int, init: seq<Entry>, e: Entry, interpreter: ReplicaInterpreter,
                      p: Progress, after: Overlay)
    requires from <= start.sequence && HasAbsorbed(start, base, from, init, interpreter, p)
    requires !HasEntry(init, base, e.operationId)
    requires if e.sequence > base then Resolved(p.overlay, e, after) else after == p.overlay
    ensures DistinctOutbox(after.outbox)
    ensures forall y :: y in after.outbox <==> y in start.overlay.outbox && !HasEntry(init + [e], base, y.proposal.operationId)
    ensures forall d :: d in after.newly <==>
      d in start.overlay.newly || IsReported(start.overlay.outbox, init + [e], base, d)
  {
    OneMoreHas(init, base, e);
    StillThere(start.overlay.outbox, p.overlay.outbox, init, base, e.operationId);
    hide HasEntry, IsReported, IsPending, Beyond, Replay, DistinctOutbox;
  }

  lemma ProgressGoesOn(start: Progress, base: int, from: int, init: seq<Entry>, e: Entry, interpreter: ReplicaInterpreter,
                       p: Progress, after: Progress)
    requires from <= start.sequence && HasAbsorbed(start, base, from, init, interpreter, p)
    requires e.sequence == from + |init| + 1
    requires Beyond(init + [e], from, start.sequence)
          == Beyond(init, from, start.sequence) + (if e.sequence > start.sequence then [e] else [])
    requires Replay(interpreter.applyCommitted, start.state, Beyond(init + [e], from, start.sequence))
          == var before := Replay(interpreter.applyCommitted, start.state, Beyond(init, from, start.sequence));
             if e.sequence > start.sequence then interpreter.applyCommitted(before, e.operation) else before
    requires after.sequence == (if e.sequence > start.sequence then e.sequence else p.sequence)
    requires after.log == (if e.sequence > start.sequence then p.log + [e] else p.log)
    requires after.state == (if e.sequence > start.sequence then interpreter.applyCommitted(p.state, e.operation) else p.state)
    requires DistinctOutbox(after.overlay.outbox)
    requires forall y :: y in after.overlay.outbox <==>
      y in start.overlay.outbox && !HasEntry(init + [e], base, y.proposal.operationId)
    requires forall d :: d in after.overlay.newly <==>
      d in start.overlay.newly || IsReported(start.overlay.outbox, init + [e], base, d)
    ensures HasAbsorbed(start, base, from, init + [e], interpreter, after)
  {
    hide HasEntry, IsReported, Beyond, Replay, DistinctOutbox;
  }

  lemma OneEntry(start: Progress, base: int, from: int, init: seq<Entry>, e: Entry, interpreter: ReplicaInterpreter, p: Progress)
    requires from <= start.sequence == base + |start.log| && Consecutive(init + [e], from)
    requires HasAbsorbed(start, base, from, init, interpreter, p)
    ensures MergeEntry(p, e, base, interpreter).Ok? <==>
      EntryAgrees(start.overlay.outbox, start.log, base, e, interpreter.areEqual)
    ensures MergeEntry(p, e, base, interpreter).Ok? ==>
      HasAbsorbed(start, base, from, init + [e], interpreter, MergeEntry(p, e, base, interpreter).value)
    ensures MergeEntry(p, e, base, interpreter).Err? ==>
      EntryRefused(start.overlay.outbox, start.log, base, e, interpreter.areEqual, MergeEntry(p, e, base, interpreter).error)
  {
    hide *;
    OneMoreEntry(start, base, from, init, e, interpreter);
    AbsorbedParts(start, base, from, init, interpreter, p);
    OneResolution(p.overlay, e, interpreter.areEqual);
    StillThere(start.overlay.outbox, p.overlay.outbox, init, base, e.operationId);
    EntrySucceeds(start, base, e, interpreter, p);
    if MergeEntry(p, e, base, interpreter).Ok? {
      AbsorbsEntry(start, base, from, init, e, interpreter, p, MergeEntry(p, e, base, interpreter).value);
    }
  }

  lemma AbsorbedParts(start: Progress, base: int, from: int, es: seq<Entry>, interpreter: ReplicaInterpreter, p: Progress)
    requires from <= start.sequence && HasAbsorbed(start, base, from, es, interpreter, p)
    ensures p.sequence == (if start.sequence >= from + |es| then start.sequence else from + |es|)
    ensures p.log == start.log + Beyond(es, from, start.sequence)
    ensures DistinctOutbox(p.overlay.outbox)
    ensures forall y :: y in p.overlay.outbox <==> y in start.overlay.outbox && !HasEntry(es, base, y.proposal.operationId)
  {
    hide Beyond, HasEntry, IsReported, DistinctOutbox, Replay;
  }

  lemma EntrySucceeds(start: Progress, base: int, e: Entry, interpreter: ReplicaInterpreter, p: Progress)
    requires start.sequence == base + |start.log| && start.sequence <= p.sequence
    requires e.sequence <= start.sequence ==> p.log == start.log && p.sequence == start.sequence
    requires e.sequence > start.sequence ==> e.sequence == p.sequence + 1
    requires forall y: OutboxEntry | y.proposal.operationId == e.operationId ::
      y in p.overlay.outbox <==> y in start.overlay.outbox
    requires var eq, resolved := interpreter.areEqual, ResolveCommitted(p.overlay, e, interpreter.areEqual);
      && (resolved.Ok? <==> forall y | y in p.overlay.outbox && y.proposal.operationId == e.operationId :: Fulfils(y, e, eq))
      && (resolved.Ok? ==> Resolved(p.overlay, e, resolved.value))
      && (resolved.Err? ==>
            exists y :: y in p.overlay.outbox && y.proposal.operationId == e.operationId && Misfits(y, e, eq, resolved.error))
    ensures MergeEntry(p, e, base, interpreter).Ok? <==>
      EntryAgrees(start.overlay.outbox, start.log, base, e, interpreter.areEqual)
    ensures MergeEntry(p, e, base, interpreter).Err? ==>
      EntryRefused(start.overlay.outbox, start.log, base, e, interpreter.areEqual, MergeEntry(p, e, base, interpreter).error)
    ensures MergeEntry(p, e, base, interpreter).Ok? ==>
      var after := MergeEntry(p, e, base, interpreter).value;
      && after.sequence == (if e.sequence > start.sequence then e.sequence else p.sequence)
      && after.log == (if e.sequence > start.sequence then p.log + [e] else p.log)
      && after.state == (if e.sequence > start.sequence then interpreter.applyCommitted(p.state, e.operation) else p.state)
      && if e.sequence > base then Resolved(p.overlay, e, after.overlay) else after.overlay == p.overlay
  {
    hide ResolveCommitted, Fulfils, Resolved, Misfits;
  }

  lemma {:induction false} AllEntries(start: Progress, base: int, from: int, es: seq<Entry>, interpreter: ReplicaInterpreter)
    requires from <= start.sequence == base + |start.log| && Consecutive(es, from) && DistinctOutbox(start.overlay.outbox)
    ensures Fold(EntryStep(base, interpreter), start, es).Ok? <==>
      EntriesAgree(start.overlay.outbox, start.log, base, es, interpreter.areEqual)
    ensures Fold(EntryStep(base, interpreter), start, es).Ok? ==>
      HasAbsorbed(start, base, from, es, interpreter, Fold(EntryStep(base, interpreter), start, es).value)
    ensures Fold(EntryStep(base, interpreter), start, es).Err? ==>
      SomeRefused(start.overlay.outbox, start.log, base, es, interpreter.areEqual,
                  Fold(EntryStep(base, interpreter), start, es).error)
  {
    if es != [] {
      var init, e := es[..|es| - 1], es[|es| - 1];
      assert es == init + [e];
      AllEntries(start, base, from, init, interpreter);
      var before := Fold(EntryStep(base, interpreter), start, init);
      hide DistinctOutbox, EntryAgrees, HasAbsorbed, MergeEntry, EntryRefused;
      if before.Ok? {
        assert EntryStep(base, interpreter)(before.value, e) == MergeEntry(before.value, e, base, interpreter);
        OneEntry(start, base, from, init, e, interpreter, before.value);
      }
    }
  }

  /* ---- Receipts ---- */

  ghost predicate ReceiptAgrees(y: OutboxEntry, sequence: int, base: int, log: seq<Entry>, eq: Equality) {
    y.AcceptedEntry? && y.sequence <= sequence ==>
      0 < y.sequence - base <= |log| && Fulfils(y, log[y.sequence - base - 1], eq)
  }

  /** A receipt that is compacted, or that what is retained there does not fulfil. */
  ghost predicate ReceiptRefused(y: OutboxEntry, sequence: int, base: int, log: seq<Entry>, eq: Equality, error: Error) {
    && y.AcceptedEntry? && y.sequence <= sequence
    && if y.sequence <= base then error == CompactedSequence(y.sequence)
       else y.sequence - base <= |log| && Misfits(y, log[y.sequence - base - 1], eq, error)
  }

  predicate Outlasts(y: OutboxEntry, sequence: int) { y.PendingEntry? || y.sequence > sequence }

  lemma {:induction false} AllReceipts(outbox: seq<OutboxEntry>, sequence: int, base: int, log: seq<Entry>, eq: Equality)
    requires sequence == base + |log| && forall i | 0 <= i < |log| :: log[i].sequence == base + i + 1
    ensures var settled := Fold(SettleStep(sequence, base, log, eq), [], outbox);
      && (settled.Ok? <==> forall y | y in outbox :: ReceiptAgrees(y, sequence, base, log, eq))
      && (settled.Ok? ==> forall y :: y in settled.value <==> y in outbox && Outlasts(y, sequence))
      && (settled.Err? ==> exists y :: y in outbox && ReceiptRefused(y, sequence, base, log, eq, settled.error))
  {
    if outbox != [] {
      var init, x := outbox[..|outbox| - 1], outbox[|outbox| - 1];
      assert forall y :: y in outbox <==> y in init || y == x;
      AllReceipts(init, sequence, base, log, eq);
      var before := Fold(SettleStep(sequence, base, log, eq), [], init);
      if before.Ok? {
        assert SettleStep(sequence, base, log, eq)(before.value, x) == SettleEntry(before.value, x, sequence, base, log, eq);
        OneReceipt(before.value, x, sequence, base, log, eq);
      }
      hide SettleEntry, ReceiptAgrees, ReceiptRefused;
    }
  }

  lemma OneReceipt(kept: seq<OutboxEntry>, x: OutboxEntry, sequence: int, base: int, log: seq<Entry>, eq: Equality)
    requires sequence == base + |log| && forall i | 0 <= i < |log| :: log[i].sequence == base + i + 1
    ensures var settled := SettleEntry(kept, x, sequence, base, log, eq);
      && (settled.Ok? <==> ReceiptAgrees(x, sequence, base, log, eq))
      && (settled.Ok? ==> settled.value == if Outlasts(x, sequence) then kept + [x] else kept)
      && (settled.Err? ==> ReceiptRefused(x, sequence, base, log, eq, settled.error))
  {
  }

  /* ---- The whole merge ---- */

  /** The page of a response, counted from where its client's retained log begins. */
  ghost predicate Fits(r: Replica, response: Response) {
    && ValidResponse(response)
    && ValidRetained(r)
    && response.requestedBase <= r.confirmedSequence
  }

  function Cursor(r: Replica, response: Response): int { Max(r.confirmedSequence, response.through) }

  /** The retained log, as far as the page takes it. */
  function LongerLog(r: Replica, response: Response): seq<Entry>
    requires response.requestedBase <= r.confirmedSequence
  {
    r.confirmedLog + Beyond(response.entries, response.requestedBase, r.confirmedSequence)
  }

  /** Nothing that the response says contradicts what the replica has: its decisions agree with what is
      accepted; its entries repeat what is retained and fulfil what is then known; and what is known to
      be accepted without an entry on the page is either beyond the new cursor or retained as it is. */
  ghost predicate Agrees(r: Replica, response: Response, eq: Equality)
    requires response.requestedBase <= r.confirmedSequence
  {
    var base, ds := RetainedBase(r), response.decisions;
    && DecisionsAgree(r.outbox, ds, eq)
    && (forall e | e in response.entries && e.sequence > base :: Repeats(r.confirmedLog, base, e, eq))
    && (forall e, y | e in response.entries && e.sequence > base && IsKnown(r.outbox, ds, y)
                      && y.proposal.operationId == e.operationId :: Fulfils(y, e, eq))
    && (forall y | IsKnown(r.outbox, ds, y) && !HasEntry(response.entries, base, y.proposal.operationId) ::
          ReceiptAgrees(y, Cursor(r, response), base, LongerLog(r, response), eq))
  }

  /** What is contradicted, and the error that says so. */
  ghost predicate Contradicts(r: Replica, response: Response, eq: Equality, error: Error)
    requires response.requestedBase <= r.confirmedSequence
  {
    || DecisionRefused(r.outbox, response.decisions, eq, error)
    || (exists e :: e in response.entries && EntryContradicts(r, response, e, eq, error))
    || (exists y :: IsKnown(r.outbox, response.decisions, y)
          && !HasEntry(response.entries, RetainedBase(r), y.proposal.operationId)
          && ReceiptRefused(y, Cursor(r, response), RetainedBase(r), LongerLog(r, response), eq, error))
  }

  /** The entry is not the retained one, or not what the client proposed or knows. */
  ghost predicate EntryContradicts(r: Replica, response: Response, e: Entry, eq: Equality, error: Error) {
    && e.sequence > RetainedBase(r)
    && (|| (!Repeats(r.confirmedLog, RetainedBase(r), e, eq) && error == LogDivergence(e.sequence))
        || exists y :: IsKnown(r.outbox, response.decisions, y) && y.proposal.operationId == e.operationId
             && Misfits(y, e, eq, error))
  }

  /** What a merge leaves: the longer log and its state; of the outbox what has no entry on the page and
      still waits; reported what was pending and is now decided. */
  ghost predicate IsMerged(r: Replica, response: Response, interpreter: ReplicaInterpreter, m: Merged)
    requires response.requestedBase <= r.confirmedSequence
  {
    var base, ds, cursor := RetainedBase(r), response.decisions, Cursor(r, response);
    && m.state.clientId == r.clientId && m.state.nextClientSequence == r.nextClientSequence
    && m.state.confirmedSequence == cursor
    && m.state.confirmedLog == LongerLog(r, response)
    && m.state.confirmedState
       == Replay(interpreter.applyCommitted, r.confirmedState, Beyond(response.entries, response.requestedBase, r.confirmedSequence))
    && (forall y :: y in m.state.outbox <==>
          && IsKnown(r.outbox, ds, y) && !HasEntry(response.entries, base, y.proposal.operationId) && Outlasts(y, cursor))
    && (forall d :: d in m.newly <==>
          || (d in ds && IsPending(r.outbox, d.operationId))
          || (d.operationId !in DecisionIds(ds) && IsReported(r.outbox, response.entries, base, d)))
    && (m.caughtUp <==> cursor >= response.head)
  }

  lemma PageIsConsecutive(response: Response)
    requires ValidResponse(response)
    ensures Consecutive(response.entries, response.requestedBase)
    ensures response.through == response.requestedBase + |response.entries| && DistinctDecisions(response.decisions)
  {
  }

  lemma LongerIsNumbered(r: Replica, response: Response)
    requires Fits(r, response)
    ensures var base, log := RetainedBase(r), LongerLog(r, response);
      Cursor(r, response) == base + |log| && forall i | 0 <= i < |log| :: log[i].sequence == base + i + 1
  {
    PageIsConsecutive(response);
    hide ValidResponse;
  }

  function StartOf(r: Replica, o: Overlay): Progress { Progress(o, r.confirmedSequence, r.confirmedState, r.confirmedLog) }

  /** The second and third pass, after decisions that left the overlay o. */
  lemma AfterDecisions(r: Replica, response: Response, interpreter: ReplicaInterpreter, o: Overlay)
    requires Fits(r, response) && DistinctOutbox(o.outbox)
    requires DecisionsAgree(r.outbox, response.decisions, interpreter.areEqual)
    requires forall y :: y in o.outbox <==> IsKnown(r.outbox, response.decisions, y)
    requires forall d :: d in o.newly <==> d in response.decisions && IsPending(r.outbox, d.operationId)
    ensures var base, eq := RetainedBase(r), interpreter.areEqual;
      var entered := Fold(EntryStep(base, interpreter), StartOf(r, o), response.entries);
      && (entered.Err? ==> Contradicts(r, response, eq, entered.error) && !Agrees(r, response, eq))
      && (entered.Ok? ==>
            var p := entered.value;
            var settled := Fold(SettleStep(p.sequence, base, p.log, eq), [], p.overlay.outbox);
            && (settled.Ok? <==> Agrees(r, response, eq))
            && (settled.Err? ==> Contradicts(r, response, eq, settled.error))
            && (settled.Ok? ==>
                  IsMerged(r, response, interpreter,
                           Merged(r.(confirmedSequence := p.sequence, confirmedState := p.state, confirmedLog := p.log,
                                     outbox := settled.value), p.overlay.newly, p.sequence >= response.head))))
  {
    var base, eq := RetainedBase(r), interpreter.areEqual;
    hide *;
    FitsParts(r, response);
    PageIsConsecutive(response);
    LongerIsNumbered(r, response);
    AllEntries(StartOf(r, o), base, response.requestedBase, response.entries, interpreter);
    AgreesSplits(r, response, eq, o);
    var entered := Fold(EntryStep(base, interpreter), StartOf(r, o), response.entries);
    if entered.Err? {
      EntryRefusedContradicts(r, response, eq, o, entered.error);
    } else {
      var p := entered.value;
      EndsThere(r, response, interpreter, o, p);
      AllReceipts(p.overlay.outbox, p.sequence, base, p.log, eq);
      ReceiptsLeft(r, response, eq, o, p);
      var settled := Fold(SettleStep(p.sequence, base, p.log, eq), [], p.overlay.outbox);
      if settled.Ok? {
        MergedFrom(r, response, interpreter, o, p, settled.value);
      } else {
        ReceiptRefusedContradicts(r, response, eq, o, p, settled.error);
      }
    }
  }

  lemma EntryRefusedContradicts(r: Replica, response: Response, eq: Equality, o: Overlay, error: Error)
    requires response.requestedBase <= r.confirmedSequence
    requires forall y :: y in o.outbox <==> IsKnown(r.outbox, response.decisions, y)
    requires SomeRefused(o.outbox, r.confirmedLog, RetainedBase(r), response.entries, eq, error)
    ensures Contradicts(r, response, eq, error)
  {
    hide IsKnown, Repeats, Misfits, DecisionRefused, ReceiptRefused;
    var e :| e in response.entries && EntryRefused(o.outbox, r.confirmedLog, RetainedBase(r), e, eq, error);
    assert EntryContradicts(r, response, e, eq, error);
  }

  lemma ReceiptRefusedContradicts(r: Replica, response: Response, eq: Equality, o: Overlay, p: Progress, error: Error)
    requires response.requestedBase <= r.confirmedSequence
    requires forall y :: y in o.outbox <==> IsKnown(r.outbox, response.decisions, y)
    requires forall y :: y in p.overlay.outbox <==>
      y in o.outbox && !HasEntry(response.entries, RetainedBase(r), y.proposal.operationId)
    requires exists y ::
      y in p.overlay.outbox && ReceiptRefused(y, Cursor(r, response), RetainedBase(r), LongerLog(r, response), eq, error)
    ensures Contradicts(r, response, eq, error)
  {
    hide IsKnown, HasEntry, ReceiptRefused, DecisionRefused, EntryContradicts, LongerLog, Cursor;
  }

  lemma FitsParts(r: Replica, response: Response)
    requires Fits(r, response)
    ensures ValidResponse(response) && response.requestedBase <= r.confirmedSequence
    ensures r.confirmedSequence == RetainedBase(r) + |r.confirmedLog|
    ensures forall o :: StartOf(r, o) == Progress(o, r.confirmedSequence, r.confirmedState, r.confirmedLog)
  {
    hide ValidResponse;
  }

  /** Agreement, pass by pass. */
  lemma AgreesSplits(r: Replica, response: Response, eq: Equality, o: Overlay)
    requires response.requestedBase <= r.confirmedSequence && DecisionsAgree(r.outbox, response.decisions, eq)
    requires forall y :: y in o.outbox <==> IsKnown(r.outbox, response.decisions, y)
    ensures var base := RetainedBase(r);
      Agrees(r, response, eq) <==>
        && EntriesAgree(o.outbox, r.confirmedLog, base, response.entries, eq)
        && forall y | y in o.outbox && !HasEntry(response.entries, base, y.proposal.operationId) ::
             ReceiptAgrees(y, Cursor(r, response), base, LongerLog(r, response), eq)
  {
    hide IsKnown, Fulfils, HasEntry, ReceiptAgrees, DecisionsAgree, LongerLog;
    if EntriesAgree(o.outbox, r.confirmedLog, RetainedBase(r), response.entries, eq) {
      forall e | e in response.entries ensures EntryAgrees(o.outbox, r.confirmedLog, RetainedBase(r), e, eq) {
      }
    }
  }

  lemma EndsThere(r: Replica, response: Response, interpreter: ReplicaInterpreter, o: Overlay, p: Progress)
    requires Fits(r, response) && response.through == response.requestedBase + |response.entries|
    requires HasAbsorbed(StartOf(r, o), RetainedBase(r), response.requestedBase, response.entries, interpreter, p)
    ensures p.sequence == Cursor(r, response) && p.log == LongerLog(r, response)
    ensures p.state
         == Replay(interpreter.applyCommitted, r.confirmedState, Beyond(response.entries, response.requestedBase, r.confirmedSequence))
    ensures forall y :: y in p.overlay.outbox <==>
      y in o.outbox && !HasEntry(response.entries, RetainedBase(r), y.proposal.operationId)
    ensures forall d :: d in p.overlay.newly <==> d in o.newly || IsReported(o.outbox, response.entries, RetainedBase(r), d)
  {
    hide HasEntry, IsReported, Beyond, Replay, DistinctOutbox, ValidResponse, ValidRetained;
  }

  lemma ReceiptsLeft(r: Replica, response: Response, eq: Equality, o: Overlay, p: Progress)
    requires response.requestedBase <= r.confirmedSequence
    requires p.sequence == Cursor(r, response) && p.log == LongerLog(r, response)
    requires forall y :: y in p.overlay.outbox <==>
      y in o.outbox && !HasEntry(response.entries, RetainedBase(r), y.proposal.operationId)
    ensures (forall y | y in p.overlay.outbox :: ReceiptAgrees(y, p.sequence, RetainedBase(r), p.log, eq)) <==>
      forall y | y in o.outbox && !HasEntry(response.entries, RetainedBase(r), y.proposal.operationId) ::
        ReceiptAgrees(y, Cursor(r, response), RetainedBase(r), LongerLog(r, response), eq)
  {
    hide HasEntry, ReceiptAgrees, LongerLog, Cursor;
  }

  lemma MergedFrom(r: Replica, response: Response, interpreter: ReplicaInterpreter, o: Overlay, p: Progress, outbox: seq<OutboxEntry>)
    requires response.requestedBase <= r.confirmedSequence
    requires forall y :: y in o.outbox <==> IsKnown(r.outbox, response.decisions, y)
    requires forall d :: d in o.newly <==> d in response.decisions && IsPending(r.outbox, d.operationId)
    requires p.sequence == Cursor(r, response) && p.log == LongerLog(r, response)
    requires p.state
         == Replay(interpreter.applyCommitted, r.confirmedState, Beyond(response.entries, response.requestedBase, r.confirmedSequence))
    requires forall y :: y in p.overlay.outbox <==>
      y in o.outbox && !HasEntry(response.entries, RetainedBase(r), y.proposal.operationId)
    requires forall d :: d in p.overlay.newly <==> d in o.newly || IsReported(o.outbox, response.entries, RetainedBase(r), d)
    requires forall y :: y in outbox <==> y in p.overlay.outbox && Outlasts(y, p.sequence)
    ensures IsMerged(r, response, interpreter,
                     Merged(r.(confirmedSequence := p.sequence, confirmedState := p.state, confirmedLog := p.log, outbox := outbox),
                            p.overlay.newly, p.sequence >= response.head))
  {
    forall d ensures IsReported(o.outbox, response.entries, RetainedBase(r), d) <==>
      d.operationId !in DecisionIds(response.decisions) && IsReported(r.outbox, response.entries, RetainedBase(r), d)
    {
      StillPending(r.outbox, response.decisions, o.outbox, d.operationId);
    }
    hide HasEntry, IsReported, IsKnown, IsPending, Outlasts, Cursor, LongerLog, Replay, Beyond;
  }

  lemma StillPending(outbox: seq<OutboxEntry>, ds: seq<Decision>, now: seq<OutboxEntry>, id: string)
    requires forall y :: y in now <==> IsKnown(outbox, ds, y)
    ensures IsPending(now, id) <==> IsPending(outbox, id) && id !in DecisionIds(ds)
  {
  }

  /** For any replica without an operation twice in its outbox, and any response: merging succeeds
      exactly when the response is well formed, the retained log is in order, the page does not start
      beyond the cursor, and nothing in it contradicts what the replica has. Then the outcome is the
      one described; and what is refused for a contradiction is refused with an error that names one. */
  lemma MergeSucceedsExactly(r: Replica, response: Response, interpreter: ReplicaInterpreter)
    requires DistinctOutbox(r.outbox)
    ensures Merge(r, response, interpreter).Ok? <==> Fits(r, response) && Agrees(r, response, interpreter.areEqual)
    ensures Merge(r, response, interpreter).Ok? ==> IsMerged(r, response, interpreter, Merge(r, response, interpreter).value)
    ensures Fits(r, response) && Merge(r, response, interpreter).Err? ==>
      Contradicts(r, response, interpreter.areEqual, Merge(r, response, interpreter).error)
  {
    ResponseCheckIsValidResponse(response, None);
    MergeIsPasses(r, response, interpreter);
    if Fits(r, response) {
      PageIsConsecutive(response);
      AllDecisions(r.outbox, response.decisions, interpreter.areEqual);
      var decided := Fold(DecisionStep(interpreter.areEqual), Overlay(r.outbox, []), response.decisions);
      if decided.Ok? {
        AfterDecisions(r, response, interpreter, decided.value);
      }
    }
    hide IsKnown, ReceiptAgrees, Fulfils, HasEntry, Repeats, EntryContradicts, ReceiptRefused, DecisionRefused, IsMerged, Merge,
         ResponseCheck, ValidRetained, ValidResponse, DecisionsAgree, LongerLog, Cursor;
  }

  /** The merge as its passes, one after another. */
  lemma MergeIsPasses(r: Replica, response: Response, interpreter: ReplicaInterpreter)
    ensures Merge(r, response, interpreter).Ok? ==>
      ResponseCheck(response, None).Pass? && ValidRetained(r) && response.requestedBase <= r.confirmedSequence
    ensures ResponseCheck(response, None).Pass? && ValidRetained(r) && response.requestedBase <= r.confirmedSequence ==>
      var base, eq := RetainedBase(r), interpreter.areEqual;
      match Fold(DecisionStep(eq), Overlay(r.outbox, []), response.decisions)
      case Err(error) => Merge(r, response, interpreter) == Err(error)
      case Ok(o) =>
        match Fold(EntryStep(base, interpreter), StartOf(r, o), response.entries)
        case Err(error) => Merge(r, response, interpreter) == Err(error)
        case Ok(p) =>
          match Fold(SettleStep(p.sequence, base, p.log, eq), [], p.overlay.outbox)
          case Err(error) => Merge(r, response, interpreter) == Err(error)
          case Ok(outbox) =>
            Merge(r, response, interpreter)
            == Ok(Merged(r.(confirmedSequence := p.sequence, confirmedState := p.state, confirmedLog := p.log, outbox := outbox),
                         p.overlay.newly, p.sequence >= response.head))
  {
    hide ResponseCheck, ValidRetained;
  }
}
