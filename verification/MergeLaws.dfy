/** Laws of mergeSyncResponse that hold for any response at all, honest or not
    (src/replica.ts:236-380): merging again changes nothing, and compacting the retained log before
    a merge or after it makes no difference. */
module MergeLaws {
  import opened Protocol
  import opened Validators
  import opened Replicas

  ghost predicate DistinctOutbox(outbox: seq<OutboxEntry>) {
    forall i, j | 0 <= i < j < |outbox| :: outbox[i].proposal.operationId != outbox[j].proposal.operationId
  }

  lemma {:induction false} FoldOfNoOps<A, B>(step: (A, B) -> Result<A>, a: A, xs: seq<B>)
    requires forall x | x in xs :: step(a, x) == Ok(a)
    ensures Fold(step, a, xs) == Ok(a)
  {
    if xs != [] {
      assert forall x | x in xs[..|xs| - 1] :: x in xs;
      FoldOfNoOps(step, a, xs[..|xs| - 1]);
      assert xs[|xs| - 1] in xs;
    }
  }

  lemma RemovedIsGone(outbox: seq<OutboxEntry>, i: nat)
    requires i < |outbox| && DistinctOutbox(outbox)
    ensures DistinctOutbox(RemoveAt(outbox, i))
    ensures forall x | x in RemoveAt(outbox, i) ::
      x in outbox && x.proposal.operationId != outbox[i].proposal.operationId
  {
    var rest := RemoveAt(outbox, i);
    forall k | 0 <= k < |rest| ensures rest[k] == outbox[if k < i then k else k + 1] {}
  }

  lemma ReplacedIsReplaced(outbox: seq<OutboxEntry>, i: nat, x: OutboxEntry)
    requires i < |outbox| && DistinctOutbox(outbox)
    requires x.proposal.operationId == outbox[i].proposal.operationId
    ensures DistinctOutbox(outbox[i := x])
    ensures forall y | y in outbox[i := x] ::
      y == x || (y in outbox && y.proposal.operationId != x.proposal.operationId)
  {
  }

  /* ---- Idempotence ---- */

  /** Nothing in the outbox is left for the decision to change. */
  ghost predicate Digested(outbox: seq<OutboxEntry>, d: Decision, eq: Equality) {
    forall x | x in outbox && x.proposal.operationId == d.operationId ::
      x.AcceptedEntry? && d.Accepted? && x.sequence == d.sequence && eq(x.operation, d.operation)
  }

  lemma DigestedIsNoOp(o: Overlay, d: Decision, eq: Equality)
    requires Digested(o.outbox, d, eq)
    ensures MergeDecision(o, d, eq) == Ok(o)
  {
    var i := Find(o.outbox, d.operationId);
    if i < |o.outbox| {
      assert o.outbox[i] in o.outbox;
    }
  }

  lemma DecisionDigests(o: Overlay, d: Decision, eq: Equality)
    requires forall a :: eq(a, a)
    requires DistinctOutbox(o.outbox) && MergeDecision(o, d, eq).Ok?
    ensures var after := MergeDecision(o, d, eq).value.outbox;
      && DistinctOutbox(after)
      && Digested(after, d, eq)
      && forall x | x in after && x.proposal.operationId != d.operationId :: x in o.outbox
  {
    var i := Find(o.outbox, d.operationId);
    if i < |o.outbox| {
      var local := o.outbox[i];
      if d.Rejected? {
        RemovedIsGone(o.outbox, i);
      } else if local.PendingEntry? {
        ReplacedIsReplaced(o.outbox, i, AcceptedEntry(local.proposal, d.sequence, d.operation));
      } else {
        RemovedIsGone(o.outbox, i);
        forall x | x in o.outbox && x.proposal.operationId == d.operationId ensures x == local {
          var j :| 0 <= j < |o.outbox| && o.outbox[j] == x;
        }
      }
    }
  }

  lemma {:induction false} DecisionsDigest(o: Overlay, ds: seq<Decision>, eq: Equality)
    requires forall a :: eq(a, a)
    requires DistinctOutbox(o.outbox) && DistinctDecisions(ds)
    requires Fold(DecisionStep(eq), o, ds).Ok?
    ensures var after := Fold(DecisionStep(eq), o, ds).value.outbox;
      DistinctOutbox(after) && forall d | d in ds :: Digested(after, d, eq)
  {
    if ds != [] {
      var init, d := ds[..|ds| - 1], ds[|ds| - 1];
      DecisionsDigest(o, init, eq);
      var before := Fold(DecisionStep(eq), o, init).value;
      assert DecisionStep(eq)(before, d) == MergeDecision(before, d, eq);
      DecisionDigests(before, d, eq);
      var after := MergeDecision(before, d, eq).value.outbox;
      forall x | x in ds ensures Digested(after, x, eq) {
        if x != d {
          var i :| 0 <= i < |ds| && ds[i] == x;
          assert init[i] == x && x in init && Digested(before.outbox, x, eq);
        }
      }
    }
  }

  /** Nothing is left for the entry to change. */
  ghost predicate Absorbed(p: Progress, e: Entry, base: int, eq: Equality) {
    e.sequence > base ==>
      && e.sequence <= p.sequence
      && e.sequence - base - 1 < |p.log|
      && SamePosition(p.log[e.sequence - base - 1], e, eq)
      && forall x | x in p.overlay.outbox :: x.proposal.operationId != e.operationId
  }

  lemma FindNone(outbox: seq<OutboxEntry>, id: string)
    requires forall x | x in outbox :: x.proposal.operationId != id
    ensures Find(outbox, id) == |outbox|
  {
    if outbox != [] {
      assert outbox[|outbox| - 1] in outbox;
      FindNone(outbox[..|outbox| - 1], id);
    }
  }

  lemma AbsorbedIsNoOp(p: Progress, e: Entry, base: int, interpreter: ReplicaInterpreter)
    requires Absorbed(p, e, base, interpreter.areEqual)
    ensures MergeEntry(p, e, base, interpreter) == Ok(p)
  {
    if e.sequence > base {
      FindNone(p.overlay.outbox, e.operationId);
    }
  }

  /** The retained log is the suffix of the confirmed prefix that starts after base. */
  ghost predicate Contiguous(p: Progress, base: int) {
    && p.sequence - |p.log| == base
    && forall i | 0 <= i < |p.log| :: p.log[i].sequence == base + i + 1
  }

  /** What one entry, or a page of them, leaves of the progress made before it. */
  ghost predicate MovesOn(p: Progress, q: Progress) {
    && p.sequence <= q.sequence
    && |p.log| <= |q.log|
    && p.log == q.log[..|p.log|]
    && DistinctOutbox(q.overlay.outbox)
    && forall x | x in q.overlay.outbox :: x in p.overlay.outbox
  }

  lemma ResolvedIsGone(o: Overlay, e: Entry, eq: Equality)
    requires DistinctOutbox(o.outbox) && ResolveCommitted(o, e, eq).Ok?
    ensures var after := ResolveCommitted(o, e, eq).value.outbox;
      && DistinctOutbox(after)
      && (forall x | x in after :: x in o.outbox && x.proposal.operationId != e.operationId)
  {
    var i := Find(o.outbox, e.operationId);
    if i < |o.outbox| {
      RemovedIsGone(o.outbox, i);
    }
  }

  lemma EntryAbsorbs(p: Progress, e: Entry, base: int, interpreter: ReplicaInterpreter)
    requires forall a :: interpreter.areEqual(a, a)
    requires DistinctOutbox(p.overlay.outbox) && Contiguous(p, base)
    requires MergeEntry(p, e, base, interpreter).Ok?
    ensures var q := MergeEntry(p, e, base, interpreter).value;
      MovesOn(p, q) && Contiguous(q, base) && Absorbed(q, e, base, interpreter.areEqual)
  {
    if e.sequence > base {
      ResolvedIsGone(p.overlay, e, interpreter.areEqual);
    }
  }

  lemma {:induction false} EntriesAbsorb(p: Progress, es: seq<Entry>, base: int, interpreter: ReplicaInterpreter)
    requires forall a :: interpreter.areEqual(a, a)
    requires DistinctOutbox(p.overlay.outbox) && Contiguous(p, base)
    requires Fold(EntryStep(base, interpreter), p, es).Ok?
    ensures var q := Fold(EntryStep(base, interpreter), p, es).value;
      && MovesOn(p, q)
      && Contiguous(q, base)
      && forall e | e in es :: Absorbed(q, e, base, interpreter.areEqual)
  {
    if es != [] {
      var init, e := es[..|es| - 1], es[|es| - 1];
      EntriesAbsorb(p, init, base, interpreter);
      var before := Fold(EntryStep(base, interpreter), p, init).value;
      assert EntryStep(base, interpreter)(before, e) == MergeEntry(before, e, base, interpreter);
      hide MergeEntry;
      EntryAbsorbs(before, e, base, interpreter);
      var q := MergeEntry(before, e, base, interpreter).value;
      forall x | x in es ensures Absorbed(q, x, base, interpreter.areEqual) {
        if x != e {
          assert x in init && Absorbed(before, x, base, interpreter.areEqual);
        }
      }
      return;
    }
  }

  /** Kept are only entries that another settling would keep. */
  ghost predicate Settled(outbox: seq<OutboxEntry>, sequence: int) {
    forall x | x in outbox :: x.PendingEntry? || x.sequence > sequence
  }

  lemma {:induction false} SettlingSettles(outbox: seq<OutboxEntry>, sequence: int, base: int, log: seq<Entry>, eq: Equality)
    requires Fold(SettleStep(sequence, base, log, eq), [], outbox).Ok?
    ensures var kept := Fold(SettleStep(sequence, base, log, eq), [], outbox).value;
      Settled(kept, sequence) && forall x | x in kept :: x in outbox
  {
    if outbox != [] {
      SettlingSettles(outbox[..|outbox| - 1], sequence, base, log, eq);
      assert forall x | x in outbox[..|outbox| - 1] :: x in outbox;
    }
  }

  lemma {:induction false} SettledStays(outbox: seq<OutboxEntry>, sequence: int, base: int, log: seq<Entry>, eq: Equality)
    requires Settled(outbox, sequence)
    ensures Fold(SettleStep(sequence, base, log, eq), [], outbox) == Ok(outbox)
  {
    if outbox != [] {
      var init, x := outbox[..|outbox| - 1], outbox[|outbox| - 1];
      assert outbox == init + [x] && x in outbox && forall y | y in init :: y in outbox;
      SettledStays(init, sequence, base, log, eq);
    }
  }

  /** What a successful merge did, pass by pass. */
  lemma MergePasses(r: Replica, response: Response, interpreter: ReplicaInterpreter) returns (o: Overlay, p: Progress)
    requires Merge(r, response, interpreter).Ok?
    ensures ValidResponse(response) && ValidRetained(r) && response.requestedBase <= r.confirmedSequence
    ensures Fold(DecisionStep(interpreter.areEqual), Overlay(r.outbox, []), response.decisions) == Ok(o)
    ensures Fold(EntryStep(RetainedBase(r), interpreter),
                 Progress(o, r.confirmedSequence, r.confirmedState, r.confirmedLog), response.entries) == Ok(p)
    ensures var m := Merge(r, response, interpreter).value;
      && Fold(SettleStep(p.sequence, RetainedBase(r), p.log, interpreter.areEqual), [], p.overlay.outbox)
         == Ok(m.state.outbox)
      && m.state == r.(confirmedSequence := p.sequence, confirmedState := p.state,
                       confirmedLog := p.log, outbox := m.state.outbox)
      && m.newly == p.overlay.newly
      && m.caughtUp == (p.sequence >= response.head)
  {
    hide ResponseCheck, RetainedCheck;
    ResponseCheckIsValidResponse(response, None);
    var checked := RetainedCheck(r);
    o := Fold(DecisionStep(interpreter.areEqual), Overlay(r.outbox, []), response.decisions).value;
    p := Fold(EntryStep(RetainedBase(r), interpreter),
              Progress(o, r.confirmedSequence, r.confirmedState, r.confirmedLog), response.entries).value;
  }

  lemma {:induction false} SequenceStaysSafe(p: Progress, es: seq<Entry>, base: int, interpreter: ReplicaInterpreter)
    requires IsLogSequence(p.sequence, true) && forall e | e in es :: ValidEntry(e)
    requires Fold(EntryStep(base, interpreter), p, es).Ok?
    ensures IsLogSequence(Fold(EntryStep(base, interpreter), p, es).value.sequence, true)
  {
    if es != [] {
      assert forall e | e in es[..|es| - 1] :: e in es;
      SequenceStaysSafe(p, es[..|es| - 1], base, interpreter);
      assert es[|es| - 1] in es;
    }
  }

  /** Merging the same response again succeeds, changes nothing and resolves nothing. Nothing is
      asked of the response, and of operation equality only that it is reflexive. */
  lemma MergeIsIdempotent(r: Replica, response: Response, interpreter: ReplicaInterpreter)
    requires forall a :: interpreter.areEqual(a, a)
    requires DistinctOutbox(r.outbox)
    requires Merge(r, response, interpreter).Ok?
    ensures var m := Merge(r, response, interpreter).value;
      Merge(m.state, response, interpreter) == Ok(Merged(m.state, [], m.caughtUp))
  {
    hide *;
    var eq := interpreter.areEqual;
    var base := RetainedBase(r);
    var m := Merge(r, response, interpreter).value;
    var o, p := MergePasses(r, response, interpreter);
    MergedShape(r, response, interpreter, o, p);
    SecondDecisions(r, response, interpreter, o, p);
    SecondEntries(r, response, interpreter, o, p);
    SettlingSettles(p.overlay.outbox, p.sequence, base, p.log, eq);
    SettledStays(m.state.outbox, p.sequence, base, p.log, eq);
    MergeFromPasses(m.state, response, interpreter, Overlay(m.state.outbox, []),
                    Progress(Overlay(m.state.outbox, []), p.sequence, p.state, p.log), m.state.outbox);
  }

  lemma MergedShape(r: Replica, response: Response, interpreter: ReplicaInterpreter, o: Overlay, p: Progress)
    requires forall a :: interpreter.areEqual(a, a)
    requires DistinctOutbox(r.outbox)
    requires Merge(r, response, interpreter).Ok? && ValidResponse(response) && ValidRetained(r)
    requires Fold(DecisionStep(interpreter.areEqual), Overlay(r.outbox, []), response.decisions) == Ok(o)
    requires Fold(EntryStep(RetainedBase(r), interpreter),
                  Progress(o, r.confirmedSequence, r.confirmedState, r.confirmedLog), response.entries) == Ok(p)
    ensures Contiguous(p, RetainedBase(r)) && IsLogSequence(p.sequence, true) && r.confirmedSequence <= p.sequence
    ensures forall state, outbox ::
      var next := r.(confirmedSequence := p.sequence, confirmedState := state, confirmedLog := p.log, outbox := outbox);
      ValidRetained(next) && RetainedBase(next) == RetainedBase(r)
  {
    var start := Progress(o, r.confirmedSequence, r.confirmedState, r.confirmedLog);
    DecisionsDigest(Overlay(r.outbox, []), response.decisions, interpreter.areEqual);
    assert Contiguous(start, RetainedBase(r));
    hide Fold, DistinctOutbox, DecisionStep, EntryStep;
    EntriesAbsorb(start, response.entries, RetainedBase(r), interpreter);
    SequenceStaysSafe(start, response.entries, RetainedBase(r), interpreter);
  }

  lemma SecondDecisions(r: Replica, response: Response, interpreter: ReplicaInterpreter, o: Overlay, p: Progress)
    requires forall a :: interpreter.areEqual(a, a)
    requires DistinctOutbox(r.outbox) && ValidResponse(response) && ValidRetained(r)
    requires Fold(DecisionStep(interpreter.areEqual), Overlay(r.outbox, []), response.decisions) == Ok(o)
    requires Fold(EntryStep(RetainedBase(r), interpreter),
                  Progress(o, r.confirmedSequence, r.confirmedState, r.confirmedLog), response.entries) == Ok(p)
    requires Fold(SettleStep(p.sequence, RetainedBase(r), p.log, interpreter.areEqual), [], p.overlay.outbox).Ok?
    ensures var kept := Fold(SettleStep(p.sequence, RetainedBase(r), p.log, interpreter.areEqual), [], p.overlay.outbox).value;
      Fold(DecisionStep(interpreter.areEqual), Overlay(kept, []), response.decisions) == Ok(Overlay(kept, []))
  {
    var eq := interpreter.areEqual;
    var start := Progress(o, r.confirmedSequence, r.confirmedState, r.confirmedLog);
    var kept := Fold(SettleStep(p.sequence, RetainedBase(r), p.log, eq), [], p.overlay.outbox).value;
    hide Fold, DistinctDecisions, EntryStep, SettleStep, MergeDecision;
    DecisionsDigest(Overlay(r.outbox, []), response.decisions, eq);
    assert Contiguous(start, RetainedBase(r));
    EntriesAbsorb(start, response.entries, RetainedBase(r), interpreter);
    SettlingSettles(p.overlay.outbox, p.sequence, RetainedBase(r), p.log, eq);
    forall d | d in response.decisions ensures DecisionStep(eq)(Overlay(kept, []), d) == Ok(Overlay(kept, [])) {
      assert Digested(o.outbox, d, eq) && Digested(kept, d, eq);
      DigestedIsNoOp(Overlay(kept, []), d, eq);
    }
    FoldOfNoOps(DecisionStep(eq), Overlay(kept, []), response.decisions);
  }

  lemma SecondEntries(r: Replica, response: Response, interpreter: ReplicaInterpreter, o: Overlay, p: Progress)
    requires forall a :: interpreter.areEqual(a, a)
    requires DistinctOutbox(r.outbox) && ValidResponse(response) && ValidRetained(r)
    requires Fold(DecisionStep(interpreter.areEqual), Overlay(r.outbox, []), response.decisions) == Ok(o)
    requires Fold(EntryStep(RetainedBase(r), interpreter),
                  Progress(o, r.confirmedSequence, r.confirmedState, r.confirmedLog), response.entries) == Ok(p)
    requires Fold(SettleStep(p.sequence, RetainedBase(r), p.log, interpreter.areEqual), [], p.overlay.outbox).Ok?
    ensures var kept := Fold(SettleStep(p.sequence, RetainedBase(r), p.log, interpreter.areEqual), [], p.overlay.outbox).value;
      var q := Progress(Overlay(kept, []), p.sequence, p.state, p.log);
      Fold(EntryStep(RetainedBase(r), interpreter), q, response.entries) == Ok(q)
  {
    var eq, base := interpreter.areEqual, RetainedBase(r);
    var start := Progress(o, r.confirmedSequence, r.confirmedState, r.confirmedLog);
    var kept := Fold(SettleStep(p.sequence, base, p.log, eq), [], p.overlay.outbox).value;
    var q := Progress(Overlay(kept, []), p.sequence, p.state, p.log);
    hide Fold, DistinctDecisions, DecisionStep, SettleStep, MergeEntry;
    DecisionsDigest(Overlay(r.outbox, []), response.decisions, eq);
    assert Contiguous(start, base);
    EntriesAbsorb(start, response.entries, base, interpreter);
    SettlingSettles(p.overlay.outbox, p.sequence, base, p.log, eq);
    forall e | e in response.entries ensures EntryStep(base, interpreter)(q, e) == Ok(q) {
      assert Absorbed(p, e, base, eq) && Absorbed(q, e, base, eq);
      AbsorbedIsNoOp(q, e, base, interpreter);
    }
    FoldOfNoOps(EntryStep(base, interpreter), q, response.entries);
  }

  /** A merge whose passes are known. */
  lemma MergeFromPasses(r: Replica, response: Response, interpreter: ReplicaInterpreter,
                        o: Overlay, p: Progress, kept: seq<OutboxEntry>)
    requires ValidResponse(response) && ValidRetained(r) && response.requestedBase <= r.confirmedSequence
    requires Fold(DecisionStep(interpreter.areEqual), Overlay(r.outbox, []), response.decisions) == Ok(o)
    requires Fold(EntryStep(RetainedBase(r), interpreter),
                  Progress(o, r.confirmedSequence, r.confirmedState, r.confirmedLog), response.entries) == Ok(p)
    requires Fold(SettleStep(p.sequence, RetainedBase(r), p.log, interpreter.areEqual), [], p.overlay.outbox) == Ok(kept)
    ensures Merge(r, response, interpreter) ==
      Ok(Merged(r.(confirmedSequence := p.sequence, confirmedState := p.state, confirmedLog := p.log, outbox := kept),
                p.overlay.newly, p.sequence >= response.head))
  {
    hide ResponseCheck, RetainedCheck;
    ResponseCheckIsValidResponse(response, None);
    assert WithinLimits(response, None);
    var checked := RetainedCheck(r);
  }

  /* ---- Compaction ---- */

  /** No operation is both in the outbox and in the retained log. */
  ghost predicate Disjoint(outbox: seq<OutboxEntry>, log: seq<Entry>) {
    forall x, e | x in outbox && e in log :: x.proposal.operationId != e.operationId
  }

  lemma DecisionAddsNoId(o: Overlay, d: Decision, eq: Equality)
    requires MergeDecision(o, d, eq).Ok?
    ensures OutboxIds(MergeDecision(o, d, eq).value.outbox) <= OutboxIds(o.outbox)
  {
    var after := MergeDecision(o, d, eq).value.outbox;
    forall x | x in after ensures x.proposal.operationId in OutboxIds(o.outbox) {
      if x !in o.outbox {
        assert o.outbox[Find(o.outbox, d.operationId)] in o.outbox;
      }
    }
  }

  lemma {:induction false} DecisionsAddNoIds(o: Overlay, ds: seq<Decision>, eq: Equality)
    requires Fold(DecisionStep(eq), o, ds).Ok?
    ensures OutboxIds(Fold(DecisionStep(eq), o, ds).value.outbox) <= OutboxIds(o.outbox)
  {
    if ds != [] {
      hide MergeDecision, OutboxIds;
      DecisionsAddNoIds(o, ds[..|ds| - 1], eq);
      var before := Fold(DecisionStep(eq), o, ds[..|ds| - 1]).value;
      assert DecisionStep(eq)(before, ds[|ds| - 1]) == MergeDecision(before, ds[|ds| - 1], eq);
      DecisionAddsNoId(before, ds[|ds| - 1], eq);
      return;
    }
  }

  /** p without the first cut retained entries. */
  function Cut(p: Progress, cut: nat): Progress
    requires cut <= |p.log|
  {
    p.(log := p.log[cut..])
  }

  /** One entry does the same to a progress and to its cut version. */
  lemma EntryIgnoresCut(p: Progress, e: Entry, base: int, cut: nat, had: seq<Entry>, interpreter: ReplicaInterpreter)
    requires cut <= |had| <= |p.log| && p.log[..|had|] == had
    requires p.sequence - |p.log| == base
    requires Disjoint(p.overlay.outbox, had)
    requires MergeEntry(p, e, base, interpreter).Ok?
    ensures var q := MergeEntry(p, e, base, interpreter).value;
      && |had| <= |q.log| && q.log[..|had|] == had
      && q.sequence - |q.log| == base
      && Disjoint(q.overlay.outbox, had)
      && MergeEntry(Cut(p, cut), e, base + cut, interpreter) == Ok(Cut(q, cut))
  {
    var q := MergeEntry(p, e, base, interpreter).value;
    if base < e.sequence <= base + cut {
      var i := e.sequence - base - 1;
      assert p.log[i] == had[i] && had[i] in had;
      FindNone(p.overlay.outbox, e.operationId);
    } else if e.sequence > base {
      var f := Find(p.overlay.outbox, e.operationId);
      if f < |p.overlay.outbox| {
        assert forall x | x in RemoveAt(p.overlay.outbox, f) :: x in p.overlay.outbox;
      }
      if e.sequence > p.sequence {
        assert (p.log + [e])[cut..] == p.log[cut..] + [e];
      }
    }
  }

  lemma {:induction false} EntriesIgnoreCut(
    p: Progress, es: seq<Entry>, base: int, cut: nat, had: seq<Entry>, interpreter: ReplicaInterpreter)
    requires cut <= |had| <= |p.log| && p.log[..|had|] == had
    requires p.sequence - |p.log| == base
    requires Disjoint(p.overlay.outbox, had)
    requires Fold(EntryStep(base, interpreter), p, es).Ok?
    ensures var q := Fold(EntryStep(base, interpreter), p, es).value;
      && |had| <= |q.log| && q.log[..|had|] == had
      && q.sequence - |q.log| == base
      && Disjoint(q.overlay.outbox, had)
      && Fold(EntryStep(base + cut, interpreter), Cut(p, cut), es) == Ok(Cut(q, cut))
  {
    if es != [] {
      hide MergeEntry, Disjoint;
      var init, e := es[..|es| - 1], es[|es| - 1];
      EntriesIgnoreCut(p, init, base, cut, had, interpreter);
      var before := Fold(EntryStep(base, interpreter), p, init).value;
      assert EntryStep(base, interpreter)(before, e) == MergeEntry(before, e, base, interpreter);
      EntryIgnoresCut(before, e, base, cut, had, interpreter);
      return;
    }
  }

  lemma {:induction false} SettlingIgnoresCut(
    outbox: seq<OutboxEntry>, p: Progress, base: int, cut: nat, had: seq<Entry>, eq: Equality)
    requires cut <= |had| <= |p.log| && p.log[..|had|] == had
    requires Disjoint(outbox, had)
    requires Fold(SettleStep(p.sequence, base, p.log, eq), [], outbox).Ok?
    ensures Fold(SettleStep(p.sequence, base + cut, p.log[cut..], eq), [], outbox)
         == Fold(SettleStep(p.sequence, base, p.log, eq), [], outbox)
  {
    if outbox != [] {
      var init, x := outbox[..|outbox| - 1], outbox[|outbox| - 1];
      assert x in outbox && forall y | y in init :: y in outbox;
      SettlingIgnoresCut(init, p, base, cut, had, eq);
      if x.AcceptedEntry? && base < x.sequence <= base + cut {
        var i := x.sequence - base - 1;
        assert p.log[i] == had[i] && had[i] in had;
      }
    }
  }

  /** Compacting before the merge or after it gives the same result, for any response and any notion
      of operation equality. It takes an outbox with no operation in the retained log. */
  lemma CompactionIsInvisible(r: Replica, through: int, response: Response, interpreter: ReplicaInterpreter)
    requires Disjoint(r.outbox, r.confirmedLog)
    requires Compact(r, through).Ok?
    requires Merge(r, response, interpreter).Ok?
    ensures var m := Merge(r, response, interpreter).value;
      && Compact(m.state, through).Ok?
      && Merge(Compact(r, through).value, response, interpreter)
         == Ok(m.(state := Compact(m.state, through).value))
  {
    hide *;
    var m := Merge(r, response, interpreter).value;
    var c := Compact(r, through).value;
    var base := RetainedBase(r);
    var cut := |r.confirmedLog| - |c.confirmedLog|;
    var o, p := MergePasses(r, response, interpreter);
    var start := Progress(o, r.confirmedSequence, r.confirmedState, r.confirmedLog);
    CompactDrops(r, through);
    DisjointAfterDecisions(r, response, interpreter, o);
    StartsWhole(r);
    EntriesIgnoreCut(start, response.entries, base, cut, r.confirmedLog, interpreter);
    SettlingIgnoresCut(p.overlay.outbox, p, base, cut, r.confirmedLog, interpreter.areEqual);
    CompactedMerge(r, c, through, cut, response, interpreter, o, p, m);
  }

  /** c is r without its first cut retained entries. */
  ghost predicate IsCompaction(r: Replica, c: Replica, through: int, cut: int) {
    && 0 <= cut <= |r.confirmedLog|
    && c == r.(confirmedLog := r.confirmedLog[cut..])
    && cut == Max(0, through - RetainedBase(r))
    && ValidRetained(r) && ValidRetained(c)
    && IsLogSequence(through, true)
  }

  lemma CompactDrops(r: Replica, through: int)
    requires Compact(r, through).Ok?
    ensures var c := Compact(r, through).value;
      IsCompaction(r, c, through, |r.confirmedLog| - |c.confirmedLog|)
  {
    var checked := RetainedCheck(r);
  }

  lemma StartsWhole(r: Replica)
    ensures r.confirmedLog[..|r.confirmedLog|] == r.confirmedLog
    ensures r.confirmedSequence - |r.confirmedLog| == RetainedBase(r)
  {
  }

  lemma DisjointAfterDecisions(r: Replica, response: Response, interpreter: ReplicaInterpreter, o: Overlay)
    requires Disjoint(r.outbox, r.confirmedLog)
    requires Fold(DecisionStep(interpreter.areEqual), Overlay(r.outbox, []), response.decisions) == Ok(o)
    ensures Disjoint(o.outbox, r.confirmedLog)
  {
    DecisionsAddNoIds(Overlay(r.outbox, []), response.decisions, interpreter.areEqual);
    forall x, e | x in o.outbox && e in r.confirmedLog ensures x.proposal.operationId != e.operationId {
      assert x.proposal.operationId in OutboxIds(r.outbox);
    }
  }

  lemma CompactedMerge(r: Replica, c: Replica, through: int, cut: nat, response: Response,
                       interpreter: ReplicaInterpreter, o: Overlay, p: Progress, m: Merged)
    requires IsCompaction(r, c, through, cut) && cut <= |p.log|
    requires ValidResponse(response) && response.requestedBase <= r.confirmedSequence
    requires p.sequence - |p.log| == RetainedBase(r)
    requires Fold(DecisionStep(interpreter.areEqual), Overlay(r.outbox, []), response.decisions) == Ok(o)
    requires Fold(EntryStep(RetainedBase(r), interpreter),
                  Progress(o, r.confirmedSequence, r.confirmedState, r.confirmedLog), response.entries) == Ok(p)
    requires Fold(EntryStep(RetainedBase(r) + cut, interpreter),
                  Cut(Progress(o, r.confirmedSequence, r.confirmedState, r.confirmedLog), cut), response.entries)
             == Ok(Cut(p, cut))
    requires Fold(SettleStep(p.sequence, RetainedBase(r) + cut, p.log[cut..], interpreter.areEqual), [], p.overlay.outbox)
             == Ok(m.state.outbox)
    requires m.state == r.(confirmedSequence := p.sequence, confirmedState := p.state,
                           confirmedLog := p.log, outbox := m.state.outbox)
    requires m.newly == p.overlay.newly && m.caughtUp == (p.sequence >= response.head)
    ensures Compact(m.state, through).Ok?
    ensures Merge(c, response, interpreter) == Ok(m.(state := Compact(m.state, through).value))
  {
    hide Fold, ValidResponse;
    MergeFromPasses(c, response, interpreter, o, Cut(p, cut), m.state.outbox);
    MergedIsRetained(r, response, interpreter, o, p);
    assert ValidRetained(m.state);
    var checked := RetainedCheck(m.state);
    assert cut == 0 ==> p.log[cut..] == p.log;
  }

  lemma MergedIsRetained(r: Replica, response: Response, interpreter: ReplicaInterpreter, o: Overlay, p: Progress)
    requires ValidResponse(response) && ValidRetained(r)
    requires Fold(EntryStep(RetainedBase(r), interpreter),
                  Progress(o, r.confirmedSequence, r.confirmedState, r.confirmedLog), response.entries) == Ok(p)
    ensures Contiguous(p, RetainedBase(r)) && IsLogSequence(p.sequence, true) && r.confirmedSequence <= p.sequence
  {
    var start := Progress(o, r.confirmedSequence, r.confirmedState, r.confirmedLog);
    EntriesStayContiguous(start, response.entries, RetainedBase(r), interpreter);
    SequenceStaysSafe(start, response.entries, RetainedBase(r), interpreter);
  }

  lemma {:induction false} EntriesStayContiguous(p: Progress, es: seq<Entry>, base: int, interpreter: ReplicaInterpreter)
    requires Contiguous(p, base)
    requires Fold(EntryStep(base, interpreter), p, es).Ok?
    ensures var q := Fold(EntryStep(base, interpreter), p, es).value;
      Contiguous(q, base) && p.sequence <= q.sequence
  {
    if es != [] {
      EntriesStayContiguous(p, es[..|es| - 1], base, interpreter);
    }
  }
}
