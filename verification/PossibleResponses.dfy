/** src/invariants.ts:152-275: which responses an authority can send at all, and which of the others the
    response validator lets through. */
module PossibleResponses {
  import opened Protocol
  import opened Validators
  import opened LogServer
  import opened Snapshots

  /** Some authority, with its invariant, for which the response is honest. */
  ghost predicate IsPossible(w: World, response: Response) {
    exists a :: Sound(w, a) && Honest(response, a)
  }

  /** What the validator does not look at: two acceptances stand at different sequences, and one at a
      sequence of the page is of the operation that the page has there. */
  ghost predicate OnePerSequence(response: Response) {
    && (forall i, j | 0 <= i < j < |response.decisions| && response.decisions[i].Accepted? && response.decisions[j].Accepted? ::
          response.decisions[i].sequence != response.decisions[j].sequence)
    && (forall d, e | d in response.decisions && d.Accepted? && e in response.entries && d.sequence == e.sequence ::
          d.operationId == e.operationId && d.operation == e.operation)
  }

  /* ---- Possible responses pass, and agree ---- */

  lemma PossibleAgrees(w: World, response: Response, a: Authority)
    requires Sound(w, a) && Honest(response, a)
    ensures ValidResponse(response) && OnePerSequence(response)
  {
    hide *;
    HonestIsValid(w, response, a);
    HonestIsDistinct(response, a);
    var ds := response.decisions;
    forall i: nat | i < |ds| && ds[i].Accepted? ensures IsAt(a, ds[i].sequence, ds[i].operationId, ds[i].operation) {
      AcceptedIsLogged(w, response, a, i);
      IsLogged(a, ds[i]);
    }
    forall e | e in response.entries ensures IsAt(a, e.sequence, e.operationId, e.operation) {
      PageIsLogged(w, response, a, e);
      EntryIsLogged(a, e);
    }
    OneIsLogged(response, a);
  }

  /** The log has this operation there. */
  predicate IsAt(a: Authority, sequence: int, operationId: string, operation: Operation) {
    && 1 <= sequence <= |a.log|
    && a.log[sequence - 1].operationId == operationId && a.log[sequence - 1].operation == operation
  }

  lemma IsLogged(a: Authority, d: Decision)
    requires d.Accepted? && 1 <= d.sequence <= |a.log| && a.log[d.sequence - 1].operationId == d.operationId
    requires a.log[d.sequence - 1].operation == d.operation
    ensures IsAt(a, d.sequence, d.operationId, d.operation)
  {
  }

  lemma EntryIsLogged(a: Authority, e: Entry)
    requires 1 <= e.sequence <= |a.log| && a.log[e.sequence - 1] == e
    ensures IsAt(a, e.sequence, e.operationId, e.operation)
  {
  }

  lemma OneIsLogged(response: Response, a: Authority)
    requires DistinctDecisions(response.decisions)
    requires forall i: nat | i < |response.decisions| && response.decisions[i].Accepted? ::
      IsAt(a, response.decisions[i].sequence, response.decisions[i].operationId, response.decisions[i].operation)
    requires forall e | e in response.entries :: IsAt(a, e.sequence, e.operationId, e.operation)
    ensures OnePerSequence(response)
  {
    forall d | d in response.decisions && d.Accepted? ensures IsAt(a, d.sequence, d.operationId, d.operation) {
      var i: nat :| i < |response.decisions| && response.decisions[i] == d;
    }
  }

  lemma HonestIsDistinct(response: Response, a: Authority)
    requires Honest(response, a)
    ensures DistinctDecisions(response.decisions)
  {
  }

  lemma PageIsLogged(w: World, response: Response, a: Authority, e: Entry)
    requires Sound(w, a) && Honest(response, a) && e in response.entries
    ensures 1 <= e.sequence <= |a.log| && a.log[e.sequence - 1] == e
  {
    hide HonestDecision, DecisionsCoherent, PositionsCoherent;
    var k :| 0 <= k < |response.entries| && response.entries[k] == e;
    assert a.log[response.requestedBase + k] == e;
  }

  lemma AcceptedIsLogged(w: World, response: Response, a: Authority, i: nat)
    requires Sound(w, a) && Honest(response, a) && i < |response.decisions| && response.decisions[i].Accepted?
    ensures var d := response.decisions[i];
      && d.operationId in a.decisions && a.decisions[d.operationId].decision == d
      && 1 <= d.sequence <= |a.log| && a.log[d.sequence - 1].operationId == d.operationId
      && a.log[d.sequence - 1].operation == d.operation
  {
    var d := response.decisions[i];
    assert HonestDecision(d, response.head, a) && StoredCoherent(a, d.operationId);
    assert Records(a, a.log[d.sequence - 1]);
  }

  /* ---- An authority for a response ---- */

  function Xs(n: nat): (s: string)
    ensures |s| == n
  {
    seq(n, i => 'x')
  }

  /** Longer than every name in the response. */
  ghost predicate Longer(response: Response, n: nat) {
    && n > 0
    && (forall e | e in response.entries :: |e.operationId| < n && |e.origin.clientId| < n)
    && (forall d | d in response.decisions :: |d.operationId| < n)
  }

  lemma {:induction false} LongerThanEntries(es: seq<Entry>) returns (n: nat)
    ensures forall e | e in es :: |e.operationId| < n && |e.origin.clientId| < n
  {
    n := 0;
    if es != [] {
      n := LongerThanEntries(es[1..]);
      n := n + |es[0].operationId| + |es[0].origin.clientId| + 1;
    }
  }

  lemma {:induction false} LongerThanDecisions(ds: seq<Decision>) returns (n: nat)
    ensures forall d | d in ds :: |d.operationId| < n
  {
    n := 0;
    if ds != [] {
      n := LongerThanDecisions(ds[1..]);
      n := n + |ds[0].operationId| + 1;
    }
  }

  /** The first acceptance at that sequence; the length if there is none. */
  function AcceptedAt(ds: seq<Decision>, sequence: int): (i: nat)
    ensures i <= |ds|
    ensures i < |ds| ==> ds[i].Accepted? && ds[i].sequence == sequence
    ensures forall k | 0 <= k < i :: !(ds[k].Accepted? && ds[k].sequence == sequence)
  {
    if ds == [] then 0
    else
      var i := AcceptedAt(ds[..|ds| - 1], sequence);
      if i < |ds| - 1 || (ds[|ds| - 1].Accepted? && ds[|ds| - 1].sequence == sequence) then i else |ds|
  }

  /** What the log holds at a sequence: the page's entry, what was accepted there, or anything. */
  function EntryAt(response: Response, filler: Operation, n: nat, sequence: int): Entry {
    var i := AcceptedAt(response.decisions, sequence);
    if 0 <= sequence - response.requestedBase - 1 < |response.entries| then
      response.entries[sequence - response.requestedBase - 1]
    else
      var origin := Origin(Xs(n), sequence, "x");
      if i < |response.decisions| then
        Entry(sequence, response.decisions[i].operationId, origin, response.decisions[i].operation)
      else Entry(sequence, Xs(n + Max(0, sequence)), origin, filler)
  }

  function LogOf(response: Response, filler: Operation, n: nat): (log: seq<Entry>)
    requires 0 <= response.head
    ensures |log| == response.head
    ensures forall i | 0 <= i < |log| :: log[i] == EntryAt(response, filler, n, i + 1)
  {
    seq(response.head, (i: nat) requires i < response.head => EntryAt(response, filler, n, i + 1))
  }

  lemma EntryIsValid(response: Response, filler: Operation, n: nat, sequence: int)
    requires ValidResponse(response) && Longer(response, n) && 1 <= sequence <= response.head
    ensures var e := EntryAt(response, filler, n, sequence); ValidEntry(e) && e.sequence == sequence
  {
    var k, i := sequence - response.requestedBase - 1, AcceptedAt(response.decisions, sequence);
    if i < |response.decisions| && !(0 <= k < |response.entries|) {
      assert AgreesWithPage(response.decisions[i], response);
    }
  }

  /** No two entries share an identity or a position. */
  lemma EntriesDiffer(response: Response, filler: Operation, n: nat, s: int, t: int)
    requires ValidResponse(response) && OnePerSequence(response) && Longer(response, n)
    requires 1 <= s < t <= response.head
    ensures var e, f := EntryAt(response, filler, n, s), EntryAt(response, filler, n, t);
      e.operationId != f.operationId && PositionOf(e) != PositionOf(f)
  {
    var ds, es := response.decisions, response.entries;
    var k, l := s - response.requestedBase - 1, t - response.requestedBase - 1;
    var i, j := AcceptedAt(ds, s), AcceptedAt(ds, t);
    if i < |ds| {
      assert AgreesWithPage(ds[i], response) && ds[i] in ds;
    }
    if j < |ds| {
      assert AgreesWithPage(ds[j], response) && ds[j] in ds;
    }
    if 0 <= k < |es| {
      assert es[k] in es;
    }
    if 0 <= l < |es| {
      assert es[l] in es;
    }
  }

  /** Records of the rejections, each under a client of its own. */
  function Rejections(ds: seq<Decision>, n: nat): seq<Stored> {
    if ds == [] then []
    else
      var before, last := Rejections(ds[..|ds| - 1], n), ds[|ds| - 1];
      if last.Rejected? then before + [Stored(last.operationId, Xs(n + |ds|), 1, "x", last)] else before
  }

  function RecordOf(e: Entry): Stored {
    Stored(e.operationId, e.origin.clientId, e.origin.clientSequence, e.origin.intentHash,
           Accepted(e.operationId, e.sequence, e.operation))
  }

  function Acceptances(log: seq<Entry>): (rs: seq<Stored>)
    ensures |rs| == |log| && forall i | 0 <= i < |rs| :: rs[i] == RecordOf(log[i])
  {
    seq(|log|, (i: nat) requires i < |log| => RecordOf(log[i]))
  }

  ghost predicate AreRejections(ds: seq<Decision>, n: nat, rs: seq<Stored>) {
    && ValidRecords(rs)
    && (forall r | r in rs :: r.decision.Rejected? && r.decision in ds && |r.clientId| > n && |r.clientId| <= n + |ds|)
    && (forall d | d in ds && d.Rejected? :: exists r :: r in rs && r.decision == d)
  }

  lemma {:induction false} RejectionsAreRecords(ds: seq<Decision>, n: nat)
    requires DistinctDecisions(ds) && forall d | d in ds :: d.operationId != ""
    ensures AreRejections(ds, n, Rejections(ds, n))
  {
    if ds != [] {
      var init, last := ds[..|ds| - 1], ds[|ds| - 1];
      assert ds == init + [last];
      RejectionsAreRecords(init, n);
      hide ValidRecords;
      var before := Rejections(init, n);
      if last.Rejected? {
        var r := Stored(last.operationId, Xs(n + |ds|), 1, "x", last);
        LastRejection(init, last, n, before, r);
      }
    }
  }

  lemma LastRejection(init: seq<Decision>, last: Decision, n: nat, before: seq<Stored>, r: Stored)
    requires DistinctDecisions(init + [last]) && last.operationId != "" && last.Rejected?
    requires AreRejections(init, n, before) && r == Stored(last.operationId, Xs(n + |init| + 1), 1, "x", last)
    ensures AreRejections(init + [last], n, before + [r])
  {
    var ds := init + [last];
    assert ds[|init|] == last && forall i | 0 <= i < |init| :: ds[i] == init[i];
    forall d | d in init ensures d.operationId != last.operationId {
      var i :| 0 <= i < |init| && init[i] == d;
    }
    OneMoreRecord(before, r, Index(map[], map[]));
    forall b | b in before ensures b.operationId != r.operationId && SlotOfStored(b) != SlotOfStored(r) {
      var i :| 0 <= i < |before| && before[i] == b;
    }
    hide ValidRecords;
    forall d | d in ds && d.Rejected? ensures exists x :: x in before + [r] && x.decision == d {
      if d in init {
        var x :| x in before && x.decision == d;
        assert x in before + [r];
      } else {
        assert r in before + [r];
      }
    }
  }

  /* ---- Possible exactly ---- */

  function SnapshotOf(w: World, response: Response, filler: Operation, n: nat): Snapshot
    requires 0 <= response.head
  {
    var log := LogOf(response, filler, n);
    Snapshot(Replay(w.log.apply, w.initial, log), log, Acceptances(log) + Rejections(response.decisions, n))
  }

  lemma LogIsValid(response: Response, filler: Operation, n: nat)
    requires ValidResponse(response) && OnePerSequence(response) && Longer(response, n)
    ensures 0 <= response.head && ValidLog(LogOf(response, filler, n))
  {
    hide *;
    HeadIsNatural(response);
    var log := LogOf(response, filler, n);
    forall i: nat | i < |log| ensures ValidEntry(log[i]) && log[i].sequence == i + 1 {
      EntryIsValid(response, filler, n, i + 1);
    }
    forall i: nat, j: nat | i < j < |log|
      ensures log[i].operationId != log[j].operationId && PositionOf(log[i]) != PositionOf(log[j])
    {
      EntriesDiffer(response, filler, n, i + 1, j + 1);
    }
    LogFromParts(log);
  }

  lemma HeadIsNatural(response: Response)
    requires ValidResponse(response)
    ensures 0 <= response.head <= MAX_SAFE
  {
  }

  lemma LogFromParts(log: seq<Entry>)
    requires forall i: nat | i < |log| :: ValidEntry(log[i]) && log[i].sequence == i + 1
    requires forall i: nat, j: nat | i < j < |log| ::
      log[i].operationId != log[j].operationId && PositionOf(log[i]) != PositionOf(log[j])
    ensures ValidLog(log)
  {
    hide ValidEntry, PositionOf;
  }

  lemma AcceptancesAreRecords(log: seq<Entry>)
    requires ValidLog(log)
    ensures ValidRecords(Acceptances(log))
  {
    var rs := Acceptances(log);
    assert forall i | 0 <= i < |rs| :: rs[i] == RecordOf(log[i]) && ValidEntry(log[i]);
    forall i, j | 0 <= i < j < |rs| ensures rs[i].operationId != rs[j].operationId && SlotOfStored(rs[i]) != SlotOfStored(rs[j]) {
      assert PositionOf(log[i]) != PositionOf(log[j]);
    }
  }

  /** A rejection and an entry of the log share neither identity nor client. */
  lemma RejectionIsApart(response: Response, filler: Operation, n: nat, d: Decision, sequence: int)
    requires ValidResponse(response) && Longer(response, n) && 1 <= sequence <= response.head
    requires d in response.decisions && d.Rejected?
    ensures var e := EntryAt(response, filler, n, sequence);
      e.operationId != d.operationId && |e.origin.clientId| <= n
  {
    var ds, k := response.decisions, sequence - response.requestedBase - 1;
    var j :| 0 <= j < |ds| && ds[j] == d;
    assert AgreesWithPage(ds[j], response);
    if 0 <= k < |response.entries| {
      assert response.entries[k] in response.entries;
    }
  }

  lemma RecordsConcat(xs: seq<Stored>, ys: seq<Stored>)
    requires ValidRecords(xs) && ValidRecords(ys)
    requires forall x, y | x in xs && y in ys :: x.operationId != y.operationId && SlotOfStored(x) != SlotOfStored(y)
    ensures ValidRecords(xs + ys)
  {
    hide ValidRecord;
    var all := xs + ys;
    forall i, j | 0 <= i < j < |all|
      ensures all[i].operationId != all[j].operationId && SlotOfStored(all[i]) != SlotOfStored(all[j])
    {
      if i < |xs| <= j {
        assert xs[i] in xs && ys[j - |xs|] in ys;
      }
    }
  }

  lemma AllAreRecords(w: World, response: Response, filler: Operation, n: nat)
    requires ValidResponse(response) && OnePerSequence(response) && Longer(response, n)
    ensures ValidRecords(SnapshotOf(w, response, filler, n).decisions)
    ensures AreRejections(response.decisions, n, Rejections(response.decisions, n))
  {
    hide *;
    HeadIsNatural(response);
    var log, ds := LogOf(response, filler, n), response.decisions;
    LogIsValid(response, filler, n);
    AcceptancesAreRecords(log);
    NamesAreThere(response);
    RejectionsAreRecords(ds, n);
    var xs, ys := Acceptances(log), Rejections(ds, n);
    forall x, y | x in xs && y in ys ensures x.operationId != y.operationId && SlotOfStored(x) != SlotOfStored(y) {
      var i: nat :| i < |xs| && xs[i] == x;
      RejectionNamesItself(ds, n, ys, y);
      RejectionIsApart(response, filler, n, y.decision, i + 1);
      RecordsDiffer(log[i], y, n);
    }
    RejectionsArePart(ds, n, ys);
    RecordsConcat(xs, ys);
    SnapshotIs(w, response, filler, n);
  }

  lemma SnapshotIs(w: World, response: Response, filler: Operation, n: nat)
    requires 0 <= response.head
    ensures SnapshotOf(w, response, filler, n).decisions
         == Acceptances(LogOf(response, filler, n)) + Rejections(response.decisions, n)
  {
  }

  lemma RejectionsArePart(ds: seq<Decision>, n: nat, rs: seq<Stored>)
    requires AreRejections(ds, n, rs)
    ensures ValidRecords(rs)
  {
    hide ValidRecords;
  }

  lemma RecordsDiffer(e: Entry, r: Stored, n: nat)
    requires e.operationId != r.operationId && |e.origin.clientId| <= n < |r.clientId|
    ensures RecordOf(e).operationId != r.operationId && SlotOfStored(RecordOf(e)) != SlotOfStored(r)
  {
  }

  lemma NamesAreThere(response: Response)
    requires ValidResponse(response)
    ensures DistinctDecisions(response.decisions) && forall d | d in response.decisions :: d.operationId != ""
  {
    forall d | d in response.decisions ensures d.operationId != "" {
      var i :| 0 <= i < |response.decisions| && response.decisions[i] == d;
      assert AgreesWithPage(response.decisions[i], response);
    }
  }

  lemma RejectionNamesItself(ds: seq<Decision>, n: nat, rs: seq<Stored>, r: Stored)
    requires AreRejections(ds, n, rs) && r in rs
    ensures r.operationId == r.decision.operationId && r.decision in ds && r.decision.Rejected? && |r.clientId| > n
  {
    var i :| 0 <= i < |rs| && rs[i] == r;
    assert ValidRecord(rs[i]);
  }

  lemma SnapshotIsAccepted(w: World, response: Response, filler: Operation, n: nat)
    requires ValidResponse(response) && OnePerSequence(response) && Longer(response, n)
    ensures var s := SnapshotOf(w, response, filler, n); Snapshots.ValidSnapshot(s) && SameOperations(s)
  {
    var s := SnapshotOf(w, response, filler, n);
    LogIsValid(response, filler, n);
    AllAreRecords(w, response, filler, n);
    hide ValidResponse, OnePerSequence, Longer, ValidLog, ValidRecords, Rejections, LogOf;
    AcceptancesAreOf(s.log, Rejections(response.decisions, n));
    EntriesAndRecordsMatch(s);
  }

  /** Every record is of an entry, or rejects. */
  ghost predicate AreOf(log: seq<Entry>, rs: seq<Stored>) {
    && (forall i: nat | i < |log| :: RecordOf(log[i]) in rs)
    && (forall d | d in rs && d.decision.Accepted? :: exists i: nat :: i < |log| && d == RecordOf(log[i]))
  }

  lemma AcceptancesAreOf(log: seq<Entry>, rs: seq<Stored>)
    requires forall r | r in rs :: r.decision.Rejected?
    ensures AreOf(log, Acceptances(log) + rs)
  {
    hide RecordOf;
    var xs := Acceptances(log);
    forall i: nat | i < |log| ensures RecordOf(log[i]) in xs + rs {
      assert (xs + rs)[i] == xs[i];
    }
    forall d | d in xs + rs && d.decision.Accepted? ensures exists i: nat :: i < |log| && d == RecordOf(log[i]) {
      var i: nat :| i < |xs| && xs[i] == d;
      assert d == RecordOf(log[i]);
    }
  }

  lemma EntriesAndRecordsMatch(s: Snapshot)
    requires ValidLog(s.log) && ValidRecords(s.decisions) && AreOf(s.log, s.decisions)
    ensures Snapshots.ValidSnapshot(s) && SameOperations(s)
  {
    hide AreOf, ValidLog, ValidRecords, Matches;
    forall e | e in s.log ensures exists d :: d in s.decisions && Matches(d, e) {
      var d := EntryIsMatched(s.log, s.decisions, e);
    }
    forall d | d in s.decisions && d.decision.Accepted?
      ensures exists e :: e in s.log && Matches(d, e)
      ensures forall e | e in s.log && d.operationId == e.operationId :: d.decision.operation == e.operation
    {
      var e := RecordIsMatched(s.log, s.decisions, d);
    }
  }

  lemma EntryIsMatched(log: seq<Entry>, rs: seq<Stored>, e: Entry) returns (d: Stored)
    requires AreOf(log, rs) && e in log
    ensures d in rs && Matches(d, e)
  {
    var i: nat :| i < |log| && log[i] == e;
    d := RecordOf(log[i]);
  }

  lemma RecordIsMatched(log: seq<Entry>, rs: seq<Stored>, d: Stored) returns (e: Entry)
    requires ValidLog(log) && AreOf(log, rs) && d in rs && d.decision.Accepted?
    ensures e in log && Matches(d, e)
    ensures forall x | x in log && d.operationId == x.operationId :: d.decision.operation == x.operation
  {
    hide ValidEntry, PositionOf;
    var i: nat :| i < |log| && d == RecordOf(log[i]);
    e := log[i];
    forall x | x in log && d.operationId == x.operationId ensures x == e {
      var k: nat :| k < |log| && log[k] == x;
      assert i == k;
    }
  }

  /** The acceptance is what the log has at its sequence. */
  lemma AcceptedIsThere(response: Response, filler: Operation, n: nat, d: Decision)
    requires ValidResponse(response) && OnePerSequence(response) && d in response.decisions && d.Accepted?
    ensures 1 <= d.sequence <= response.head
    ensures var e := EntryAt(response, filler, n, d.sequence);
      e.operationId == d.operationId && e.operation == d.operation && e.sequence == d.sequence
  {
    var ds, k := response.decisions, d.sequence - response.requestedBase - 1;
    var j :| 0 <= j < |ds| && ds[j] == d;
    assert AgreesWithPage(ds[j], response);
    var i := AcceptedAt(ds, d.sequence);
    assert i <= j;
    if 0 <= k < |response.entries| {
      assert response.entries[k] in response.entries;
    }
  }

  lemma DecisionIsRecorded(w: World, response: Response, filler: Operation, n: nat, d: Decision)
    requires ValidResponse(response) && OnePerSequence(response) && Longer(response, n) && d in response.decisions
    ensures exists r :: r in SnapshotOf(w, response, filler, n).decisions && r.operationId == d.operationId && r.decision == d
  {
    var s, log := SnapshotOf(w, response, filler, n), LogOf(response, filler, n);
    if d.Accepted? {
      AcceptedIsThere(response, filler, n, d);
      hide ValidResponse, OnePerSequence, Longer, EntryAt;
      var r := Acceptances(log)[d.sequence - 1];
      assert r == RecordOf(log[d.sequence - 1]);
      assert s.decisions[d.sequence - 1] == r;
    } else {
      AllAreRecords(w, response, filler, n);
      var rs := Rejections(response.decisions, n);
      var r :| r in rs && r.decision == d;
      RejectionNamesItself(response.decisions, n, rs, r);
      assert r in s.decisions;
    }
  }

  lemma HonestForIt(w: World, response: Response, filler: Operation, n: nat) returns (a: Authority)
    requires ValidResponse(response) && OnePerSequence(response) && Longer(response, n)
    ensures Sound(w, a) && Honest(response, a)
  {
    var s := SnapshotOf(w, response, filler, n);
    SnapshotIsAccepted(w, response, filler, n);
    RestoreAcceptsExactlyValid(s);
    RestoredIsCoherentExactly(w, s);
    RestoredFields(s);
    a := Restore(s).value;
    forall i | 0 <= i < |response.decisions| ensures HonestDecision(response.decisions[i], response.head, a) {
      var d := response.decisions[i];
      assert AgreesWithPage(d, response);
      DecisionIsRecorded(w, response, filler, n, d);
      RecordIsRestored(s, a, d);
    }
    hide Restore, Snapshots.ValidSnapshot, SameOperations, Coherent, HonestDecision;
    PageIsThere(response, filler, n);
  }

  lemma RecordIsRestored(s: Snapshot, a: Authority, d: Decision)
    requires IsIndexOf(Index(a.decisions, a.positions), s.decisions)
    requires exists r :: r in s.decisions && r.operationId == d.operationId && r.decision == d
    ensures d.operationId in a.decisions && a.decisions[d.operationId].decision == d
  {
  }

  lemma PageIsThere(response: Response, filler: Operation, n: nat)
    requires ValidResponse(response)
    ensures var log := LogOf(response, filler, n);
      && 0 <= response.requestedBase <= response.through <= response.head == |log| <= MAX_SAFE
      && response.entries == log[response.requestedBase..response.through]
      && (response.requestedBase < response.head ==> response.requestedBase < response.through)
      && DistinctDecisions(response.decisions)
  {
    var log := LogOf(response, filler, n);
    assert forall k | 0 <= k < |response.entries| :: log[response.requestedBase + k] == response.entries[k];
  }

  /** A response is one that some authority could send exactly when the validator accepts it and it has
      one operation at each sequence that it speaks of. */
  lemma PossibleExactly(w: World, response: Response, filler: Operation)
    ensures IsPossible(w, response) <==> ResponseCheck(response, None).Pass? && OnePerSequence(response)
  {
    ResponseCheckIsValidResponse(response, None);
    hide ResponseCheck, ValidResponse, OnePerSequence, Sound, Honest;
    if IsPossible(w, response) {
      var a :| Sound(w, a) && Honest(response, a);
      PossibleAgrees(w, response, a);
    }
    if ValidResponse(response) && OnePerSequence(response) {
      var n := LongerThanEntries(response.entries);
      var m := LongerThanDecisions(response.decisions);
      var a := HonestForIt(w, response, filler, n + m + 1);
    }
  }

  /** The validator accepts a response with two operations at one sequence, which no authority sends. */
  lemma AcceptedThoughImpossible(w: World, operation: Operation)
    ensures var response := Response(1, 1, 1, [], [Accepted("a", 1, operation), Accepted("b", 1, operation)]);
      ResponseCheck(response, None).Pass? && !IsPossible(w, response)
  {
    var ds := [Accepted("a", 1, operation), Accepted("b", 1, operation)];
    var response := Response(1, 1, 1, [], ds);
    assert ds[0].sequence == ds[1].sequence && "a"[0] != "b"[0];
    ResponseCheckIsValidResponse(response, None);
    PossibleExactly(w, response, operation);
  }
}
