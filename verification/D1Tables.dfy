/** The tables of src/next/d1.ts:310-368 for one stream, with their constraints, and the batch that
    src/next/d1-correctness.ts guards. A decision row is a stored decision: the CHECK constraint on
    its columns is the difference between Accepted and Rejected. */
module D1Tables {
  import opened Protocol
  import opened Validators
  import opened LogServer

  datatype StreamRow = StreamRow(head: int, state: State)

  /** Each table is a map from its primary key; the stream has at most one row. */
  datatype Db = Db(stream: Option<StreamRow>, entries: map<int, Entry>, decisions: map<string, Stored>)

  datatype Statement =
    | InsertDecision(row: Stored)
    | InsertEntry(entry: Entry)
    | UpdateStream(previous: int, head: int, state: State)

  const EMPTY: Db := Db(None, map[], map[])

  /** UNIQUE (stream_id, client_id, client_sequence) on the decisions. */
  predicate SlotTaken(db: Db, slot: Position) {
    exists id :: id in db.decisions && SlotOfStored(db.decisions[id]) == slot
  }

  /** PRIMARY KEY and both UNIQUE constraints of the log entries. */
  predicate EntryClashes(db: Db, e: Entry) {
    || e.sequence in db.entries
    || exists n :: n in db.entries
         && (db.entries[n].operationId == e.operationId || PositionOf(db.entries[n]) == PositionOf(e))
  }

  /** What the statement writes when no constraint stops it. An update without a row changes nothing. */
  function Write(db: Db, s: Statement): Db {
    match s
    case InsertDecision(row) => db.(decisions := db.decisions[row.operationId := row])
    case InsertEntry(e) => db.(entries := db.entries[e.sequence := e])
    case UpdateStream(_, head, state) => if db.stream.None? then db else db.(stream := Some(StreamRow(head, state)))
  }

  /** The guarded update assigns NULL to a NOT NULL column when the head has moved. */
  predicate Violates(db: Db, s: Statement) {
    match s
    case InsertDecision(row) => row.operationId in db.decisions || SlotTaken(db, SlotOfStored(row))
    case InsertEntry(e) => EntryClashes(db, e)
    case UpdateStream(previous, _, _) => db.stream.Some? && db.stream.value.head != previous
  }

  function Exec(db: Db, s: Statement): Result<Db> {
    if Violates(db, s) then Err(CommitConflict) else Ok(Write(db, s))
  }

  function ExecBatch(db: Db, statements: seq<Statement>): Result<Db> {
    if statements == [] then Ok(db)
    else
      var before :- ExecBatch(db, statements[..|statements| - 1]);
      Exec(before, statements[|statements| - 1])
  }

  function WriteAll(db: Db, statements: seq<Statement>): Db {
    if statements == [] then db
    else Write(WriteAll(db, statements[..|statements| - 1]), statements[|statements| - 1])
  }

  lemma {:induction false} BatchWritesAll(db: Db, statements: seq<Statement>)
    requires ExecBatch(db, statements).Ok?
    ensures ExecBatch(db, statements).value == WriteAll(db, statements)
  {
    if statements != [] {
      BatchWritesAll(db, statements[..|statements| - 1]);
    }
  }

  lemma {:induction false} BatchStopsAtViolation(db: Db, statements: seq<Statement>, k: nat)
    requires k <= |statements| && ExecBatch(db, statements[..k]) == Err(CommitConflict)
    ensures ExecBatch(db, statements) == Err(CommitConflict)
  {
    if k < |statements| {
      assert statements[..|statements| - 1][..k] == statements[..k];
      BatchStopsAtViolation(db, statements[..|statements| - 1], k);
    } else {
      assert statements[..k] == statements;
    }
  }

  /* ---- The constraints ---- */

  /** Each row stands under its primary key, and no two rows share a unique key. */
  ghost predicate KeysAreUnique(db: Db) {
    && (forall n | n in db.entries :: db.entries[n].sequence == n)
    && (forall m, n | m in db.entries && n in db.entries && m != n ::
          db.entries[m].operationId != db.entries[n].operationId && PositionOf(db.entries[m]) != PositionOf(db.entries[n]))
    && (forall id | id in db.decisions :: db.decisions[id].operationId == id)
    && (forall i, j | i in db.decisions && j in db.decisions && i != j ::
          SlotOfStored(db.decisions[i]) != SlotOfStored(db.decisions[j]))
  }

  /** The statement would write over a row. */
  predicate Overwrites(db: Db, s: Statement) {
    match s
    case InsertDecision(row) => row.operationId in db.decisions
    case InsertEntry(e) => e.sequence in db.entries
    case UpdateStream(_, _, _) => false
  }

  /** An insert is refused exactly when it would write over a row or leave a unique key twice. */
  lemma RefusedExactlyOnSharedKey(db: Db, s: Statement)
    requires KeysAreUnique(db) && !s.UpdateStream?
    ensures Exec(db, s).Ok? <==> !Overwrites(db, s) && KeysAreUnique(Write(db, s))
  {
    var next := Write(db, s);
    match s
    case InsertDecision(row) =>
      assert row.operationId in next.decisions;
      if SlotTaken(db, SlotOfStored(row)) && row.operationId !in db.decisions {
        var id :| id in db.decisions && SlotOfStored(db.decisions[id]) == SlotOfStored(row);
        assert next.decisions[id] == db.decisions[id];
      }
    case InsertEntry(e) =>
      assert e.sequence in next.entries;
      if EntryClashes(db, e) && e.sequence !in db.entries {
        var n :| n in db.entries
          && (db.entries[n].operationId == e.operationId || PositionOf(db.entries[n]) == PositionOf(e));
        assert next.entries[n] == db.entries[n];
      }
  }

  /** Whatever the statements are, a batch that commits leaves every key unique. */
  lemma {:induction false} BatchKeepsKeys(db: Db, statements: seq<Statement>)
    requires KeysAreUnique(db) && ExecBatch(db, statements).Ok?
    ensures KeysAreUnique(ExecBatch(db, statements).value)
  {
    if statements != [] {
      var init, last := statements[..|statements| - 1], statements[|statements| - 1];
      BatchKeepsKeys(db, init);
      if !last.UpdateStream? {
        hide KeysAreUnique;
        RefusedExactlyOnSharedKey(ExecBatch(db, init).value, last);
      }
    }
  }

  /** A database connection; Batch is one transaction. */
  class D1Database {
    var stream: Option<StreamRow>
    var entries: map<int, Entry>
    var decisions: map<string, Stored>

    constructor ()
      ensures Value() == EMPTY
    {
      stream, entries, decisions := None, map[], map[];
    }

    function Value(): Db
      reads this
    {
      Db(stream, entries, decisions)
    }

    /** Statements run in place, one after another; the first violation rolls everything back. */
    method Batch(statements: seq<Statement>) returns (r: Outcome)
      modifies this
      ensures match ExecBatch(old(Value()), statements)
        case Ok(db) => r == Pass && Value() == db
        case Err(_) => r == Fail(CommitConflict) && Value() == old(Value())
    {
      ghost var before := Value();
      var oldStream, oldEntries, oldDecisions := stream, entries, decisions;
      var k := 0;
      while k < |statements|
        invariant 0 <= k <= |statements|
        invariant ExecBatch(before, statements[..k]) == Ok(Value())
        invariant Db(oldStream, oldEntries, oldDecisions) == before
      {
        assert statements[..k + 1][..k] == statements[..k];
        if Violates(Value(), statements[k]) {
          BatchStopsAtViolation(before, statements, k + 1);
          stream, entries, decisions := oldStream, oldEntries, oldDecisions;
          return Fail(CommitConflict);
        }
        match statements[k] {
          case InsertDecision(row) => decisions := decisions[row.operationId := row];
          case InsertEntry(e) => entries := entries[e.sequence := e];
          case UpdateStream(_, head, state) =>
            if stream.Some? {
              stream := Some(StreamRow(head, state));
            }
        }
        k := k + 1;
      }
      assert statements[..k] == statements;
      return Pass;
    }

    /** INSERT OR IGNORE of the stream row. */
    method EnsureStream(initial: State)
      modifies this`stream
      ensures Value() == WithStream(old(Value()), initial)
    {
      if stream.None? {
        stream := Some(StreamRow(0, initial));
      }
    }
  }

  function WithStream(db: Db, initial: State): Db {
    if db.stream.None? then db.(stream := Some(StreamRow(0, initial))) else db
  }

  /** The entries after base and up to head, in sequence order, at most maximum of them. */
  function SelectPage(db: Db, base: int, head: int, maximum: int): seq<Entry>
    decreases head - base
  {
    if base >= head || maximum <= 0 then []
    else if base + 1 in db.entries then [db.entries[base + 1]] + SelectPage(db, base + 1, head, maximum - 1)
    else SelectPage(db, base + 1, head, maximum)
  }

  /* ---- What the tables stand for ---- */

  ghost predicate HoldsRows(db: Db, a: Authority) {
    && (forall n :: n in db.entries <==> 1 <= n <= |a.log|)
    && (forall n | 1 <= n <= |a.log| :: db.entries[n] == a.log[n - 1])
    && db.decisions == a.decisions
  }

  /** The tables hold the authority a. */
  ghost predicate Holds(w: World, db: Db, a: Authority) {
    && (db.stream.None? ==> a == Initial(w))
    && (db.stream.Some? ==> db.stream.value == StreamRow(|a.log|, a.state))
    && HoldsRows(db, a)
  }

  lemma {:induction false} PageIsSlice(w: World, db: Db, a: Authority, base: int, head: int, maximum: int)
    requires Holds(w, db, a) && 0 <= base <= head <= |a.log| && 0 <= maximum
    ensures SelectPage(db, base, head, maximum) == a.log[base..Min(base + maximum, head)]
    decreases head - base
  {
    if base < head && maximum > 0 {
      PageIsSlice(w, db, a, base + 1, head, maximum - 1);
    }
  }

  lemma SlotTakenIsPosition(w: World, db: Db, a: Authority, slot: Position)
    requires Holds(w, db, a) && DecisionsCoherent(a) && PositionsCoherent(a)
    ensures SlotTaken(db, slot) <==> slot in a.positions
    ensures slot in a.positions ==> exists id :: id in db.decisions && SlotOfStored(db.decisions[id]) == slot && a.positions[slot] == id
  {
    if SlotTaken(db, slot) {
      var id :| id in db.decisions && SlotOfStored(db.decisions[id]) == slot;
      assert StoredCoherent(a, id);
    }
    if slot in a.positions {
      assert a.positions[slot] in a.decisions;
    }
  }
}
