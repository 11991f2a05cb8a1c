/** The row modules under src/client/row: operations on rows. Values from outside are JSON values; a
    row or a key is the list of an object's fields. None stands for a thrown RowOperationError. */
module Rows {
  import opened Protocol
  import opened CanonicalJson
  import opened JsonObjects

  datatype Affinity = Integer | Real | TextAffinity | Blob | Numeric

  datatype Column = Column(affinity: Affinity, nullable: bool, generated: bool)
  datatype NamedColumn = NamedColumn(name: Text, column: Column)
  datatype Table = Table(primaryKey: seq<Text>, columns: seq<NamedColumn>)
  datatype Schema = Schema(schemaHash: Text, tables: map<Text, Table>)

  type Row = seq<Field>

  datatype RowOperation =
    | PutRow(table: Text, row: Row)
    | DeleteRow(table: Text, key: Row)

  datatype Database = Database(schemaHash: Text, tables: map<Text, map<Text, Row>>)

  const TYPE: Text := [0x74, 0x79, 0x70, 0x65]
  const TABLE: Text := [0x74, 0x61, 0x62, 0x6C, 0x65]
  const ROW: Text := [0x72, 0x6F, 0x77]
  const KEY: Text := [0x6B, 0x65, 0x79]
  const PUT_ROW: Text := [0x70, 0x75, 0x74, 0x52, 0x6F, 0x77]
  const DELETE_ROW: Text := [0x64, 0x65, 0x6C, 0x65, 0x74, 0x65, 0x52, 0x6F, 0x77]

  /* ---- Columns ---- */

  function FindColumn(columns: seq<NamedColumn>, name: Text): Option<Column> {
    if columns == [] then None
    else if columns[0].name == name then Some(columns[0].column)
    else FindColumn(columns[1..], name)
  }

  predicate DistinctNames(columns: seq<NamedColumn>) {
    forall i, j | 0 <= i < j < |columns| :: columns[i].name != columns[j].name
  }

  predicate DistinctTexts(xs: seq<Text>) {
    forall i, j | 0 <= i < j < |xs| :: xs[i] != xs[j]
  }

  lemma {:induction false} FindColumnAt(columns: seq<NamedColumn>, i: nat)
    requires DistinctNames(columns) && i < |columns|
    ensures FindColumn(columns, columns[i].name) == Some(columns[i].column)
  {
    if i > 0 {
      FindColumnAt(columns[1..], i - 1);
    }
  }

  lemma {:induction false} FindColumnFound(columns: seq<NamedColumn>, name: Text) returns (i: nat)
    requires FindColumn(columns, name).Some?
    ensures i < |columns| && columns[i] == NamedColumn(name, FindColumn(columns, name).value)
  {
    if columns[0].name == name {
      i := 0;
    } else {
      var k := FindColumnFound(columns[1..], name);
      i := k + 1;
    }
  }

  /* ---- Normalisation ---- */

  predicate IsByte(j: Json) { j.Num? && 0 <= j.number <= 255 }

  /** normalizeColumnValue returns the value itself, or throws. */
  predicate Fits(column: Column, value: Json) {
    if value.Null? then column.nullable
    else
      match column.affinity
      case Integer => value.Num?
      case Real => value.Num?
      case TextAffinity => value.Str?
      case Blob => value.Arr? && forall i | 0 <= i < |value.items| :: IsByte(value.items[i])
      case Numeric => value.Num? || value.Str?
  }

  /** What a full row says of one column: its value, or null when it may be missing. */
  predicate AcceptsColumn(c: NamedColumn, fields: Row) {
    match Lookup(fields, c.name)
    case None => c.column.nullable
    case Some(value) => Fits(c.column, value)
  }

  function ColumnValue(c: NamedColumn, fields: Row): Json {
    match Lookup(fields, c.name) case None => Null case Some(value) => value
  }

  predicate NoUnknownColumns(table: Table, fields: Row) {
    forall i | 0 <= i < |fields| :: FindColumn(table.columns, fields[i].key).Some?
  }

  function FullRow(table: Table, fields: Row): (row: Row)
    ensures |row| == |table.columns|
    ensures forall i | 0 <= i < |row| :: row[i] == Field(table.columns[i].name, ColumnValue(table.columns[i], fields))
  {
    seq(|table.columns|, i requires 0 <= i < |table.columns| =>
      Field(table.columns[i].name, ColumnValue(table.columns[i], fields)))
  }

  function NormalizeFullRow(table: Table, value: Json): Option<Row> {
    if !value.Obj? then None
    else if !NoUnknownColumns(table, value.fields) then None
    else if forall i | 0 <= i < |table.columns| :: AcceptsColumn(table.columns[i], value.fields) then
      Some(FullRow(table, value.fields))
    else None
  }

  function KeysOf(fields: Row): (keys: seq<Text>)
    ensures |keys| == |fields| && forall i | 0 <= i < |keys| :: keys[i] == fields[i].key
  {
    seq(|fields|, i requires 0 <= i < |fields| => fields[i].key)
  }

  /** A key column is a column, and its value is there, not null, and fits. */
  predicate AcceptsKey(table: Table, fields: Row, name: Text) {
    && FindColumn(table.columns, name).Some?
    && Lookup(fields, name).Some?
    && Lookup(fields, name).value != Null
    && Fits(FindColumn(table.columns, name).value.(nullable := false), Lookup(fields, name).value)
  }

  /** Assignment to a property: a new one goes to the end, an old one keeps its place. */
  function Assign(fields: Row, key: Text, value: Json): Row {
    if fields == [] then [Field(key, value)]
    else if fields[0].key == key then [Field(key, value)] + fields[1..]
    else [fields[0]] + Assign(fields[1..], key, value)
  }

  /** The object that a loop over the names builds by assignment: one field for each different name. */
  function Select(names: seq<Text>, fields: Row): Row
    requires forall i | 0 <= i < |names| :: Lookup(fields, names[i]).Some?
  {
    if names == [] then []
    else
      var last := names[|names| - 1];
      Assign(Select(names[..|names| - 1], fields), last, Lookup(fields, last).value)
  }

  function NormalizePrimaryKey(table: Table, value: Json): Option<Row> {
    if !value.Obj? then None
    else if multiset(KeysOf(value.fields)) != multiset(table.primaryKey) then None
    else if forall i | 0 <= i < |table.primaryKey| :: AcceptsKey(table, value.fields, table.primaryKey[i]) then
      Some(Select(table.primaryKey, value.fields))
    else None
  }

  /** What String.prototype.trim removes. */
  predicate IsSpace(u: Unit) {
    || 9 <= u <= 13
    || u in {0x20, 0xA0, 0x1680, 0x2028, 0x2029, 0x202F, 0x205F, 0x3000, 0xFEFF}
    || 0x2000 <= u <= 0x200A
  }

  predicate IsBlank(text: Text) { forall i | 0 <= i < |text| :: IsSpace(text[i]) }

  function Normalize(schema: Schema, operation: Json): Option<RowOperation> {
    if !operation.Obj? then None
    else
      match Lookup(operation.fields, TABLE)
      case Some(Str(name)) =>
        if IsBlank(name) || name !in schema.tables then None
        else
          var table := schema.tables[name];
          (match Lookup(operation.fields, TYPE)
           case Some(Str(kind)) =>
             if kind == PUT_ROW then
               (match Lookup(operation.fields, ROW)
                case None => None
                case Some(value) =>
                  match NormalizeFullRow(table, value) case None => None case Some(row) => Some(PutRow(name, row)))
             else if kind == DELETE_ROW then
               (match Lookup(operation.fields, KEY)
                case None => None
                case Some(value) =>
                  match NormalizePrimaryKey(table, value) case None => None case Some(key) => Some(DeleteRow(name, key)))
             else None
           case _ => None)
      case _ => None
  }

  function ToJson(op: RowOperation): Json {
    match op
    case PutRow(table, row) => Obj([Field(TYPE, Str(PUT_ROW)), Field(TABLE, Str(table)), Field(ROW, Obj(row))])
    case DeleteRow(table, key) => Obj([Field(TYPE, Str(DELETE_ROW)), Field(TABLE, Str(table)), Field(KEY, Obj(key))])
  }

  /** The loop over the columns of a table. */
  method NormalizeFullRowLoop(table: Table, value: Json) returns (r: Option<Row>)
    ensures r == NormalizeFullRow(table, value)
  {
    if !value.Obj? || !NoUnknownColumns(table, value.fields) {
      return None;
    }
    var row: Row := [];
    var i := 0;
    while i < |table.columns|
      invariant 0 <= i <= |table.columns| && |row| == i
      invariant forall k | 0 <= k < i :: AcceptsColumn(table.columns[k], value.fields)
      invariant forall k | 0 <= k < i :: row[k] == Field(table.columns[k].name, ColumnValue(table.columns[k], value.fields))
    {
      var c := table.columns[i];
      var candidate := Lookup(value.fields, c.name);
      if candidate.None? {
        if !c.column.nullable {
          return None;
        }
        row := row + [Field(c.name, Null)];
      } else {
        if !Fits(c.column, candidate.value) {
          return None;
        }
        row := row + [Field(c.name, candidate.value)];
      }
      i := i + 1;
    }
    assert row == FullRow(table, value.fields);
    return Some(row);
  }

  /** The loop over the key columns of a table. */
  method NormalizePrimaryKeyLoop(table: Table, value: Json) returns (r: Option<Row>)
    ensures r == NormalizePrimaryKey(table, value)
  {
    if !value.Obj? || multiset(KeysOf(value.fields)) != multiset(table.primaryKey) {
      return None;
    }
    var key: Row := [];
    var i := 0;
    while i < |table.primaryKey|
      invariant 0 <= i <= |table.primaryKey|
      invariant forall k | 0 <= k < i :: AcceptsKey(table, value.fields, table.primaryKey[k])
      invariant key == Select(table.primaryKey[..i], value.fields)
    {
      var name := table.primaryKey[i];
      var column := FindColumn(table.columns, name);
      if column.None? {
        return None;
      }
      var candidate := Lookup(value.fields, name);
      if candidate.None? || candidate.value.Null? || !Fits(column.value.(nullable := false), candidate.value) {
        return None;
      }
      assert table.primaryKey[..i + 1][..i] == table.primaryKey[..i];
      key := Assign(key, name, candidate.value);
      i := i + 1;
    }
    assert table.primaryKey[..i] == table.primaryKey;
    return Some(key);
  }

  /* ---- Keys and state ---- */

  function KeyFromRow(table: Table, row: Row): Option<Row> {
    if forall i | 0 <= i < |table.primaryKey| :: Lookup(row, table.primaryKey[i]).Some? then
      Some(Select(table.primaryKey, row))
    else None
  }

  /** The values under the names, in the order of the names, a repeated name twice. */
  function ValuesOf(names: seq<Text>, fields: Row): (values: seq<Json>)
    requires forall i | 0 <= i < |names| :: Lookup(fields, names[i]).Some?
    ensures |values| == |names| && forall i | 0 <= i < |names| :: values[i] == Lookup(fields, names[i]).value
  {
    seq(|names|, i requires 0 <= i < |names| => Lookup(fields, names[i]).value)
  }

  lemma {:induction false} AssignedLookup(fields: Row, key: Text, value: Json)
    ensures forall other :: Lookup(Assign(fields, key, value), other) == if other == key then Some(value) else Lookup(fields, other)
  {
    if fields != [] {
      AssignedLookup(fields[1..], key, value);
    }
  }

  lemma {:induction false} SelectedLookup(names: seq<Text>, fields: Row)
    requires forall i | 0 <= i < |names| :: Lookup(fields, names[i]).Some?
    ensures forall name :: Lookup(Select(names, fields), name) == if name in names then Lookup(fields, name) else None
  {
    if names != [] {
      var init, last := names[..|names| - 1], names[|names| - 1];
      assert names == init + [last];
      SelectedLookup(init, fields);
      AssignedLookup(Select(init, fields), last, Lookup(fields, last).value);
    }
  }

  function EncodePrimaryKey(table: Table, key: Row): Option<Text> {
    match NormalizePrimaryKey(table, Obj(key))
    case None => None
    case Some(normalized) =>
      SelectedLookup(table.primaryKey, key);
      Some(Canon(Arr(ValuesOf(table.primaryKey, normalized))))
  }

  function EncodeRowPrimaryKey(table: Table, row: Row): Option<Text> {
    match KeyFromRow(table, row)
    case None => None
    case Some(key) => EncodePrimaryKey(table, key)
  }

  /** The text under which an operation files its row, or deletes one. */
  function KeyText(table: Table, op: RowOperation): Option<Text> {
    match op
    case PutRow(_, row) => EncodeRowPrimaryKey(table, row)
    case DeleteRow(_, key) => EncodePrimaryKey(table, key)
  }

  function TableRows(state: Database, name: Text): map<Text, Row> {
    if name in state.tables then state.tables[name] else map[]
  }

  function RowAt(state: Database, name: Text, key: Text): Option<Row> {
    if key in TableRows(state, name) then Some(TableRows(state, name)[key]) else None
  }

  function Apply(schema: Schema, state: Database, input: Json): Option<Database> {
    if state.schemaHash != schema.schemaHash then None
    else
      match Normalize(schema, input)
      case None => None
      case Some(op) =>
        match KeyText(schema.tables[op.table], op)
        case None => None
        case Some(key) =>
          var rows := TableRows(state, op.table);
          var next := if op.PutRow? then rows[key := op.row] else rows - {key};
          Some(state.(tables := state.tables[op.table := next]))
  }

  /** The loop that copies the key columns out of a row. */
  method KeyFromRowLoop(table: Table, row: Row) returns (r: Option<Row>)
    ensures r == KeyFromRow(table, row)
  {
    var key: Row := [];
    var i := 0;
    while i < |table.primaryKey|
      invariant 0 <= i <= |table.primaryKey|
      invariant forall k | 0 <= k < i :: Lookup(row, table.primaryKey[k]).Some?
      invariant key == Select(table.primaryKey[..i], row)
    {
      var value := Lookup(row, table.primaryKey[i]);
      if value.None? {
        return None;
      }
      assert table.primaryKey[..i + 1][..i] == table.primaryKey[..i];
      key := Assign(key, table.primaryKey[i], value.value);
      i := i + 1;
    }
    assert table.primaryKey[..i] == table.primaryKey;
    return Some(key);
  }

  /** The state after differs in the one row that the operation names: a put has filed its row there,
      a delete has left none. */
  ghost predicate ChangesOneRow(schema: Schema, state: Database, input: Json, next: Database) {
    && Normalize(schema, input).Some?
    && var op := Normalize(schema, input).value;
    && op.table in schema.tables && KeyText(schema.tables[op.table], op).Some?
    && next.schemaHash == state.schemaHash
    && forall name, key ::
         (RowAt(next, name, key) ==
           if name == op.table && KeyText(schema.tables[op.table], op) == Some(key) then
             (if op.PutRow? then Some(op.row) else None)
           else RowAt(state, name, key))
  }

  /** applyRowOperation: assigns to, or deletes from, a fresh copy of one table. */
  method ApplyRowOperation(schema: Schema, state: Database, input: Json) returns (r: Option<Database>)
    ensures r == Apply(schema, state, input)
    ensures r.Some? ==> ChangesOneRow(schema, state, input, r.value)
  {
    hide Normalize, EncodePrimaryKey, EncodeRowPrimaryKey;
    if state.schemaHash != schema.schemaHash {
      return None;
    }
    var operation := Normalize(schema, input);
    if operation.None? {
      return None;
    }
    var op := operation.value;
    NormalTable(schema, input);
    var nextTable := TableRows(state, op.table);
    match op {
      case PutRow(name, row) =>
        var key := EncodeRowPrimaryKey(schema.tables[name], row);
        if key.None? {
          return None;
        }
        nextTable := nextTable[key.value := row];
      case DeleteRow(name, primaryKey) =>
        var key := EncodePrimaryKey(schema.tables[name], primaryKey);
        if key.None? {
          return None;
        }
        nextTable := nextTable - {key.value};
    }
    return Some(Database(state.schemaHash, state.tables[op.table := nextTable]));
  }

  lemma NormalTable(schema: Schema, input: Json)
    ensures Normalize(schema, input).Some? ==> Normalize(schema, input).value.table in schema.tables
  {
  }

  function Initial(schema: Schema): Database {
    Database(schema.schemaHash, map name | name in schema.tables :: map[])
  }

  /* ---- Schemas ---- */

  /** What assertRowReplicationSchema accepts; the columns are an object's, so their names differ. */
  predicate WellFormed(schema: Schema) {
    forall name | name in schema.tables :: WellFormedTable(schema.tables[name])
  }

  predicate WellFormedTable(table: Table) {
    && table.primaryKey != []
    && DistinctNames(table.columns)
    && (forall i | 0 <= i < |table.primaryKey| :: FindColumn(table.columns, table.primaryKey[i]).Some?)
    && (forall i | 0 <= i < |table.columns| :: !table.columns[i].column.generated)
  }

  /** Key columns may not be null. */
  predicate KeysAreRequired(table: Table) {
    forall i | 0 <= i < |table.primaryKey| && FindColumn(table.columns, table.primaryKey[i]).Some? ::
      !FindColumn(table.columns, table.primaryKey[i]).value.nullable
  }
}
