/** src/client/row/normalization.ts: which rows, keys and operations are accepted, said column by
    column, and what is then stored. */
module RowTypes {
  import opened Protocol
  import opened CanonicalJson
  import opened JsonObjects
  import opened JsonText
  import opened Rows
  import opened RowLaws

  /* ---- Rows ---- */

  /** The value may stand in the column: null under nullable columns only, and otherwise a number, a
      string, a list of bytes, or either a number or a string, as the column's affinity has it. */
  predicate Typed(column: Column, value: Json) {
    && (value == Null ==> column.nullable)
    && (value != Null ==>
          && (column.affinity in {Integer, Real} ==> value.Num?)
          && (column.affinity == TextAffinity ==> value.Str?)
          && (column.affinity == Blob ==> value.Arr?)
          && (column.affinity == Blob ==> forall byte | byte in value.items :: byte.Num? && 0 <= byte.number < 0x100)
          && (column.affinity == Numeric ==> value.Num? || value.Str?))
  }

  predicate IsColumn(table: Table, name: Text) { exists i :: 0 <= i < |table.columns| && table.columns[i].name == name }

  predicate HasField(fields: Row, name: Text) { exists i :: 0 <= i < |fields| && fields[i].key == name }

  lemma TypedIsFitting(column: Column, value: Json)
    ensures Fits(column, value) <==> Typed(column, value)
  {
    if value.Arr? && column.affinity == Blob {
      assert forall i | 0 <= i < |value.items| :: value.items[i] in value.items;
    }
  }

  lemma {:induction false} FoundIsColumn(columns: seq<NamedColumn>, name: Text)
    ensures FindColumn(columns, name).Some? <==> exists i :: 0 <= i < |columns| && columns[i].name == name
  {
    if columns != [] {
      FoundIsColumn(columns[1..], name);
      if columns[0].name != name && FindColumn(columns, name).Some? {
        var i :| 0 <= i < |columns[1..]| && columns[1..][i].name == name;
        assert columns[i + 1].name == name;
      }
      if columns[0].name != name && exists i :: 0 <= i < |columns| && columns[i].name == name {
        var i :| 0 <= i < |columns| && columns[i].name == name;
        assert columns[1..][i - 1].name == name;
      }
    }
  }

  /** No field without a column; no column without a field, unless it is nullable; and under each
      column a value of its type. */
  ghost predicate DescribesRow(table: Table, fields: Row) {
    && (forall j | 0 <= j < |fields| :: IsColumn(table, fields[j].key))
    && (forall i | 0 <= i < |table.columns| && !HasField(fields, table.columns[i].name) :: table.columns[i].column.nullable)
    && (forall i, j | 0 <= i < |table.columns| && 0 <= j < |fields| && fields[j].key == table.columns[i].name ::
          Typed(table.columns[i].column, fields[j].value))
  }

  /** A row that lists the columns in order, each with the value given for it, or null. */
  ghost predicate ListsColumns(table: Table, fields: Row, row: Row) {
    && |row| == |table.columns|
    && (forall i | 0 <= i < |row| :: row[i].key == table.columns[i].name)
    && (forall i, j | 0 <= i < |row| && 0 <= j < |fields| && fields[j].key == row[i].key :: row[i].value == fields[j].value)
    && (forall i | 0 <= i < |row| && !HasField(fields, row[i].key) :: row[i].value == Null)
  }

  lemma LookupIsField(fields: Row, name: Text)
    requires DistinctKeys(fields)
    ensures Lookup(fields, name).Some? <==> HasField(fields, name)
    ensures forall j | 0 <= j < |fields| && fields[j].key == name :: Lookup(fields, name) == Some(fields[j].value)
  {
    LookupFound(fields, name);
    forall j | 0 <= j < |fields| && fields[j].key == name ensures Lookup(fields, name) == Some(fields[j].value) {
      LookupAt(fields, j);
    }
  }

  lemma ColumnAccepted(c: NamedColumn, fields: Row)
    requires DistinctKeys(fields)
    ensures AcceptsColumn(c, fields) <==>
      && (!HasField(fields, c.name) ==> c.column.nullable)
      && (forall j | 0 <= j < |fields| && fields[j].key == c.name :: Typed(c.column, fields[j].value))
    ensures !HasField(fields, c.name) ==> ColumnValue(c, fields) == Null
    ensures forall j | 0 <= j < |fields| && fields[j].key == c.name :: ColumnValue(c, fields) == fields[j].value
  {
    hide Fits, Typed;
    LookupIsField(fields, c.name);
    forall j | 0 <= j < |fields| ensures Fits(c.column, fields[j].value) <==> Typed(c.column, fields[j].value) {
      TypedIsFitting(c.column, fields[j].value);
    }
  }

  /** A value is accepted as a full row exactly when it is an object that describes a row of the table;
      what is then stored is that row. */
  lemma FullRowAcceptedExactly(table: Table, value: Json)
    requires value.Obj? ==> DistinctKeys(value.fields)
    ensures NormalizeFullRow(table, value).Some? <==> value.Obj? && DescribesRow(table, value.fields)
    ensures NormalizeFullRow(table, value).Some? ==>
      ListsColumns(table, value.fields, NormalizeFullRow(table, value).value)
  {
    if value.Obj? {
      var fields := value.fields;
      hide AcceptsColumn, Typed, HasField, ColumnValue;
      forall j | 0 <= j < |fields| ensures FindColumn(table.columns, fields[j].key).Some? <==> IsColumn(table, fields[j].key) {
        FoundIsColumn(table.columns, fields[j].key);
      }
      forall i | 0 <= i < |table.columns|
        ensures var c := table.columns[i];
          && (AcceptsColumn(c, fields) <==>
                && (!HasField(fields, c.name) ==> c.column.nullable)
                && (forall j | 0 <= j < |fields| && fields[j].key == c.name :: Typed(c.column, fields[j].value)))
          && (!HasField(fields, c.name) ==> ColumnValue(c, fields) == Null)
          && (forall j | 0 <= j < |fields| && fields[j].key == c.name :: ColumnValue(c, fields) == fields[j].value)
      {
        ColumnAccepted(table.columns[i], fields);
      }
    }
  }

  /** A stored row: the columns in order, each with a value of its type. */
  ghost predicate TypedRow(table: Table, row: Row) {
    && |row| == |table.columns|
    && forall i | 0 <= i < |row| ::
         row[i].key == table.columns[i].name && Typed(table.columns[i].column, row[i].value)
  }

  lemma AcceptedRowIsTyped(table: Table, value: Json)
    requires value.Obj? ==> DistinctKeys(value.fields)
    ensures NormalizeFullRow(table, value).Some? ==> TypedRow(table, NormalizeFullRow(table, value).value)
  {
    FullRowAcceptedExactly(table, value);
    if NormalizeFullRow(table, value).Some? {
      var row := NormalizeFullRow(table, value).value;
      hide NormalizeFullRow;
      forall i | 0 <= i < |row| ensures Typed(table.columns[i].column, row[i].value) {
        if HasField(value.fields, row[i].key) {
          var j :| 0 <= j < |value.fields| && value.fields[j].key == row[i].key;
        }
      }
    }
  }

  /* ---- Keys ---- */

  /** The column of that name, if there is one, may hold the value. */
  ghost predicate HasColumnFor(table: Table, field: Field) {
    exists i :: 0 <= i < |table.columns| && table.columns[i].name == field.key && Typed(table.columns[i].column, field.value)
  }

  /** The fields are the key columns, each once and none else; no value is null, and each is of its
      column's type. */
  ghost predicate DescribesKey(table: Table, fields: Row) {
    && DistinctTexts(table.primaryKey)
    && (forall i | 0 <= i < |table.primaryKey| :: HasField(fields, table.primaryKey[i]))
    && (forall j | 0 <= j < |fields| ::
          fields[j].key in table.primaryKey && fields[j].value != Null && HasColumnFor(table, fields[j]))
  }

  /** The key columns in the order of the table's key, each with the value given for it. */
  ghost predicate ListsKey(table: Table, fields: Row, key: Row) {
    && |key| == |table.primaryKey|
    && (forall i | 0 <= i < |key| :: key[i].key == table.primaryKey[i] && key[i] in fields)
  }

  lemma SameNames(names: seq<Text>, fields: Row)
    requires DistinctKeys(fields)
    ensures multiset(KeysOf(fields)) == multiset(names) <==>
      && DistinctTexts(names)
      && (forall i | 0 <= i < |names| :: HasField(fields, names[i]))
      && (forall j | 0 <= j < |fields| :: fields[j].key in names)
  {
    var keys := KeysOf(fields);
    DistinctKeysAreTexts(fields);
    DistinctIsCounted(keys);
    DistinctIsCounted(names);
    if multiset(keys) == multiset(names) {
      forall i | 0 <= i < |names| ensures HasField(fields, names[i]) {
        assert names[i] in multiset(names) && names[i] in keys;
      }
      forall j | 0 <= j < |fields| ensures fields[j].key in names {
        assert keys[j] in multiset(keys);
      }
    }
    if DistinctTexts(names) && (forall i | 0 <= i < |names| :: HasField(fields, names[i]))
       && (forall j | 0 <= j < |fields| :: fields[j].key in names) {
      forall t ensures multiset(keys)[t] == multiset(names)[t] {
        if t in names {
          var i :| 0 <= i < |names| && names[i] == t;
          assert HasField(fields, names[i]);
          var j :| 0 <= j < |fields| && fields[j].key == t;
          assert keys[j] in multiset(keys);
        } else {
          assert t !in keys;
        }
      }
    }
  }

  lemma KeyFieldAccepted(table: Table, fields: Row, j: nat)
    requires DistinctKeys(fields) && DistinctNames(table.columns) && j < |fields|
    ensures AcceptsKey(table, fields, fields[j].key) <==> fields[j].value != Null && HasColumnFor(table, fields[j])
  {
    hide Fits, Typed;
    var name, value := fields[j].key, fields[j].value;
    LookupAt(fields, j);
    FoundIsColumn(table.columns, name);
    if FindColumn(table.columns, name).Some? {
      var i := FindColumnFound(table.columns, name);
      var column := table.columns[i].column;
      TypedIsFitting(column.(nullable := false), value);
      NotNullAnyway(column, value);
      forall k | 0 <= k < |table.columns| && table.columns[k].name == name ensures k == i {
      }
    }
  }

  lemma NotNullAnyway(column: Column, value: Json)
    ensures value != Null ==> (Typed(column.(nullable := false), value) <==> Typed(column, value))
  {
  }

  /** A value is accepted as a key exactly when it is an object that describes a key of the table; what
      is then kept is that key. */
  lemma KeyAcceptedExactly(table: Table, value: Json)
    requires WellFormedTable(table) && (value.Obj? ==> DistinctKeys(value.fields))
    ensures NormalizePrimaryKey(table, value).Some? <==> value.Obj? && DescribesKey(table, value.fields)
    ensures NormalizePrimaryKey(table, value).Some? ==>
      ListsKey(table, value.fields, NormalizePrimaryKey(table, value).value)
  {
    hide *;
    ObjectsOnly(table, value);
    if value.Obj? {
      AcceptedIsDescribed(table, value.fields);
      if NormalizePrimaryKey(table, value).Some? {
        KeyIsListed(table, value.fields);
      }
    }
  }

  lemma AcceptedIsDescribed(table: Table, fields: Row)
    requires WellFormedTable(table) && DistinctKeys(fields)
    ensures NormalizePrimaryKey(table, Obj(fields)).Some? <==> DescribesKey(table, fields)
  {
    SameNames(table.primaryKey, fields);
    hide AcceptsKey, HasColumnFor, HasField, DistinctTexts, DistinctKeys;
    forall j | 0 <= j < |fields|
      ensures AcceptsKey(table, fields, fields[j].key) <==> fields[j].value != Null && HasColumnFor(table, fields[j])
    {
      KeyFieldAccepted(table, fields, j);
    }
    if multiset(KeysOf(fields)) == multiset(table.primaryKey) {
      KeysAreFields(table, fields);
    }
  }

  lemma KeysAreFields(table: Table, fields: Row)
    requires DistinctKeys(fields) && multiset(KeysOf(fields)) == multiset(table.primaryKey)
    ensures (forall i | 0 <= i < |table.primaryKey| :: AcceptsKey(table, fields, table.primaryKey[i]))
       <==> (forall j | 0 <= j < |fields| :: AcceptsKey(table, fields, fields[j].key))
  {
    hide AcceptsKey;
    SameNames(table.primaryKey, fields);
    if forall j | 0 <= j < |fields| :: AcceptsKey(table, fields, fields[j].key) {
      forall i | 0 <= i < |table.primaryKey| ensures AcceptsKey(table, fields, table.primaryKey[i]) {
        assert HasField(fields, table.primaryKey[i]);
        var j :| 0 <= j < |fields| && fields[j].key == table.primaryKey[i];
      }
    }
  }

  lemma KeyIsListed(table: Table, fields: Row)
    requires DistinctKeys(fields) && NormalizePrimaryKey(table, Obj(fields)).Some?
    ensures ListsKey(table, fields, NormalizePrimaryKey(table, Obj(fields)).value)
  {
    KeyOfObject(table, fields);
    var key := NormalizePrimaryKey(table, Obj(fields)).value;
    hide NormalizePrimaryKey, AcceptsKey;
    forall i | 0 <= i < |key| ensures key[i].key == table.primaryKey[i] && key[i] in fields {
      assert AcceptsKey(table, fields, table.primaryKey[i]);
      LookupFound(fields, table.primaryKey[i]);
    }
  }

  /* ---- Operations ---- */

  /** The value is the object of an operation on a known table: to put a row that it describes, or to
      delete under a key that it describes. */
  ghost predicate DescribesOperation(schema: Schema, value: Json) {
    && value.Obj?
    && Lookup(value.fields, Utf16("table")).Some? && Lookup(value.fields, Utf16("table")).value.Str?
    && Lookup(value.fields, Utf16("type")).Some? && Lookup(value.fields, Utf16("type")).value.Str?
    && var name, kind := Lookup(value.fields, Utf16("table")).value.text, Lookup(value.fields, Utf16("type")).value.text;
    && name in schema.tables && (exists i :: 0 <= i < |name| && !IsSpace(name[i]))
    && ((kind == Utf16("putRow") && DescribesMember(schema, value, name, "row"))
        || (kind == Utf16("deleteRow") && DescribesMember(schema, value, name, "key")))
  }

  ghost predicate DescribesMember(schema: Schema, value: Json, name: Text, member: string)
    requires value.Obj? && name in schema.tables
  {
    && Lookup(value.fields, Utf16(member)).Some? && Lookup(value.fields, Utf16(member)).value.Obj?
    && var fields := Lookup(value.fields, Utf16(member)).value.fields;
    if member == "row" then DescribesRow(schema.tables[name], fields) else DescribesKey(schema.tables[name], fields)
  }

  lemma WordsOfRows()
    ensures TYPE == Utf16("type") && TABLE == Utf16("table") && ROW == Utf16("row") && KEY == Utf16("key")
    ensures PUT_ROW == Utf16("putRow") && DELETE_ROW == Utf16("deleteRow")
  {
    hide Utf16;
    WordIs("type", TYPE);
    WordIs("table", TABLE);
    WordIs("row", ROW);
    WordIs("key", KEY);
    WordIs("putRow", PUT_ROW);
    WordIs("deleteRow", DELETE_ROW);
  }

  /** The white space and line terminators of ECMA-262. */
  const WHITE_SPACE: string :=
    "\t\n\U{B}\U{C}\r \U{A0}\U{1680}\U{2000}\U{2001}\U{2002}\U{2003}\U{2004}\U{2005}\U{2006}\U{2007}\U{2008}\U{2009}\U{200A}\U{2028}\U{2029}\U{202F}\U{205F}\U{3000}\U{FEFF}"

  lemma SpacesAreWhite(u: Unit)
    ensures IsSpace(u) <==> exists i :: 0 <= i < |WHITE_SPACE| && WHITE_SPACE[i] as int == u
  {
    var s := WHITE_SPACE;
    assert s[0] as int == 9 && s[1] as int == 10 && s[2] as int == 11 && s[3] as int == 12 && s[4] as int == 13;
    assert s[5] as int == 0x20 && s[6] as int == 0xA0 && s[7] as int == 0x1680 && s[8] as int == 0x2000;
    assert s[9] as int == 0x2001 && s[10] as int == 0x2002 && s[11] as int == 0x2003 && s[12] as int == 0x2004;
    assert s[13] as int == 0x2005 && s[14] as int == 0x2006 && s[15] as int == 0x2007 && s[16] as int == 0x2008;
    assert s[17] as int == 0x2009 && s[18] as int == 0x200A && s[19] as int == 0x2028 && s[20] as int == 0x2029;
    assert s[21] as int == 0x202F && s[22] as int == 0x205F && s[23] as int == 0x3000 && s[24] as int == 0xFEFF;
  }

  /** What is then stored or deleted: the row, or the key, of that object. */
  ghost predicate SaysTheSame(schema: Schema, value: Json, op: RowOperation)
    requires DescribesOperation(schema, value)
  {
    && op.table == Lookup(value.fields, Utf16("table")).value.text
    && (op.PutRow? <==> Lookup(value.fields, Utf16("type")).value.text == Utf16("putRow"))
    && (op.PutRow? ==>
          Lookup(value.fields, Utf16("row")).Some? && Lookup(value.fields, Utf16("row")).value.Obj?
          && ListsColumns(schema.tables[op.table], Lookup(value.fields, Utf16("row")).value.fields, op.row))
    && (op.DeleteRow? ==>
          Lookup(value.fields, Utf16("key")).Some? && Lookup(value.fields, Utf16("key")).value.Obj?
          && ListsKey(schema.tables[op.table], Lookup(value.fields, Utf16("key")).value.fields, op.key))
  }

  /** Every value of an object has distinct property names, as objects have. */
  ghost predicate Objects(value: Json) {
    value.Obj? ==> forall j | 0 <= j < |value.fields| ::
      value.fields[j].value.Obj? ==> DistinctKeys(value.fields[j].value.fields)
  }

  lemma MemberIsObject(value: Json, key: Text)
    requires value.Obj? && Objects(value)
    ensures var member := Lookup(value.fields, key); member.Some? && member.value.Obj? ==> DistinctKeys(member.value.fields)
  {
    LookupFound(value.fields, key);
    if Lookup(value.fields, key).Some? {
      assert Field(key, Lookup(value.fields, key).value) in value.fields;
      var j :| 0 <= j < |value.fields| && value.fields[j] == Field(key, Lookup(value.fields, key).value);
    }
  }

  /** A value is accepted as an operation exactly when it describes one. */
  lemma OperationAcceptedExactly(schema: Schema, value: Json)
    requires WellFormed(schema) && Objects(value)
    ensures Normalize(schema, value).Some? <==> DescribesOperation(schema, value)
    ensures Normalize(schema, value).Some? ==> SaysTheSame(schema, value, Normalize(schema, value).value)
  {
    WordsOfRows();
    hide Utf16, NormalizeFullRow, NormalizePrimaryKey, DescribesRow, DescribesKey, ListsColumns, ListsKey, Lookup,
         WellFormedTable, Objects;
    if value.Obj? {
      MemberIsObject(value, ROW);
      MemberIsObject(value, KEY);
      var table := Lookup(value.fields, TABLE);
      if table.Some? && table.value.Str? && table.value.text in schema.tables {
        if Lookup(value.fields, ROW).Some? {
          FullRowAcceptedExactly(schema.tables[table.value.text], Lookup(value.fields, ROW).value);
        }
        if Lookup(value.fields, KEY).Some? {
          KeyAcceptedExactly(schema.tables[table.value.text], Lookup(value.fields, KEY).value);
        }
      }
    }
  }

  /* ---- What is stored ---- */

  ghost predicate AllTyped(schema: Schema, state: Database) {
    forall name, key | name in schema.tables && key in TableRows(state, name) ::
      TypedRow(schema.tables[name], TableRows(state, name)[key])
  }

  lemma PutRowIsTyped(schema: Schema, op: RowOperation)
    requires op.PutRow? ==> DistinctKeys(op.row)
    ensures var normal := Normalize(schema, ToJson(op));
      normal.Some? ==>
        && normal.value.table in schema.tables && normal.value.PutRow? == op.PutRow?
        && (op.PutRow? ==> TypedRow(schema.tables[normal.value.table], normal.value.row))
  {
    hide Typed, TypedRow, NormalizeFullRow, NormalizePrimaryKey, Lookup;
    ReadBack(op);
    if op.PutRow? && op.table in schema.tables {
      AcceptedRowIsTyped(schema.tables[op.table], Obj(op.row));
    }
  }

  /** Every row that a replay of any operations stores has the columns of its table in order, each with
      a value of its type. */
  lemma {:induction false} StoredRowsAreTyped(schema: Schema, ops: seq<RowOperation>)
    requires ReplayRows(schema, Rows.Initial(schema), ops).Some?
    requires forall op | op in ops && op.PutRow? :: DistinctKeys(op.row)
    ensures AllTyped(schema, ReplayRows(schema, Rows.Initial(schema), ops).value)
  {
    hide TypedRow, Apply;
    if ops == [] {
      return;
    }
    var init, op := ops[..|ops| - 1], ops[|ops| - 1];
    assert forall other | other in init :: other in ops;
    assert op in ops;
    StoredRowsAreTyped(schema, init);
    OneMoreIsTyped(schema, ReplayRows(schema, Rows.Initial(schema), init).value, op);
  }

  lemma OneMoreIsTyped(schema: Schema, before: Database, op: RowOperation)
    requires (op.PutRow? ==> DistinctKeys(op.row)) && AllTyped(schema, before)
    requires Apply(schema, before, ToJson(op)).Some?
    ensures AllTyped(schema, Apply(schema, before, ToJson(op)).value)
  {
    hide TypedRow, Normalize, ToJson, KeyText;
    PutRowIsTyped(schema, op);
    var state, table := Apply(schema, before, ToJson(op)).value, Normalize(schema, ToJson(op)).value.table;
    forall name, key | name in schema.tables && key in TableRows(state, name)
      ensures TypedRow(schema.tables[name], TableRows(state, name)[key])
    {
      if name != table || key in TableRows(before, name) {
        assert TypedRow(schema.tables[name], TableRows(before, name)[key]) || name == table;
      }
    }
  }

  /* ---- What can be applied ---- */

  /** Every key column is given, and not as null, and the primary key names no column twice. */
  ghost predicate HasSoundKey(table: Table, fields: Row) {
    && DistinctTexts(table.primaryKey)
    && forall i | 0 <= i < |table.primaryKey| :: IsGiven(fields, table.primaryKey[i])
  }

  ghost predicate IsGiven(fields: Row, name: Text) {
    exists j :: 0 <= j < |fields| && fields[j].key == name && fields[j].value != Null
  }

  lemma ValidIsObjects(value: Json)
    requires Valid(value)
    ensures Objects(value)
  {
  }

  lemma NullMeansNotGiven(table: Table, fields: Row, row: Row, i: nat)
    requires WellFormedTable(table) && DistinctKeys(fields) && ListsColumns(table, fields, row)
    requires i < |table.primaryKey| && DistinctKeys(row)
    ensures Lookup(row, table.primaryKey[i]) == Some(Null) <==> !IsGiven(fields, table.primaryKey[i])
  {
    var name := table.primaryKey[i];
    var k := FindColumnFound(table.columns, name);
    LookupAt(row, k);
    assert row[k].key == name;
    if HasField(fields, name) {
      var j :| 0 <= j < |fields| && fields[j].key == name;
      assert row[k].value == fields[j].value;
    }
  }

  lemma SoundIsNotNull(table: Table, fields: Row, row: Row)
    requires WellFormedTable(table) && DistinctKeys(fields) && ListsColumns(table, fields, row) && DistinctKeys(row)
    ensures HasSoundKey(table, fields) <==> !NullKey(table, row) && DistinctTexts(table.primaryKey)
  {
    hide WellFormedTable, ListsColumns, IsGiven, DistinctTexts, DistinctKeys;
    forall i: nat | i < |table.primaryKey|
      ensures Lookup(row, table.primaryKey[i]) == Some(Null) <==> !IsGiven(fields, table.primaryKey[i])
    {
      NullMeansNotGiven(table, fields, row, i);
    }
  }

  lemma AppliedAsNormal(schema: Schema, state: Database, value: Json)
    requires WellFormed(schema) && Valid(value)
    ensures Apply(schema, state, value).Some? ==> state.schemaHash == schema.schemaHash && Normalize(schema, value).Some?
    ensures Normalize(schema, value).Some? ==>
      && IsNormal(schema, Normalize(schema, value).value)
      && Apply(schema, state, value) == Apply(schema, state, ToJson(Normalize(schema, value).value))
  {
    if Normalize(schema, value).Some? {
      NormalizeIsIdempotent(schema, value);
    }
    hide Normalize, KeyText, ToJson;
  }

  /** A value can be applied to a state exactly when the state is of the schema, the value describes an
      operation, and a row to put has a sound key. */
  lemma AppliesExactly(schema: Schema, state: Database, value: Json)
    requires WellFormed(schema) && Valid(value)
    ensures Apply(schema, state, value).Some? <==>
      && state.schemaHash == schema.schemaHash
      && DescribesOperation(schema, value)
      && PutsSoundKey(schema, value)
  {
    ValidIsObjects(value);
    AppliedAsNormal(schema, state, value);
    OperationAcceptedExactly(schema, value);
    hide *;
    if Normalize(schema, value).Some? && state.schemaHash == schema.schemaHash {
      var op := Normalize(schema, value).value;
      ApplySucceedsExactlyOnSoundKeys(schema, state, op);
      PutKeyIsSound(schema, value, op);
    }
  }

  ghost predicate PutsSoundKey(schema: Schema, value: Json)
    requires DescribesOperation(schema, value)
  {
    Lookup(value.fields, Utf16("type")).value.text == Utf16("putRow") ==>
      && Lookup(value.fields, Utf16("row")).Some? && Lookup(value.fields, Utf16("row")).value.Obj?
      && HasSoundKey(schema.tables[Lookup(value.fields, Utf16("table")).value.text], Lookup(value.fields, Utf16("row")).value.fields)
  }

  lemma PutKeyIsSound(schema: Schema, value: Json, op: RowOperation)
    requires WellFormed(schema) && Objects(value) && DescribesOperation(schema, value) && SaysTheSame(schema, value, op)
    requires op.table in schema.tables && IsNormal(schema, op)
    ensures PutsSoundKey(schema, value) <==>
      (op.PutRow? ==> !NullKey(schema.tables[op.table], op.row) && DistinctTexts(schema.tables[op.table].primaryKey))
  {
    MemberIsObject(value, Utf16("row"));
    NormalMeans(schema, op);
    hide Utf16, HasSoundKey, NullKey, NormalizeFullRow, NormalizePrimaryKey, IsNormal, DescribesMember, ListsColumns, ListsKey,
         DistinctTexts, DistinctKeys, WellFormedTable, IsSpace, IsBlank, Objects, Lookup;
    if op.PutRow? {
      var table := schema.tables[op.table];
      NormalRow(table, op.row);
      SoundIsNotNull(table, Lookup(value.fields, Utf16("row")).value.fields, op.row);
    }
  }

  /* ---- The text of a key ---- */

  lemma PlainIsSorted(value: Json)
    requires Plain(value)
    ensures SortKeys(value) == value
  {
    if value.Arr? {
      assert forall i | 0 <= i < |value.items| :: SortKeys(value.items[i]) == value.items[i];
      assert SortKeys(value).items == value.items;
    }
  }

  /** A key is filed under the JSON text of the list of its values, in the order of the table's key. */
  lemma KeyTextIsList(table: Table, key: Row) returns (values: seq<Json>)
    requires EncodePrimaryKey(table, key).Some?
    ensures |values| == |table.primaryKey|
    ensures forall i | 0 <= i < |values| :: Lookup(key, table.primaryKey[i]) == Some(values[i])
    ensures EncodePrimaryKey(table, key) == Some(Utf16(Spelled(Arr(values))))
  {
    hide AcceptsKey, Utf16, Spelled, Print, NormalizePrimaryKey;
    AcceptedIsSelected(table, key);
    AcceptedKeysAreThere(table, key);
    SelectedLookup(table.primaryKey, key);
    values := ValuesOf(table.primaryKey, Select(table.primaryKey, key));
    forall i | 0 <= i < |values| ensures SortKeys(values[i]) == values[i] {
      AcceptedIsPlain(table, key, table.primaryKey[i]);
      PlainIsSorted(values[i]);
    }
    assert SortKeys(Arr(values)).items == values;
    PrintIsSpelled(Arr(values));
  }

  lemma AcceptedIsSelected(table: Table, key: Row)
    requires EncodePrimaryKey(table, key).Some?
    ensures NormalizePrimaryKey(table, Obj(key)).Some?
    ensures forall i | 0 <= i < |table.primaryKey| :: AcceptsKey(table, key, table.primaryKey[i])
    ensures forall i | 0 <= i < |table.primaryKey| :: Lookup(key, table.primaryKey[i]).Some?
    ensures NormalizePrimaryKey(table, Obj(key)) == Some(Select(table.primaryKey, key))
  {
    hide Fits, Canon;
  }
}
