/** What row replication promises: normalising twice is normalising once, an accepted operation can
    be applied exactly when it has no null key, keys and operations are told apart by their text, and
    a replay leaves under each key the last row written there. */
module RowLaws {
  import opened Protocol
  import opened CanonicalJson
  import opened JsonObjects
  import opened Rows

  /** The operation is its own normal form, as whatever decide accepts is. */
  predicate IsNormal(schema: Schema, op: RowOperation) {
    Normalize(schema, ToJson(op)) == Some(op)
  }

  /* ---- Normalisation ---- */

  lemma NormalRowIsFixed(table: Table, fields: Row)
    requires WellFormedTable(table) && NormalizeFullRow(table, Obj(fields)).Some?
    ensures var row := NormalizeFullRow(table, Obj(fields)).value; NormalizeFullRow(table, Obj(row)) == Some(row)
  {
    var row := NormalizeFullRow(table, Obj(fields)).value;
    hide Fits;
    forall i | 0 <= i < |row|
      ensures Lookup(row, table.columns[i].name) == Some(row[i].value)
      ensures AcceptsColumn(table.columns[i], row) && FindColumn(table.columns, row[i].key).Some?
    {
      assert AcceptsColumn(table.columns[i], fields);
      LookupAt(row, i);
      FindColumnAt(table.columns, i);
      NullFits(table.columns[i].column);
    }
    assert FullRow(table, row) == row;
  }

  lemma NullFits(column: Column)
    ensures Fits(column, Null) <==> column.nullable
  {
  }

  /* ---- Keys built by assignment ---- */

  lemma {:induction false} AssignKeepsDistinct(fields: Row, key: Text, value: Json)
    requires DistinctKeys(fields)
    ensures DistinctKeys(Assign(fields, key, value))
    ensures forall f | f in Assign(fields, key, value) :: f.key == key || f in fields
    ensures (forall i | 0 <= i < |fields| :: fields[i].key != key) ==> Assign(fields, key, value) == fields + [Field(key, value)]
  {
    if fields != [] {
      var head, tail := fields[0], fields[1..];
      assert fields == [head] + tail;
      AssignKeepsDistinct(tail, key, value);
      forall f | f in tail ensures f.key != head.key && f in fields {
        var i :| 0 <= i < |tail| && tail[i] == f;
        assert fields[i + 1] == f;
      }
      var rest := if head.key == key then tail else Assign(tail, key, value);
      var first := if head.key == key then Field(key, value) else head;
      assert Assign(fields, key, value) == [first] + rest;
      forall i | 0 <= i < |rest| ensures rest[i].key != first.key {
        assert rest[i] in rest;
      }
    }
  }

  /** A repeated name leaves one field; names that differ leave one each, in their order. */
  lemma {:induction false} SelectedFields(names: seq<Text>, fields: Row)
    requires forall i | 0 <= i < |names| :: Lookup(fields, names[i]).Some?
    ensures DistinctKeys(Select(names, fields))
    ensures forall f | f in Select(names, fields) :: f.key in names
    ensures DistinctTexts(names) ==>
      && |Select(names, fields)| == |names|
      && forall i | 0 <= i < |names| :: Select(names, fields)[i] == Field(names[i], Lookup(fields, names[i]).value)
  {
    if names != [] {
      var init, last := names[..|names| - 1], names[|names| - 1];
      assert names == init + [last];
      SelectedFields(init, fields);
      var before := Select(init, fields);
      AssignKeepsDistinct(before, last, Lookup(fields, last).value);
      if DistinctTexts(names) {
        forall i | 0 <= i < |before| ensures before[i].key != last {
          assert before[i].key == init[i];
        }
      }
    }
  }

  lemma {:induction false} DistinctIsCounted(xs: seq<Text>)
    ensures DistinctTexts(xs) <==> forall t :: multiset(xs)[t] <= 1
  {
    if xs != [] {
      var init, last := xs[..|xs| - 1], xs[|xs| - 1];
      assert xs == init + [last];
      DistinctIsCounted(init);
      assert multiset(xs) == multiset(init) + multiset{last};
      if DistinctTexts(xs) {
        assert last !in init;
      } else if DistinctTexts(init) {
        RepeatedLast(init, last);
        assert multiset(xs)[last] >= 2;
      } else {
        var t :| multiset(init)[t] > 1;
        assert multiset(xs)[t] > 1;
      }
    }
  }

  lemma RepeatedLast(init: seq<Text>, last: Text)
    requires DistinctTexts(init) && !DistinctTexts(init + [last])
    ensures last in init
  {
    var xs := init + [last];
    var i, j :| 0 <= i < j < |xs| && xs[i] == xs[j];
    assert xs[i] == init[i] && init[i] in init;
  }

  lemma SameCountSameDistinct(xs: seq<Text>, ys: seq<Text>)
    requires multiset(xs) == multiset(ys)
    ensures DistinctTexts(xs) <==> DistinctTexts(ys)
  {
    DistinctIsCounted(xs);
    DistinctIsCounted(ys);
  }

  lemma DistinctKeysAreTexts(fields: Row)
    ensures DistinctKeys(fields) <==> DistinctTexts(KeysOf(fields))
  {
    if DistinctKeys(fields) {
      forall i, j | 0 <= i < j < |fields| ensures KeysOf(fields)[i] != KeysOf(fields)[j] {
        assert fields[i].key != fields[j].key;
      }
    }
    if DistinctTexts(KeysOf(fields)) {
      forall i, j | 0 <= i < j < |fields| ensures fields[i].key != fields[j].key {
        assert KeysOf(fields)[i] != KeysOf(fields)[j];
      }
    }
  }

  /** The key read from an object with these fields, when it is one of the table's keys. */
  lemma KeyOfObject(table: Table, fields: Row)
    requires DistinctKeys(fields) && NormalizePrimaryKey(table, Obj(fields)).Some?
    ensures DistinctTexts(table.primaryKey)
    ensures var key := NormalizePrimaryKey(table, Obj(fields)).value;
      && |key| == |table.primaryKey| && DistinctKeys(key)
      && forall i | 0 <= i < |key| ::
           AcceptsKey(table, fields, table.primaryKey[i])
           && key[i] == Field(table.primaryKey[i], Lookup(fields, table.primaryKey[i]).value)
  {
    hide AcceptsKey;
    var names := table.primaryKey;
    DistinctKeysAreTexts(fields);
    SameCountSameDistinct(KeysOf(fields), names);
    AcceptedKeysAreThere(table, fields);
    SelectedFields(names, fields);
  }

  lemma AcceptedKeysAreThere(table: Table, fields: Row)
    requires forall i | 0 <= i < |table.primaryKey| :: AcceptsKey(table, fields, table.primaryKey[i])
    ensures forall i | 0 <= i < |table.primaryKey| :: Lookup(fields, table.primaryKey[i]).Some?
  {
    forall i | 0 <= i < |table.primaryKey| ensures Lookup(fields, table.primaryKey[i]).Some? {
      assert AcceptsKey(table, fields, table.primaryKey[i]);
    }
  }

  /** The key's own fields make the same key again. */
  lemma KeyIsFixed(table: Table, key: Row)
    requires DistinctTexts(table.primaryKey) && |key| == |table.primaryKey|
    requires forall i | 0 <= i < |key| :: key[i].key == table.primaryKey[i]
    requires forall i | 0 <= i < |key| :: AcceptsKey(table, key, table.primaryKey[i])
    ensures NormalizePrimaryKey(table, Obj(key)) == Some(key)
  {
    hide AcceptsKey;
    assert KeysOf(key) == table.primaryKey;
    DistinctKeysAreTexts(key);
    AcceptedKeysAreThere(table, key);
    SelectedFields(table.primaryKey, key);
    forall i | 0 <= i < |key| ensures Lookup(key, table.primaryKey[i]) == Some(key[i].value) {
      LookupAt(key, i);
    }
    assert Select(table.primaryKey, key) == key;
  }

  lemma NormalKeyIsFixed(table: Table, fields: Row)
    requires DistinctKeys(fields) && NormalizePrimaryKey(table, Obj(fields)).Some?
    ensures var key := NormalizePrimaryKey(table, Obj(fields)).value; NormalizePrimaryKey(table, Obj(key)) == Some(key)
  {
    KeyOfObject(table, fields);
    var key := NormalizePrimaryKey(table, Obj(fields)).value;
    hide Fits, NormalizePrimaryKey;
    forall i | 0 <= i < |key| ensures key[i].key == table.primaryKey[i] && AcceptsKey(table, key, table.primaryKey[i]) {
      assert AcceptsKey(table, fields, table.primaryKey[i]);
      LookupAt(key, i);
    }
    KeyIsFixed(table, key);
  }

  lemma ReadBack(op: RowOperation)
    ensures Lookup(ToJson(op).fields, TABLE) == Some(Str(op.table))
    ensures op.PutRow? ==> Lookup(ToJson(op).fields, TYPE) == Some(Str(PUT_ROW)) && Lookup(ToJson(op).fields, ROW) == Some(Obj(op.row))
    ensures op.DeleteRow? ==>
      Lookup(ToJson(op).fields, TYPE) == Some(Str(DELETE_ROW)) && Lookup(ToJson(op).fields, KEY) == Some(Obj(op.key))
    ensures PUT_ROW != DELETE_ROW
  {
    var fields := ToJson(op).fields;
    assert TYPE[1] != TABLE[1] && TABLE[0] != ROW[0] && TABLE[0] != KEY[0] && TYPE[0] != ROW[0] && TYPE[0] != KEY[0];
    assert PUT_ROW[0] != DELETE_ROW[0];
    LookupAt(fields, 0);
    LookupAt(fields, 1);
    LookupAt(fields, 2);
  }

  lemma ValidProperty(fields: Row, key: Text)
    requires Valid(Obj(fields)) && Lookup(fields, key).Some?
    ensures Valid(Lookup(fields, key).value)
  {
    LookupFound(fields, key);
    var i :| 0 <= i < |fields| && fields[i] == Field(key, Lookup(fields, key).value);
  }

  lemma ValidObject(fields: Row)
    requires Valid(Obj(fields))
    ensures DistinctKeys(fields)
  {
  }

  /** Normalising what has been normalised changes nothing, whatever it was normalised from. */
  lemma NormalizeIsIdempotent(schema: Schema, input: Json)
    requires WellFormed(schema) && Valid(input) && Normalize(schema, input).Some?
    ensures IsNormal(schema, Normalize(schema, input).value)
  {
    hide IsBlank, NormalizeFullRow, NormalizePrimaryKey, WellFormedTable, Lookup, ToJson, Valid;
    var op := Normalize(schema, input).value;
    ReadBack(op);
    ToJsonIsObject(op);
    match op
    case PutRow(name, row) =>
      var value := Lookup(input.fields, ROW).value;
      ObjectsOnly(schema.tables[name], value);
      NormalRowIsFixed(schema.tables[name], value.fields);
    case DeleteRow(name, key) =>
      var value := Lookup(input.fields, KEY).value;
      ObjectsOnly(schema.tables[name], value);
      ValidProperty(input.fields, KEY);
      ValidObject(value.fields);
      NormalKeyIsFixed(schema.tables[name], value.fields);
  }

  lemma ToJsonIsObject(op: RowOperation)
    ensures ToJson(op).Obj?
  {
  }

  lemma ObjectsOnly(table: Table, value: Json)
    ensures NormalizeFullRow(table, value).Some? ==> value.Obj? && value == Obj(value.fields)
    ensures NormalizePrimaryKey(table, value).Some? ==> value.Obj? && value == Obj(value.fields)
  {
  }

  /** What it is to be normal, table by table. */
  lemma NormalMeans(schema: Schema, op: RowOperation)
    ensures IsNormal(schema, op) <==>
      && !IsBlank(op.table) && op.table in schema.tables
      && (op.PutRow? ==> NormalizeFullRow(schema.tables[op.table], Obj(op.row)) == Some(op.row))
      && (op.DeleteRow? ==> NormalizePrimaryKey(schema.tables[op.table], Obj(op.key)) == Some(op.key))
  {
    hide IsBlank, NormalizeFullRow, NormalizePrimaryKey, Lookup, ToJson;
    ReadBack(op);
    ToJsonIsObject(op);
  }

  /* ---- Rows in normal form ---- */

  /** The row has a field for every column, in order, and each value fits. */
  lemma NormalRow(table: Table, row: Row)
    requires WellFormedTable(table) && NormalizeFullRow(table, Obj(row)) == Some(row)
    ensures |row| == |table.columns| && DistinctKeys(row)
    ensures forall i | 0 <= i < |row| :: row[i].key == table.columns[i].name && Fits(table.columns[i].column, row[i].value)
  {
    hide Fits;
    forall i, j | 0 <= i < j < |row| ensures row[i].key != row[j].key {
      assert table.columns[i].name != table.columns[j].name;
    }
    forall i | 0 <= i < |row| ensures Fits(table.columns[i].column, row[i].value) {
      assert AcceptsColumn(table.columns[i], row);
      LookupAt(row, i);
    }
  }

  lemma NormalKey(table: Table, key: Row)
    requires NormalizePrimaryKey(table, Obj(key)) == Some(key)
    ensures DistinctTexts(table.primaryKey) && |key| == |table.primaryKey| && DistinctKeys(key)
    ensures forall i | 0 <= i < |key| :: key[i].key == table.primaryKey[i] && Plain(key[i].value) && key[i].value != Null
  {
    hide Fits, AcceptsKey;
    AcceptedKeysAreThere(table, key);
    SelectedFields(table.primaryKey, key);
    KeyOfObject(table, key);
    forall i | 0 <= i < |key| ensures key[i].key == table.primaryKey[i] && key[i].value != Null && Plain(key[i].value) {
      AcceptedIsPlain(table, key, table.primaryKey[i]);
      LookupAt(key, i);
    }
  }

  lemma AcceptedIsPlain(table: Table, fields: Row, name: Text)
    requires AcceptsKey(table, fields, name)
    ensures Lookup(fields, name).Some? && Plain(Lookup(fields, name).value) && Lookup(fields, name).value != Null
  {
    FitsIsPlain(FindColumn(table.columns, name).value.(nullable := false), Lookup(fields, name).value);
  }

  /** A value that contains no object. */
  predicate Plain(j: Json) {
    && !j.Obj?
    && (j.Arr? ==> forall i | 0 <= i < |j.items| :: j.items[i].Num?)
  }

  lemma FitsIsPlain(column: Column, value: Json)
    requires Fits(column, value)
    ensures Plain(value)
  {
  }

  lemma PlainIsExact(a: Json, b: Json)
    requires Plain(a)
    ensures Valid(a) && (JsonEq(a, b) <==> a == b)
  {
  }

  /* ---- Keys ---- */

  lemma PlainArrays(xs: seq<Json>, ys: seq<Json>)
    requires forall i | 0 <= i < |xs| :: Plain(xs[i])
    requires forall i | 0 <= i < |ys| :: Plain(ys[i])
    ensures Canon(Arr(xs)) == Canon(Arr(ys)) <==> xs == ys
  {
    hide Canon, Plain;
    forall i | 0 <= i < |xs| ensures Valid(xs[i]) && forall j | 0 <= j < |ys| :: JsonEq(xs[i], ys[j]) <==> xs[i] == ys[j] {
      forall j | 0 <= j < |ys| ensures JsonEq(xs[i], ys[j]) <==> xs[i] == ys[j] {
        PlainIsExact(xs[i], ys[j]);
      }
      PlainIsExact(xs[i], Null);
    }
    forall i | 0 <= i < |ys| ensures Valid(ys[i]) {
      PlainIsExact(ys[i], Null);
    }
    CanonicalTextIsEquality(Arr(xs), Arr(ys));
  }

  /** Two keys have the same text if and only if they agree on every key column. */
  lemma KeyTextIsKeyEquality(table: Table, one: Row, two: Row)
    requires EncodePrimaryKey(table, one).Some? && EncodePrimaryKey(table, two).Some?
    ensures EncodePrimaryKey(table, one) == EncodePrimaryKey(table, two) <==>
      forall i | 0 <= i < |table.primaryKey| :: Lookup(one, table.primaryKey[i]) == Lookup(two, table.primaryKey[i])
  {
    hide AcceptsKey, Canon;
    var names := table.primaryKey;
    AcceptedKeysAreThere(table, one);
    AcceptedKeysAreThere(table, two);
    SelectedLookup(names, one);
    SelectedLookup(names, two);
    var xs, ys := ValuesOf(names, Select(names, one)), ValuesOf(names, Select(names, two));
    forall i | 0 <= i < |names| ensures Plain(xs[i]) && Plain(ys[i]) {
      AcceptedIsPlain(table, one, names[i]);
      AcceptedIsPlain(table, two, names[i]);
    }
    PlainArrays(xs, ys);
    if xs == ys {
      forall i | 0 <= i < |names| ensures Lookup(one, names[i]) == Lookup(two, names[i]) {
        assert xs[i] == ys[i];
      }
    } else {
      var i :| 0 <= i < |names| && xs[i] != ys[i];
    }
  }

  /* ---- Operations ---- */

  ghost predicate PlainRow(row: Row) {
    DistinctKeys(row) && forall i | 0 <= i < |row| :: Plain(row[i].value)
  }

  lemma PlainRowIsValid(row: Row)
    requires PlainRow(row)
    ensures Valid(Obj(row))
  {
    forall i | 0 <= i < |row| ensures Valid(row[i].value) {
      PlainIsExact(row[i].value, Null);
    }
  }

  /** Rows over the same columns are equal as JSON values only if they are the same. */
  lemma PlainRowsAreExact(xs: Row, ys: Row)
    requires PlainRow(xs) && PlainRow(ys)
    requires |xs| == |ys| && forall i | 0 <= i < |xs| :: xs[i].key == ys[i].key
    ensures JsonEq(Obj(xs), Obj(ys)) <==> xs == ys
  {
    hide Plain, PlainRow;
    PlainRowParts(xs);
    PlainRowParts(ys);
    if JsonEq(Obj(xs), Obj(ys)) {
      forall i | 0 <= i < |xs| ensures xs[i] == ys[i] {
        assert xs[i] in xs && FieldIn(Obj(xs), xs[i], Obj(ys));
        var g :| g in ys && SameField(Obj(xs), xs[i], g);
        SameKeySameField(ys, g, ys[i]);
        PlainIsExact(xs[i].value, g.value);
      }
    }
    if xs == ys {
      forall f | f in xs ensures FieldIn(Obj(xs), f, Obj(ys)) && KeyIn(f.key, xs) {
        var i :| 0 <= i < |xs| && xs[i] == f;
        PlainIsExact(f.value, f.value);
        assert SameField(Obj(xs), f, ys[i]);
      }
    }
  }

  lemma PlainRowParts(row: Row)
    requires PlainRow(row)
    ensures DistinctKeys(row) && forall i | 0 <= i < |row| :: Plain(row[i].value)
  {
  }

  function Body(op: RowOperation): Row { if op.PutRow? then op.row else op.key }

  lemma NormalBody(schema: Schema, op: RowOperation)
    requires WellFormed(schema) && IsNormal(schema, op)
    ensures op.table in schema.tables && PlainRow(Body(op))
    ensures op.PutRow? ==>
      && |op.row| == |schema.tables[op.table].columns|
      && forall i | 0 <= i < |op.row| :: op.row[i].key == schema.tables[op.table].columns[i].name
    ensures op.DeleteRow? ==>
      && |op.key| == |schema.tables[op.table].primaryKey|
      && forall i | 0 <= i < |op.key| :: op.key[i].key == schema.tables[op.table].primaryKey[i]
  {
    hide IsNormal, NormalizeFullRow, NormalizePrimaryKey, Fits, IsBlank, Plain, WellFormedTable;
    NormalMeans(schema, op);
    if op.PutRow? {
      NormalRow(schema.tables[op.table], op.row);
      forall i | 0 <= i < |op.row| ensures Plain(op.row[i].value) {
        FitsIsPlain(schema.tables[op.table].columns[i].column, op.row[i].value);
      }
    } else {
      NormalKey(schema.tables[op.table], op.key);
    }
  }

  /** The kind, the table and the body of an operation, as JSON. */
  lemma SameOperation(a: RowOperation, b: RowOperation)
    ensures JsonEq(ToJson(a), ToJson(b)) <==>
      && a.PutRow? == b.PutRow? && a.table == b.table && JsonEq(Obj(Body(a)), Obj(Body(b)))
  {
    hide *;
    if JsonEq(ToJson(a), ToJson(b)) {
      EqualOperations(a, b);
    }
    if a.PutRow? == b.PutRow? && a.table == b.table && JsonEq(Obj(Body(a)), Obj(Body(b))) {
      OperationsEqual(a, b);
    }
  }

  lemma EqualOperations(a: RowOperation, b: RowOperation)
    requires JsonEq(ToJson(a), ToJson(b))
    ensures a.PutRow? == b.PutRow? && a.table == b.table && JsonEq(Obj(Body(a)), Obj(Body(b)))
  {
    hide *;
    OperationFields(a);
    OperationFields(b);
    SameFieldOf(ToJson(a), ToJson(b), 0);
    SameFieldOf(ToJson(a), ToJson(b), 1);
    SameFieldOf(ToJson(a), ToJson(b), 2);
    SameTexts(a, b);
  }

  lemma OperationsEqual(a: RowOperation, b: RowOperation)
    requires a.PutRow? == b.PutRow? && a.table == b.table && JsonEq(Obj(Body(a)), Obj(Body(b)))
    ensures JsonEq(ToJson(a), ToJson(b))
  {
    hide *;
    OperationFields(a);
    OperationFields(b);
    TextsAreEqual(Str(if a.PutRow? then PUT_ROW else DELETE_ROW));
    TextsAreEqual(Str(a.table));
    ObjectsEqual(ToJson(a), ToJson(b));
  }

  lemma TextsAreEqual(j: Json)
    requires j.Str?
    ensures JsonEq(j, j)
  {
  }

  lemma SameTexts(a: RowOperation, b: RowOperation)
    requires PUT_ROW != DELETE_ROW
    requires JsonEq(Str(if a.PutRow? then PUT_ROW else DELETE_ROW), Str(if b.PutRow? then PUT_ROW else DELETE_ROW))
    requires JsonEq(Str(a.table), Str(b.table))
    ensures a.PutRow? == b.PutRow? && a.table == b.table
  {
  }

  lemma ObjectsEqual(s: Json, t: Json)
    requires s.Obj? && t.Obj? && |s.fields| == |t.fields|
    requires forall i | 0 <= i < |s.fields| :: s.fields[i].key == t.fields[i].key && JsonEq(s.fields[i].value, t.fields[i].value)
    ensures JsonEq(s, t)
  {
    forall f | f in s.fields ensures FieldIn(s, f, t) {
      var i :| 0 <= i < |s.fields| && s.fields[i] == f;
      assert t.fields[i] in t.fields && SameField(s, f, t.fields[i]);
    }
    forall g | g in t.fields ensures KeyIn(g.key, s.fields) {
      var i :| 0 <= i < |t.fields| && t.fields[i] == g;
      assert s.fields[i].key == g.key;
    }
  }

  lemma OperationFields(op: RowOperation)
    ensures var j := ToJson(op);
      && j.Obj? && |j.fields| == 3 && DistinctKeys(j.fields)
      && j.fields[0] == Field(TYPE, Str(if op.PutRow? then PUT_ROW else DELETE_ROW))
      && j.fields[1] == Field(TABLE, Str(op.table))
      && j.fields[2] == Field(if op.PutRow? then ROW else KEY, Obj(Body(op)))
    ensures PUT_ROW != DELETE_ROW
  {
    assert TYPE[1] != TABLE[1] && TABLE[0] != ROW[0] && TABLE[0] != KEY[0] && TYPE[0] != ROW[0] && TYPE[0] != KEY[0];
    assert PUT_ROW[0] != DELETE_ROW[0];
  }

  lemma ValidOperation(op: RowOperation)
    requires PlainRow(Body(op))
    ensures Valid(ToJson(op))
  {
    hide PlainRow;
    OperationFields(op);
    PlainRowIsValid(Body(op));
    hide ToJson;
    var j := ToJson(op);
    forall i | 0 <= i < |j.fields| ensures Valid(j.fields[i].value) {
      assert i == 0 || i == 1 || i == 2;
    }
  }

  /** In equal objects with distinct keys, the field under the same key has an equal value. */
  lemma SameFieldOf(s: Json, t: Json, i: nat)
    requires s.Obj? && t.Obj? && JsonEq(s, t) && DistinctKeys(t.fields)
    requires i < |s.fields| && i < |t.fields|
    ensures exists g :: g in t.fields && g.key == s.fields[i].key && JsonEq(s.fields[i].value, g.value)
    ensures s.fields[i].key == t.fields[i].key ==> JsonEq(s.fields[i].value, t.fields[i].value)
  {
    assert s.fields[i] in s.fields && FieldIn(s, s.fields[i], t);
    var g :| g in t.fields && SameField(s, s.fields[i], g);
    if s.fields[i].key == t.fields[i].key {
      SameKeySameField(t.fields, g, t.fields[i]);
    }
  }

  /** The comparison of the replica's interpreter is exact: two operations in normal form have the
      same canonical text if and only if they are the same operation. */
  lemma OperationTextIsEquality(schema: Schema, a: RowOperation, b: RowOperation)
    requires WellFormed(schema) && IsNormal(schema, a) && IsNormal(schema, b)
    ensures Canon(ToJson(a)) == Canon(ToJson(b)) <==> a == b
  {
    hide IsNormal, WellFormed, PlainRow, Canon, ToJson;
    NormalBody(schema, a);
    NormalBody(schema, b);
    ValidOperation(a);
    ValidOperation(b);
    SameOperation(a, b);
    CanonicalTextIsEquality(ToJson(a), ToJson(b));
    if a.PutRow? == b.PutRow? && a.table == b.table {
      PlainRowsAreExact(Body(a), Body(b));
    }
  }

  /* ---- Applying ---- */

  ghost predicate NullKey(table: Table, row: Row) {
    exists i :: 0 <= i < |table.primaryKey| && Lookup(row, table.primaryKey[i]) == Some(Null)
  }

  /** A normal row has every key column, and each value fits it. */
  lemma KeyColumnOfRow(table: Table, row: Row, i: nat)
    requires WellFormedTable(table) && NormalizeFullRow(table, Obj(row)) == Some(row) && i < |table.primaryKey|
    ensures Lookup(row, table.primaryKey[i]).Some? && FindColumn(table.columns, table.primaryKey[i]).Some?
    ensures Fits(FindColumn(table.columns, table.primaryKey[i]).value, Lookup(row, table.primaryKey[i]).value)
  {
    hide Fits;
    NormalRow(table, row);
    var k := FindColumnFound(table.columns, table.primaryKey[i]);
    LookupAt(row, k);
  }

  lemma RequiredFits(column: Column, value: Json)
    ensures value != Null ==> (Fits(column, value) <==> Fits(column.(nullable := false), value))
  {
  }

  /** A normal row has a key text exactly when no key column is null and the primary key names no
      column twice: the object built for a repeated name has too few keys. */
  lemma RowKeyIsEncoded(table: Table, row: Row)
    requires WellFormedTable(table) && NormalizeFullRow(table, Obj(row)) == Some(row)
    ensures EncodeRowPrimaryKey(table, row).Some? <==> !NullKey(table, row) && DistinctTexts(table.primaryKey)
  {
    hide Fits, NormalizeFullRow, Canon, WellFormedTable;
    var names := table.primaryKey;
    forall i: nat | i < |names| ensures Lookup(row, names[i]).Some? {
      KeyColumnOfRow(table, row, i);
    }
    var key := KeyFromRow(table, row).value;
    SelectedLookup(names, row);
    SelectedFields(names, row);
    forall i: nat | i < |names| ensures AcceptsKey(table, key, names[i]) <==> Lookup(row, names[i]) != Some(Null) {
      KeyColumnOfRow(table, row, i);
      RequiredFits(FindColumn(table.columns, names[i]).value, Lookup(row, names[i]).value);
    }
    KeyNamesCount(names, row);
  }

  lemma KeyNamesCount(names: seq<Text>, row: Row)
    requires forall i | 0 <= i < |names| :: Lookup(row, names[i]).Some?
    ensures multiset(KeysOf(Select(names, row))) == multiset(names) <==> DistinctTexts(names)
  {
    SelectedFields(names, row);
    DistinctKeysAreTexts(Select(names, row));
    if multiset(KeysOf(Select(names, row))) == multiset(names) {
      SameCountSameDistinct(KeysOf(Select(names, row)), names);
    }
    if DistinctTexts(names) {
      assert KeysOf(Select(names, row)) == names;
    }
  }

  /** An operation in normal form can be applied exactly when it is a delete, or its row has no null
      under a key column and the primary key names no column twice. */
  lemma ApplySucceedsExactlyOnSoundKeys(schema: Schema, state: Database, op: RowOperation)
    requires WellFormed(schema) && IsNormal(schema, op) && state.schemaHash == schema.schemaHash
    ensures op.table in schema.tables
    ensures Apply(schema, state, ToJson(op)).Some? <==>
      (op.PutRow? ==> !NullKey(schema.tables[op.table], op.row) && DistinctTexts(schema.tables[op.table].primaryKey))
  {
    NormalMeans(schema, op);
    hide NormalizeFullRow, NormalizePrimaryKey, NullKey, WellFormedTable, EncodeRowPrimaryKey, ToJson, Normalize, DistinctTexts;
    if op.PutRow? {
      RowKeyIsEncoded(schema.tables[op.table], op.row);
    }
  }

  /* ---- Which schemas make acceptance enough ---- */

  function DefaultValue(column: Column): Json {
    if column.nullable then Null
    else
      match column.affinity
      case TextAffinity => Str([])
      case Blob => Arr([])
      case _ => Num(0)
  }

  /** A row that is null wherever it may be. */
  function DefaultRow(table: Table): (row: Row)
    ensures |row| == |table.columns|
    ensures forall i | 0 <= i < |row| :: row[i] == Field(table.columns[i].name, DefaultValue(table.columns[i].column))
  {
    seq(|table.columns|, i requires 0 <= i < |table.columns| =>
      Field(table.columns[i].name, DefaultValue(table.columns[i].column)))
  }

  lemma DefaultRowIsNormal(table: Table)
    requires WellFormedTable(table)
    ensures NormalizeFullRow(table, Obj(DefaultRow(table))) == Some(DefaultRow(table))
  {
    var row := DefaultRow(table);
    forall i | 0 <= i < |row|
      ensures Lookup(row, table.columns[i].name) == Some(row[i].value)
      ensures AcceptsColumn(table.columns[i], row) && FindColumn(table.columns, row[i].key).Some?
    {
      LookupAt(row, i);
      FindColumnAt(table.columns, i);
    }
    assert FullRow(table, row) == row;
  }

  lemma RequiredKeysAreNotNull(table: Table, row: Row)
    requires WellFormedTable(table) && NormalizeFullRow(table, Obj(row)) == Some(row) && KeysAreRequired(table)
    ensures !NullKey(table, row)
  {
    hide Fits, NormalizeFullRow;
    forall i: nat | i < |table.primaryKey| ensures Lookup(row, table.primaryKey[i]) != Some(Null) {
      KeyColumnOfRow(table, row, i);
      NullFits(FindColumn(table.columns, table.primaryKey[i]).value);
    }
  }

  lemma NullableKeyHasWitness(table: Table)
    requires WellFormedTable(table) && !KeysAreRequired(table)
    ensures NullKey(table, DefaultRow(table))
  {
    var i :| 0 <= i < |table.primaryKey| && FindColumn(table.columns, table.primaryKey[i]).value.nullable;
    var k := FindColumnFound(table.columns, table.primaryKey[i]);
    LookupAt(DefaultRow(table), k);
  }

  /** Everything decide accepts for a table can be applied if and only if its key columns may not be
      null and its primary key names no column twice. The row schema check asks for neither. */
  lemma AcceptedAppliesIffKeysAreSound(schema: Schema, name: Text)
    requires WellFormed(schema) && name in schema.tables && !IsBlank(name)
    ensures KeysAreRequired(schema.tables[name]) && DistinctTexts(schema.tables[name].primaryKey) <==>
      forall op, state: Database | IsNormal(schema, op) && op.table == name && state.schemaHash == schema.schemaHash ::
        Apply(schema, state, ToJson(op)).Some?
  {
    var table := schema.tables[name];
    hide IsNormal, NormalizeFullRow, KeysAreRequired, NullKey, WellFormedTable, ToJson, Apply, Normalize, IsBlank, DistinctTexts;
    if KeysAreRequired(table) && DistinctTexts(table.primaryKey) {
      forall op, state: Database | IsNormal(schema, op) && op.table == name && state.schemaHash == schema.schemaHash
        ensures Apply(schema, state, ToJson(op)).Some?
      {
        NormalMeans(schema, op);
        ApplySucceedsExactlyOnSoundKeys(schema, state, op);
        if op.PutRow? {
          RequiredKeysAreNotNull(table, op.row);
        }
      }
    } else {
      UnsoundKeyHasWitness(schema, name);
    }
  }

  /** The row that is null wherever it may be is accepted and cannot be applied. */
  lemma UnsoundKeyHasWitness(schema: Schema, name: Text)
    requires WellFormed(schema) && name in schema.tables && !IsBlank(name)
    requires !KeysAreRequired(schema.tables[name]) || !DistinctTexts(schema.tables[name].primaryKey)
    ensures var op := PutRow(name, DefaultRow(schema.tables[name]));
      && Rows.Initial(schema).schemaHash == schema.schemaHash
      && IsNormal(schema, op) && Apply(schema, Rows.Initial(schema), ToJson(op)).None?
  {
    var table := schema.tables[name];
    var op := PutRow(name, DefaultRow(table));
    hide IsNormal, NormalizeFullRow, KeysAreRequired, NullKey, WellFormedTable, ToJson, Apply, Normalize, IsBlank, DistinctTexts;
    DefaultRowIsNormal(table);
    NormalMeans(schema, op);
    if !KeysAreRequired(table) {
      NullableKeyHasWitness(table);
    }
    ApplySucceedsExactlyOnSoundKeys(schema, Rows.Initial(schema), op);
  }

  /* ---- Replay ---- */

  /** Operations applied one after another. */
  function ReplayRows(schema: Schema, state: Database, ops: seq<RowOperation>): Option<Database> {
    if ops == [] then Some(state)
    else
      match ReplayRows(schema, state, ops[..|ops| - 1])
      case None => None
      case Some(before) => Apply(schema, before, ToJson(ops[|ops| - 1]))
  }

  /** What the last operation on that key left: its row, or nothing if it was a delete. */
  function LastWrite(schema: Schema, ops: seq<RowOperation>, name: Text, key: Text): Option<Row>
    requires forall op | op in ops :: op.table in schema.tables
  {
    if ops == [] then None
    else
      var op := ops[|ops| - 1];
      if op.table == name && KeyText(schema.tables[name], op) == Some(key) then
        if op.PutRow? then Some(op.row) else None
      else
        assert forall other | other in ops[..|ops| - 1] :: other in ops;
        LastWrite(schema, ops[..|ops| - 1], name, key)
  }

  /** Every stored row is filed under the text of its own key. */
  ghost predicate Filed(schema: Schema, state: Database) {
    forall name, key | name in schema.tables && key in TableRows(state, name) ::
      EncodeRowPrimaryKey(schema.tables[name], TableRows(state, name)[key]) == Some(key)
  }

  /** Under every key of every table stands the last write, filed under its own key. */
  ghost predicate HoldsLastWrites(schema: Schema, ops: seq<RowOperation>, state: Database)
    requires forall op | op in ops :: op.table in schema.tables
  {
    && state.schemaHash == schema.schemaHash
    && (forall name, key :: RowAt(state, name, key) == LastWrite(schema, ops, name, key))
    && Filed(schema, state)
  }

  ghost predicate Appliable(schema: Schema, op: RowOperation) {
    && IsNormal(schema, op) && op.table in schema.tables
    && (op.PutRow? ==> !NullKey(schema.tables[op.table], op.row) && DistinctTexts(schema.tables[op.table].primaryKey))
  }

  /** One operation: it succeeds, and changes the one row under its key. */
  lemma ApplyChangesOneRow(schema: Schema, state: Database, op: RowOperation)
    requires WellFormed(schema) && Appliable(schema, op) && state.schemaHash == schema.schemaHash
    ensures Apply(schema, state, ToJson(op)).Some? && KeyText(schema.tables[op.table], op).Some?
    ensures var next := Apply(schema, state, ToJson(op)).value;
      && next.schemaHash == schema.schemaHash
      && forall name, key :: RowAt(next, name, key) ==
           if op.table == name && KeyText(schema.tables[op.table], op) == Some(key) then
             (if op.PutRow? then Some(op.row) else None)
           else RowAt(state, name, key)
  {
    hide NormalizeFullRow, NormalizePrimaryKey, NullKey, WellFormedTable, EncodeRowPrimaryKey, EncodePrimaryKey, ToJson, Normalize;
    ApplySucceedsExactlyOnSoundKeys(schema, state, op);
  }

  /** A replay of accepted operations leaves, in every table and under every key, the row of the last
      put that no delete followed; and every row is filed under its own key. */
  lemma {:induction false} ReplayIsLastWrite(schema: Schema, ops: seq<RowOperation>)
    requires WellFormed(schema)
    requires forall op | op in ops :: op.table in schema.tables && Appliable(schema, op)
    ensures ReplayRows(schema, Rows.Initial(schema), ops).Some?
    ensures HoldsLastWrites(schema, ops, ReplayRows(schema, Rows.Initial(schema), ops).value)
  {
    hide IsNormal, NullKey, Apply, KeyText, WellFormedTable, EncodeRowPrimaryKey, ToJson;
    if ops == [] {
      return;
    }
    var init, op := ops[..|ops| - 1], ops[|ops| - 1];
    assert forall other | other in init :: other in ops;
    assert op in ops;
    ReplayIsLastWrite(schema, init);
    var before := ReplayRows(schema, Rows.Initial(schema), init).value;
    ApplyChangesOneRow(schema, before, op);
    var state := Apply(schema, before, ToJson(op)).value;
    OneRowStaysFiled(schema, before, state, op);
  }

  lemma OneRowStaysFiled(schema: Schema, before: Database, state: Database, op: RowOperation)
    requires op.table in schema.tables && Filed(schema, before)
    requires forall name, key ::
      (RowAt(state, name, key) ==
        if op.table == name && KeyText(schema.tables[op.table], op) == Some(key) then
          (if op.PutRow? then Some(op.row) else None)
        else RowAt(before, name, key))
    ensures Filed(schema, state)
  {
    hide EncodeRowPrimaryKey, EncodePrimaryKey;
    forall name, key | name in schema.tables && key in TableRows(state, name)
      ensures EncodeRowPrimaryKey(schema.tables[name], TableRows(state, name)[key]) == Some(key)
    {
      assert RowAt(state, name, key) == Some(TableRows(state, name)[key]);
      assert RowAt(state, name, key) == RowAt(before, name, key) ==> key in TableRows(before, name);
    }
  }
}
