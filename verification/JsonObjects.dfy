/** Properties of JSON objects, and what becomes of them when the object goes through its canonical
    text: JSON.parse of that text is the value with its keys in order. */
module JsonObjects {
  import opened Protocol
  import opened CanonicalJson

  /** The value of a property; None stands for undefined. */
  function Lookup(fields: seq<Field>, key: Text): Option<Json> {
    if fields == [] then None
    else if fields[0].key == key then Some(fields[0].value)
    else Lookup(fields[1..], key)
  }

  lemma {:induction false} LookupAt(fields: seq<Field>, i: nat)
    requires DistinctKeys(fields) && i < |fields|
    ensures Lookup(fields, fields[i].key) == Some(fields[i].value)
  {
    if i > 0 {
      LookupAt(fields[1..], i - 1);
    }
  }

  lemma {:induction false} LookupFound(fields: seq<Field>, key: Text)
    ensures Lookup(fields, key).Some? <==> exists i :: 0 <= i < |fields| && fields[i].key == key
    ensures Lookup(fields, key).Some? ==> Field(key, Lookup(fields, key).value) in fields
  {
    if fields != [] {
      LookupFound(fields[1..], key);
      if fields[0].key != key && Lookup(fields, key).Some? {
        var i :| 0 <= i < |fields[1..]| && fields[1..][i].key == key;
        assert fields[i + 1].key == key;
      }
      if fields[0].key != key && exists i :: 0 <= i < |fields| && fields[i].key == key {
        var i :| 0 <= i < |fields| && fields[i].key == key;
        assert fields[1..][i - 1].key == key;
      }
    }
  }

  lemma {:induction false} SortedStaysSorted(fields: seq<Field>)
    requires StrictlySorted(fields)
    ensures SortFields(fields) == fields
  {
    SortedIsDistinct(fields);
    SortFieldsSorts(fields);
    SortedIsUnique(SortFields(fields), fields);
  }

  lemma SortedIsDistinct(fields: seq<Field>)
    requires StrictlySorted(fields)
    ensures DistinctKeys(fields)
  {
    forall i, j | 0 <= i < j < |fields| ensures fields[i].key != fields[j].key {
      LessIsTotal(fields[i].key, fields[j].key);
      assert Less(fields[i].key, fields[j].key);
    }
  }

  /** A value that went through its canonical text once is not changed by going again. */
  lemma {:induction false} SortKeysIsIdempotent(j: Json)
    requires Valid(j)
    ensures SortKeys(SortKeys(j)) == SortKeys(j)
  {
    match j
    case Arr(items) =>
      forall i | 0 <= i < |items| ensures SortKeys(SortKeys(items[i])) == SortKeys(items[i]) {
        SortKeysIsIdempotent(items[i]);
      }
      assert SortKeys(SortKeys(j)).items == SortKeys(j).items;
    case Obj(fields) =>
      var fs := SortedValues(j);
      forall i | 0 <= i < |fields| ensures SortedField(fs[i]) == fs[i] {
        SortKeysIsIdempotent(fields[i].value);
      }
      SameDistinctKeys(fields, fs);
      SortFieldsSorts(fs);
      AlreadySorted(j, fs);
    case _ =>
  }

  lemma AlreadySorted(j: Json, fs: seq<Field>)
    requires j.Obj? && fs == SortedValues(j) && StrictlySorted(SortFields(fs))
    requires forall i | 0 <= i < |fs| :: SortedField(fs[i]) == fs[i]
    ensures SortKeys(SortKeys(j)) == SortKeys(j)
  {
    hide SortKeys;
    SortKeysOfObject(j);
    SortKeysOfObject(Obj(SortFields(fs)));
    SortedValuesAre(Obj(SortFields(fs)));
    SortKeysThenValues(fs);
    assert SortedEach(fs) == fs;
    SortedStaysSorted(SortFields(fs));
  }

  lemma SortKeysOfObject(j: Json)
    requires j.Obj?
    ensures SortKeys(j) == Obj(SortFields(SortedValues(j)))
  {
  }

  lemma {:induction false} SortedIsValid(j: Json)
    requires Valid(j)
    ensures Valid(SortKeys(j))
  {
    match j
    case Arr(items) =>
      forall i | 0 <= i < |items| ensures Valid(SortKeys(items[i])) {
        SortedIsValid(items[i]);
      }
    case Obj(fields) =>
      var fs := SortedValues(j);
      forall i | 0 <= i < |fields| ensures Valid(fs[i].value) {
        SortedIsValid(fields[i].value);
      }
      SameDistinctKeys(fields, fs);
      SortFieldsSorts(fs);
      SortedIsDistinct(SortFields(fs));
      MembersAreValid(fs, SortFields(fs));
    case _ =>
  }

  lemma MembersAreValid(fs: seq<Field>, gs: seq<Field>)
    requires DistinctKeys(gs) && forall g | g in gs :: g in fs
    requires forall i | 0 <= i < |fs| :: Valid(fs[i].value)
    ensures Valid(Obj(gs))
  {
    forall k | 0 <= k < |gs| ensures Valid(gs[k].value) {
      assert gs[k] in gs;
      var i :| 0 <= i < |fs| && fs[i] == gs[k];
    }
  }

  /** Reading a property after the round through text gives the value after that round. */
  lemma SortedLookup(fields: seq<Field>, i: nat)
    requires DistinctKeys(fields) && i < |fields|
    ensures SortKeys(Obj(fields)).Obj?
    ensures Lookup(SortKeys(Obj(fields)).fields, fields[i].key) == Some(SortKeys(fields[i].value))
  {
    var fs := SortedValues(Obj(fields));
    SameDistinctKeys(fields, fs);
    SortFieldsSorts(fs);
    SortedIsDistinct(SortFields(fs));
    hide SortFields;
    assert fs[i] in fs && fs[i] in SortFields(fs);
    var k :| 0 <= k < |SortFields(fs)| && SortFields(fs)[k] == fs[i];
    LookupAt(SortFields(fs), k);
  }

  /* ---- Text ---- */

  /** The UTF-16 code units of one character. */
  function UnitsOf(c: char): Text {
    var n: int := c as int;
    if n < 0x1_0000 then [n]
    else
      var above: int := n - 0x1_0000;
      var high: int, low: int := 0xD800 + above / 0x400, 0xDC00 + above % 0x400;
      [high, low]
  }

  function Utf16(s: string): Text {
    if s == "" then [] else UnitsOf(s[0]) + Utf16(s[1..])
  }

  /** ASCII text is its own code units. */
  lemma {:induction false} WordIs(s: string, t: Text)
    requires |s| == |t| && forall i | 0 <= i < |s| :: s[i] as int == t[i] < 0x80
    ensures Utf16(s) == t
  {
    if s != "" {
      WordIs(s[1..], t[1..]);
      assert t == [t[0]] + t[1..];
    }
  }

  /** The character that a surrogate pair stands for. */
  function PairOf(high: int, low: int): char
    requires 0xD800 <= high < 0xDC00 && 0xDC00 <= low < 0xE000
  {
    (0x1_0000 + (high - 0xD800) * 0x400 + (low - 0xDC00)) as char
  }

  /** The string that the units spell; None if a surrogate stands alone. */
  function FromUtf16(t: Text): Option<string> {
    if t == [] then Some("")
    else if StartsWithPair(t) then
      match FromUtf16(t[2..])
      case None => None
      case Some(rest) => Some([PairOf(t[0], t[1])] + rest)
    else if High(t[0]) || Low(t[0]) then None
    else
      match FromUtf16(t[1..])
      case None => None
      case Some(rest) => Some([t[0] as char] + rest)
  }

  lemma {:induction false} Utf16RoundTrip(s: string)
    ensures FromUtf16(Utf16(s)) == Some(s)
  {
    if s != "" {
      Utf16RoundTrip(s[1..]);
      var units, rest := UnitsOf(s[0]), Utf16(s[1..]);
      var t := units + rest;
      assert s == [s[0]] + s[1..];
      if s[0] as int < 0x1_0000 {
        assert t[0] == s[0] as int && t[1..] == rest;
      } else {
        assert t[0] == units[0] && t[1] == units[1] && t[2..] == rest;
        assert High(t[0]) && Low(t[1]);
      }
    }
  }

  lemma Utf16IsInjective(s: string, t: string)
    requires Utf16(s) == Utf16(t)
    ensures s == t
  {
    Utf16RoundTrip(s);
    Utf16RoundTrip(t);
  }
}
