/** src/fingerprint.ts:32-118: which text the canonical text is, character by character. Spelled writes
    a value with the words, escapes, digits and brackets of JSON as they are read (RFC 8259); the
    printer of CanonicalJson is proved to write its code units. */
module JsonText {
  import opened Protocol
  import opened CanonicalJson
  import opened JsonObjects

  /* ---- Spelling ---- */

  const HEX: string := "0123456789abcdef"

  function Numeral(n: nat): string {
    if n < 10 then [HEX[n]] else Numeral(n / 10) + [HEX[n % 10]]
  }

  function SpelledNumber(n: int): string { if n < 0 then "-" + Numeral(-n) else Numeral(n) }

  /** One unit of a string that is not half of a pair. */
  function SpelledUnit(u: Unit): string {
    if u == '\"' as int then "\\\""
    else if u == '\\' as int then "\\\\"
    else if u == 8 then "\\b"
    else if u == 9 then "\\t"
    else if u == 10 then "\\n"
    else if u == 12 then "\\f"
    else if u == 13 then "\\r"
    else if u < 0x20 then "\\u00" + [HEX[u / 16], HEX[u % 16]]
    else if 0xD800 <= u < 0xE000 then "\\ud" + [HEX[u / 0x100 % 16], HEX[u / 16 % 16], HEX[u % 16]]
    else [u as char]
  }

  function SpelledUnits(s: Text): string {
    if s == [] then ""
    else if StartsWithPair(s) then [PairOf(s[0], s[1])] + SpelledUnits(s[2..])
    else SpelledUnit(s[0]) + SpelledUnits(s[1..])
  }

  function SpelledText(s: Text): string { "\"" + SpelledUnits(s) + "\"" }

  function Separated(parts: seq<string>): string {
    if parts == [] then ""
    else if |parts| == 1 then parts[0]
    else parts[0] + "," + Separated(parts[1..])
  }

  function Spelled(j: Json): string {
    match j
    case Null => "null"
    case Bool(value) => if value then "true" else "false"
    case Num(n) => SpelledNumber(n)
    case Str(text) => SpelledText(text)
    case Arr(items) =>
      "[" + Separated(seq(|items|, (i: nat) requires i < |items| => Spelled(items[i]))) + "]"
    case Obj(fields) =>
      "{" + Separated(seq(|fields|, (i: nat) requires i < |fields| =>
              SpelledText(fields[i].key) + ":" + Spelled(fields[i].value))) + "}"
  }

  /** The digits of a numeral stand for the number, the most significant first, and only zero starts
      with a zero. */
  function ValueOf(digits: string): int {
    if digits == "" then 0 else 10 * ValueOf(digits[..|digits| - 1]) + (digits[|digits| - 1] as int - '0' as int)
  }

  lemma {:induction false} NumeralIsDecimal(n: nat)
    ensures ValueOf(Numeral(n)) == n && Numeral(n) != ""
    ensures forall i | 0 <= i < |Numeral(n)| :: '0' <= Numeral(n)[i] <= '9'
    ensures Numeral(n)[0] == '0' ==> n == 0
  {
    if n >= 10 {
      NumeralIsDecimal(n / 10);
      var digits := Numeral(n);
      assert digits[..|digits| - 1] == Numeral(n / 10);
    } else {
      assert Numeral(n)[..0] == "";
    }
  }

  /* ---- Units ---- */

  lemma {:induction false} Utf16Append(s: string, t: string)
    ensures Utf16(s + t) == Utf16(s) + Utf16(t)
  {
    hide UnitsOf;
    if s == "" {
      assert s + t == t;
    } else {
      Utf16Append(s[1..], t);
      assert (s + t)[0] == s[0] && (s + t)[1..] == s[1..] + t;
      assert Utf16(s) == UnitsOf(s[0]) + Utf16(s[1..]);
      assert Utf16(s + t) == UnitsOf(s[0]) + Utf16(s[1..] + t);
    }
  }

  lemma Utf16OfOne(c: char)
    ensures Utf16([c]) == UnitsOf(c)
  {
    assert [c][1..] == "";
  }

  lemma HexDigit(n: int)
    requires 0 <= n < 16
    ensures HEX[n] as int == Hex(n) && Hex(n) < 0x80
  {
  }

  lemma {:induction false} DigitsAreNumeral(n: nat)
    ensures Digits(n) == Utf16(Numeral(n))
  {
    hide Utf16;
    DigitSpelled(n % 10);
    if n >= 10 {
      DigitsAreNumeral(n / 10);
      Utf16Append(Numeral(n / 10), [HEX[n % 10]]);
    }
  }

  lemma DigitSpelled(d: nat)
    requires d < 10
    ensures Utf16([HEX[d]]) == [ZERO + d]
  {
    Utf16OfOne(HEX[d]);
  }

  lemma DecimalIsNumeral(n: int)
    ensures Decimal(n) == Utf16(SpelledNumber(n))
  {
    hide Utf16, Digits, Numeral;
    if n < 0 {
      DigitsAreNumeral(-n);
      WordIs("-", [MINUS]);
      Utf16Append("-", Numeral(-n));
    } else {
      DigitsAreNumeral(n);
    }
  }

  lemma EscapeIsSpelled(u: Unit)
    ensures Escape(u) == Utf16(SpelledUnit(u))
  {
    hide Utf16, UnicodeEscape, HEX;
    if ShortEscape(u) != 0 {
      WordIs(SpelledUnit(u), [BACKSLASH, ShortEscape(u)]);
    } else if u < 0x20 || High(u) || Low(u) {
      FourSpelled(u);
      UnicodeEscapeIsSpelled(u);
    } else {
      Utf16OfOne(u as char);
    }
  }

  lemma UnicodeEscapeIsSpelled(u: Unit)
    ensures UnicodeEscape(u) == Utf16("\\u" + [HEX[u / 0x1000], HEX[u / 0x100 % 16], HEX[u / 16 % 16], HEX[u % 16]])
  {
    HexDigit(u / 0x1000);
    HexDigit(u / 0x100 % 16);
    HexDigit(u / 16 % 16);
    HexDigit(u % 16);
    hide HEX, Hex, Utf16;
    WordIs("\\u" + [HEX[u / 0x1000], HEX[u / 0x100 % 16], HEX[u / 16 % 16], HEX[u % 16]], UnicodeEscape(u));
  }

  lemma FourSpelled(u: Unit)
    requires (u < 0x20 && ShortEscape(u) == 0) || High(u) || Low(u)
    ensures SpelledUnit(u) == "\\u" + [HEX[u / 0x1000], HEX[u / 0x100 % 16], HEX[u / 16 % 16], HEX[u % 16]]
  {
    if u < 0x20 {
      assert u / 0x1000 == 0 && u / 0x100 % 16 == 0 && u / 16 % 16 == u / 16;
    } else {
      assert u / 0x1000 == 0xD;
    }
  }

  lemma {:induction false} EscapedIsSpelled(s: Text)
    ensures Escaped(s) == Utf16(SpelledUnits(s))
  {
    hide Utf16, Escape, SpelledUnit;
    if s == [] {
      WordIs("", []);
    } else if StartsWithPair(s) {
      EscapedIsSpelled(s[2..]);
      Utf16OfOne(PairOf(s[0], s[1]));
      PairIsSplit(s[0], s[1]);
      Utf16Append([PairOf(s[0], s[1])], SpelledUnits(s[2..]));
    } else {
      EscapedIsSpelled(s[1..]);
      EscapeIsSpelled(s[0]);
      Utf16Append(SpelledUnit(s[0]), SpelledUnits(s[1..]));
    }
  }

  lemma PairIsSplit(high: Unit, low: Unit)
    requires High(high) && Low(low)
    ensures UnitsOf(PairOf(high, low)) == [high, low]
  {
  }

  lemma QuoteIsSpelled(s: Text)
    ensures Quote(s) == Utf16(SpelledText(s))
  {
    hide Utf16, Escaped, SpelledUnits;
    EscapedIsSpelled(s);
    WordIs("\"", [QUOTE]);
    Utf16Append("\"", SpelledUnits(s));
    Utf16Append("\"" + SpelledUnits(s), "\"");
  }

  lemma {:induction false} JoinIsSeparated(texts: seq<Text>, parts: seq<string>)
    requires |texts| == |parts| && forall i | 0 <= i < |parts| :: texts[i] == Utf16(parts[i])
    ensures Join(texts) == Utf16(Separated(parts))
  {
    hide Utf16;
    WordIs("", []);
    WordIs(",", [COMMA]);
    if |parts| > 1 {
      JoinIsSeparated(texts[1..], parts[1..]);
      Utf16Append(parts[0], ",");
      Utf16Append(parts[0] + ",", Separated(parts[1..]));
    }
  }

  /* ---- Values ---- */

  lemma EnclosedIsSpelled(open: string, parts: seq<string>, close: string, first: Unit, texts: seq<Text>, last: Unit)
    requires |texts| == |parts| && forall i | 0 <= i < |parts| :: texts[i] == Utf16(parts[i])
    requires |open| == |close| == 1 && open[0] as int == first < 0x80 && close[0] as int == last < 0x80
    ensures [first] + Join(texts) + [last] == Utf16(open + Separated(parts) + close)
  {
    hide Utf16, Join, Separated;
    WordIs(open, [first]);
    WordIs(close, [last]);
    JoinIsSeparated(texts, parts);
    Utf16Append(open, Separated(parts));
    Utf16Append(open + Separated(parts), close);
  }

  lemma FieldIsSpelled(key: Text, value: Text, spelled: string)
    requires value == Utf16(spelled)
    ensures Quote(key) + [COLON] + value == Utf16(SpelledText(key) + ":" + spelled)
  {
    hide Utf16, Quote, SpelledText;
    QuoteIsSpelled(key);
    WordIs(":", [COLON]);
    Utf16Append(SpelledText(key), ":");
    Utf16Append(SpelledText(key) + ":", spelled);
  }

  lemma WordsAreSpelled()
    ensures NULL_TEXT == Utf16("null") && TRUE_TEXT == Utf16("true") && FALSE_TEXT == Utf16("false")
  {
    hide Utf16;
    WordIs("null", NULL_TEXT);
    WordIs("true", TRUE_TEXT);
    WordIs("false", FALSE_TEXT);
  }

  /** The printer writes the code units of the spelled text. */
  lemma {:induction false} PrintIsSpelled(j: Json)
    ensures Print(j) == Utf16(Spelled(j))
  {
    hide Utf16, Join, Separated, Quote, SpelledText, Decimal;
    match j
    case Arr(items) =>
      var parts := seq(|items|, (i: nat) requires i < |items| => Spelled(items[i]));
      forall i | 0 <= i < |items| ensures Parts(j)[i] == Utf16(parts[i]) {
        PrintIsSpelled(items[i]);
      }
      EnclosedIsSpelled("[", parts, "]", OPEN, Parts(j), CLOSE);
    case Obj(fields) =>
      var parts := seq(|fields|, (i: nat) requires i < |fields| =>
        SpelledText(fields[i].key) + ":" + Spelled(fields[i].value));
      forall i | 0 <= i < |fields| ensures Parts(j)[i] == Utf16(parts[i]) {
        PrintIsSpelled(fields[i].value);
        FieldIsSpelled(fields[i].key, Print(fields[i].value), Spelled(fields[i].value));
      }
      EnclosedIsSpelled("{", parts, "}", OPEN_BRACE, Parts(j), CLOSE_BRACE);
    case Num(n) => DecimalIsNumeral(n);
    case Str(text) => QuoteIsSpelled(text);
    case Null => WordsAreSpelled();
    case Bool(_) => WordsAreSpelled();
  }

  /* ---- The order of keys ---- */

  /** At the first unit in which they differ the lower one comes first; a proper prefix comes before
      what extends it. */
  ghost predicate Before(s: Text, t: Text) { exists k :: DiffersAt(s, t, k) }

  ghost predicate DiffersAt(s: Text, t: Text, k: nat) {
    && k <= |s| && k < |t| && s[..k] == t[..k]
    && (k == |s| || s[k] < t[k])
  }

  lemma {:induction false} LessIsBefore(s: Text, t: Text)
    ensures Less(s, t) <==> Before(s, t)
  {
    if s != [] && t != [] && s[0] == t[0] {
      LessIsBefore(s[1..], t[1..]);
      if Before(s[1..], t[1..]) {
        var k: nat :| DiffersAt(s[1..], t[1..], k);
        assert s[..k + 1] == [s[0]] + s[1..][..k] && t[..k + 1] == [t[0]] + t[1..][..k];
        assert DiffersAt(s, t, k + 1);
      }
      if Before(s, t) {
        var k: nat :| DiffersAt(s, t, k);
        assert k > 0;
        assert s[1..][..k - 1] == s[..k][1..] && t[1..][..k - 1] == t[..k][1..];
        assert DiffersAt(s[1..], t[1..], k - 1);
      }
    } else if Less(s, t) {
      assert DiffersAt(s, t, 0);
    } else {
      forall k: nat ensures !DiffersAt(s, t, k) {
        FirstUnits(s, t, k);
      }
    }
  }

  lemma FirstUnits(s: Text, t: Text, k: nat)
    requires t == [] || (s != [] && s[0] > t[0])
    ensures !DiffersAt(s, t, k)
  {
    if k > 0 && k <= |s| && k < |t| {
      assert s[..k][0] == s[0] && t[..k][0] == t[0];
    }
  }

  /** In every object of the value, at any depth, the keys stand in that order. */
  ghost predicate KeysAscend(j: Json) {
    match j
    case Arr(items) => forall i | 0 <= i < |items| :: KeysAscend(items[i])
    case Obj(fields) =>
      && (forall i, k | 0 <= i < k < |fields| :: Before(fields[i].key, fields[k].key))
      && (forall i | 0 <= i < |fields| :: KeysAscend(fields[i].value))
    case _ => true
  }

  lemma {:induction false} SortedKeysAscend(j: Json)
    requires Valid(j)
    ensures KeysAscend(SortKeys(j))
  {
    match j
    case Arr(items) =>
      forall i | 0 <= i < |items| ensures KeysAscend(SortKeys(items[i])) {
        SortedKeysAscend(items[i]);
      }
    case Obj(fields) =>
      var fs := SortedValues(j);
      forall i | 0 <= i < |fields| ensures KeysAscend(fs[i].value) {
        SortedKeysAscend(fields[i].value);
      }
      SameDistinctKeys(fields, fs);
      SortFieldsSorts(fs);
      FieldsAscend(fs, SortFields(fs));
    case _ =>
  }

  lemma FieldsAscend(fs: seq<Field>, gs: seq<Field>)
    requires StrictlySorted(gs) && forall g | g in gs :: g in fs
    requires forall i | 0 <= i < |fs| :: KeysAscend(fs[i].value)
    ensures KeysAscend(Obj(gs))
  {
    forall i, k | 0 <= i < k < |gs| ensures Before(gs[i].key, gs[k].key) {
      LessIsBefore(gs[i].key, gs[k].key);
    }
    forall k | 0 <= k < |gs| ensures KeysAscend(gs[k].value) {
      assert gs[k] in gs;
      var i :| 0 <= i < |fs| && fs[i] == gs[k];
    }
  }

  lemma SortedIsEqual(j: Json)
    requires Valid(j)
    ensures JsonEq(j, SortKeys(j))
  {
    hide *;
    SortedIsValid(j);
    SortKeysIsIdempotent(j);
    EqualIsSameSorted(j, SortKeys(j));
    AgreeMeans(j, SortKeys(j));
  }

  /** The canonical text of a value is the spelling of an equal value whose keys ascend in every object. */
  lemma CanonicalTextIsSpelled(j: Json) returns (k: Json)
    requires Valid(j)
    ensures JsonEq(j, k) && KeysAscend(k) && Canon(j) == Utf16(Spelled(k))
  {
    hide *;
    k := SortKeys(j);
    SortedIsEqual(j);
    SortedKeysAscend(j);
    PrintIsSpelled(k);
    CanonMeans(j);
  }

  lemma CanonMeans(j: Json)
    ensures Canon(j) == Print(SortKeys(j))
  {
    hide Print, SortKeys;
  }

  /* ---- Positions ---- */

  /** src/invariants.ts:277-279. The text of a position is the client's identity, NUL and the sequence. */
  lemma PositionKeyIsSpelled(clientId: string, clientSequence: nat)
    ensures PositionKey(Utf16(clientId), clientSequence) == Utf16(clientId + "\0" + Numeral(clientSequence))
  {
    hide Utf16, Digits, Numeral;
    DigitsAreNumeral(clientSequence);
    WordIs("\0", [0]);
    Utf16Append(clientId, "\0");
    Utf16Append(clientId + "\0", Numeral(clientSequence));
  }
}
