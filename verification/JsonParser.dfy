/** JSON.parse on canonical text: a parser for values written without white space, with numbers that
    are integers. Parsing the canonical text of a value gives the value with its keys in order. */
module JsonParser {
  import opened Protocol
  import opened CanonicalJson
  import opened JsonObjects

  datatype Parsed<+T> = Parsed(value: T, rest: Text)

  /* ---- Strings ---- */

  function HexValue(u: Unit): Option<int> {
    if ZERO <= u < ZERO + 10 then Some(u - ZERO)
    else if 0x61 <= u < 0x67 then Some(u - 0x61 + 10)
    else None
  }

  function Unescape(letter: Unit): Option<Unit> {
    if letter == QUOTE then Some(QUOTE)
    else if letter == BACKSLASH then Some(BACKSLASH)
    else if letter == 0x62 then Some(8)
    else if letter == 0x74 then Some(9)
    else if letter == 0x6E then Some(10)
    else if letter == 0x66 then Some(12)
    else if letter == 0x72 then Some(13)
    else None
  }

  /** The four digits after a backslash and a u. */
  function FourHex(t: Text): Option<Unit>
    requires |t| >= 4
  {
    match (HexValue(t[0]), HexValue(t[1]), HexValue(t[2]), HexValue(t[3]))
    case (Some(a), Some(b), Some(c), Some(d)) =>
      var n: int := a * 0x1000 + b * 0x100 + c * 16 + d;
      if 0 <= n < 0x1_0000 then Some(n) else None
    case _ => None
  }

  /** One character of a string: the unit, and what follows. */
  function ParseUnit(t: Text): (r: Option<Parsed<Unit>>)
    requires t != []
    ensures r.Some? ==> |r.value.rest| < |t|
  {
    if t[0] == BACKSLASH then
      if |t| < 2 then None
      else if t[1] == 0x75 then
        if |t| < 6 then None
        else match FourHex(t[2..6]) case None => None case Some(u) => Some(Parsed(u, t[6..]))
      else match Unescape(t[1]) case None => None case Some(u) => Some(Parsed(u, t[2..]))
    else if t[0] < 0x20 then None
    else Some(Parsed(t[0], t[1..]))
  }

  /** What follows an opening quote, up to its closing quote. */
  function ParseText(t: Text): (r: Option<Parsed<Text>>)
    ensures r.Some? ==> |r.value.rest| < |t|
    decreases |t|
  {
    if t == [] then None
    else if t[0] == QUOTE then Some(Parsed([], t[1..]))
    else
      match ParseUnit(t)
      case None => None
      case Some(first) =>
        match ParseText(first.rest)
        case None => None
        case Some(others) => Some(Parsed([first.value] + others.value, others.rest))
  }

  lemma HexIsRead(n: int)
    requires 0 <= n < 16
    ensures HexValue(Hex(n)) == Some(n)
  {
  }

  lemma UnicodeEscapeIsRead(u: Unit, x: Text)
    ensures ParseUnit(UnicodeEscape(u) + x) == Some(Parsed(u, x))
  {
    var t := UnicodeEscape(u) + x;
    HexIsRead(u / 0x1000);
    HexIsRead(u / 0x100 % 16);
    HexIsRead(u / 16 % 16);
    HexIsRead(u % 16);
    FourHexDigits(u);
    assert t[2..6] == UnicodeEscape(u)[2..] && t[6..] == x;
    assert t[0] == BACKSLASH && t[1] == 0x75;
  }

  lemma EscapeIsRead(u: Unit, x: Text)
    ensures ParseUnit(Escape(u) + x) == Some(Parsed(u, x))
    ensures (Escape(u) + x)[0] != QUOTE
  {
    var t := Escape(u) + x;
    if ShortEscape(u) != 0 {
      assert t[0] == BACKSLASH && t[1] == ShortEscape(u) && t[2..] == x;
      assert Unescape(ShortEscape(u)) == Some(u);
    } else if u < 0x20 || High(u) || Low(u) {
      UnicodeEscapeIsRead(u, x);
    } else {
      assert t[0] == u && t[1..] == x;
    }
  }

  lemma {:induction false} QuotedIsRead(s: Text, x: Text)
    ensures ParseText(Escaped(s) + [QUOTE] + x) == Some(Parsed(s, x))
    decreases |s|
  {
    hide *;
    EscapedStarts(s, x);
    if s == [] {
      QuoteEnds(x);
    } else {
      var rest := Escaped(Rest(s)) + [QUOTE] + x;
      QuotedIsRead(Rest(s), x);
      TokenIs(s);
      if StartsWithPair(s) {
        PairIsRead(s, rest);
      } else {
        EscapeIsRead(s[0], rest);
        UnitThenText(Escape(s[0]) + rest, s[0], rest);
      }
    }
  }

  lemma QuoteEnds(x: Text)
    ensures ParseText([QUOTE] + x) == Some(Parsed([], x))
  {
    assert ([QUOTE] + x)[1..] == x;
  }

  lemma TokenIs(s: Text)
    requires s != []
    ensures StartsWithPair(s) ==> Token(s) == s[..2] && |s| >= 2 && [s[0]] + ([s[1]] + Rest(s)) == s
    ensures !StartsWithPair(s) ==> Token(s) == Escape(s[0]) && [s[0]] + Rest(s) == s
  {
    hide Escape;
  }

  lemma UnitThenText(t: Text, u: Unit, rest: Text)
    requires t != [] && t[0] != QUOTE && ParseUnit(t) == Some(Parsed(u, rest)) && ParseText(rest).Some?
    ensures ParseText(t) == Some(Parsed([u] + ParseText(rest).value.value, ParseText(rest).value.rest))
  {
    hide ParseUnit;
  }

  /** Both halves of a surrogate pair stand for themselves. */
  lemma PairIsRead(s: Text, rest: Text)
    requires StartsWithPair(s) && ParseText(rest).Some?
    ensures ParseText(s[..2] + rest) ==
      Some(Parsed([s[0]] + ([s[1]] + ParseText(rest).value.value), ParseText(rest).value.rest))
  {
    var t := s[..2] + rest;
    assert t[0] == s[0] && t[1..][0] == s[1] && t[1..][1..] == rest;
    assert ParseUnit(t) == Some(Parsed(s[0], t[1..]));
    assert ParseUnit(t[1..]) == Some(Parsed(s[1], rest));
    hide ParseUnit, ParseText;
    UnitThenText(t[1..], s[1], rest);
    UnitThenText(t, s[0], t[1..]);
  }

  /* ---- Numbers ---- */

  /** How many digits stand at the front. */
  function DigitRun(t: Text): (n: nat)
    ensures n <= |t|
  {
    if t != [] && IsDigit(t[0]) then 1 + DigitRun(t[1..]) else 0
  }

  function NumberOf(digits: Text): int {
    if digits == [] then 0 else NumberOf(digits[..|digits| - 1]) * 10 + (digits[|digits| - 1] - ZERO)
  }

  function ParseDigits(t: Text): (r: Option<Parsed<int>>)
    ensures r.Some? ==> |r.value.rest| < |t|
  {
    var n := DigitRun(t);
    if n == 0 || (n > 1 && t[0] == ZERO) then None else Some(Parsed(NumberOf(t[..n]), t[n..]))
  }

  lemma {:induction false} RunOfDigits(d: Text, x: Text)
    requires NoDigitFirst(x) && forall i | 0 <= i < |d| :: IsDigit(d[i])
    ensures DigitRun(d + x) == |d|
  {
    if d == [] {
      assert d + x == x;
    } else {
      assert (d + x)[1..] == d[1..] + x && (d + x)[0] == d[0];
      RunOfDigits(d[1..], x);
    }
  }

  lemma {:induction false} DigitsAreRead(n: nat)
    ensures NumberOf(Digits(n)) == n && (|Digits(n)| > 1 ==> Digits(n)[0] != ZERO)
  {
    DigitsAreDigits(n);
    if n < 10 {
      assert Digits(n)[..0] == [];
    } else {
      DigitsAreRead(n / 10);
      DigitsAreDigits(n / 10);
      var d := Digits(n);
      assert d[..|d| - 1] == Digits(n / 10) && d[|d| - 1] == ZERO + n % 10;
      assert d[0] == Digits(n / 10)[0];
      FirstDigit(n / 10);
    }
  }

  lemma FirstDigit(n: nat)
    requires n > 0 && (|Digits(n)| > 1 ==> Digits(n)[0] != ZERO)
    ensures |Digits(n)| > 0 && Digits(n)[0] != ZERO
  {
    DigitsAreDigits(n);
    if n >= 10 {
      DigitsAreDigits(n / 10);
    }
  }

  lemma NaturalIsRead(n: nat, x: Text)
    requires NoDigitFirst(x)
    ensures ParseDigits(Digits(n) + x) == Some(Parsed(n, x))
  {
    hide Digits, NumberOf, NoDigitFirst;
    var d := Digits(n);
    DigitsAreDigits(n);
    DigitsAreRead(n);
    RunOfDigits(d, x);
    assert (d + x)[..|d|] == d && (d + x)[|d|..] == x && (d + x)[0] == d[0];
  }

  /* ---- Values ---- */

  predicate StartsWith(t: Text, word: Text) { |word| <= |t| && t[..|word|] == word }

  function ParseValue(t: Text): (r: Option<Parsed<Json>>)
    ensures r.Some? ==> |r.value.rest| < |t|
    decreases |t|, 0
  {
    if t == [] then None
    else if StartsWith(t, NULL_TEXT) then Some(Parsed(Null, t[4..]))
    else if StartsWith(t, TRUE_TEXT) then Some(Parsed(Bool(true), t[4..]))
    else if StartsWith(t, FALSE_TEXT) then Some(Parsed(Bool(false), t[5..]))
    else if t[0] == QUOTE then
      match ParseText(t[1..]) case None => None case Some(s) => Some(Parsed(Str(s.value), s.rest))
    else if t[0] == MINUS then
      match ParseDigits(t[1..]) case None => None case Some(n) => Some(Parsed(Num(-n.value), n.rest))
    else if t[0] == OPEN then
      if StartsWith(t[1..], [CLOSE]) then Some(Parsed(Arr([]), t[2..]))
      else match ParseItems(t[1..]) case None => None case Some(items) => Some(Parsed(Arr(items.value), items.rest))
    else if t[0] == OPEN_BRACE then
      if StartsWith(t[1..], [CLOSE_BRACE]) then Some(Parsed(Obj([]), t[2..]))
      else match ParseFields(t[1..]) case None => None case Some(fields) => Some(Parsed(Obj(fields.value), fields.rest))
    else
      match ParseDigits(t) case None => None case Some(n) => Some(Parsed(Num(n.value), n.rest))
  }

  /** At least one item, up to the closing bracket. */
  function ParseItems(t: Text): (r: Option<Parsed<seq<Json>>>)
    ensures r.Some? ==> |r.value.rest| < |t|
    decreases |t|, 1
  {
    match ParseValue(t)
    case None => None
    case Some(item) =>
      if StartsWith(item.rest, [CLOSE]) then Some(Parsed([item.value], item.rest[1..]))
      else if StartsWith(item.rest, [COMMA]) then
        match ParseItems(item.rest[1..])
        case None => None
        case Some(items) => Some(Parsed([item.value] + items.value, items.rest))
      else None
  }

  function ParseField(t: Text): (r: Option<Parsed<Field>>)
    ensures r.Some? ==> |r.value.rest| < |t|
    decreases |t|, 1
  {
    if !StartsWith(t, [QUOTE]) then None
    else
      match ParseText(t[1..])
      case None => None
      case Some(key) =>
        if !StartsWith(key.rest, [COLON]) then None
        else
          match ParseValue(key.rest[1..])
          case None => None
          case Some(value) => Some(Parsed(Field(key.value, value.value), value.rest))
  }

  function ParseFields(t: Text): (r: Option<Parsed<seq<Field>>>)
    ensures r.Some? ==> |r.value.rest| < |t|
    decreases |t|, 2
  {
    match ParseField(t)
    case None => None
    case Some(field) =>
      if StartsWith(field.rest, [CLOSE_BRACE]) then Some(Parsed([field.value], field.rest[1..]))
      else if StartsWith(field.rest, [COMMA]) then
        match ParseFields(field.rest[1..])
        case None => None
        case Some(fields) => Some(Parsed([field.value] + fields.value, fields.rest))
      else None
  }

  function Parse(t: Text): Option<Json> {
    match ParseValue(t)
    case None => None
    case Some(j) => if j.rest == [] then Some(j.value) else None
  }

  /* ---- Parsing what was printed ---- */

  lemma WordIsRead(word: Text, x: Text)
    ensures StartsWith(word + x, word) && (word + x)[|word|..] == x
    ensures forall other: Text | other != [] && word != [] && other[0] != word[0] :: !StartsWith(word + x, other)
  {
    assert (word + x)[..|word|] == word;
    forall other: Text | other != [] && word != [] && other[0] != word[0] ensures !StartsWith(word + x, other) {
      assert (word + x)[0] == word[0];
      assert |other| <= |word + x| ==> (word + x)[..|other|][0] == word[0];
    }
  }

  /** A text that starts with this unit starts with no word that begins otherwise. */
  lemma OtherStart(t: Text, word: Text)
    requires t != [] && word != [] && t[0] != word[0]
    ensures !StartsWith(t, word)
  {
    assert |word| <= |t| ==> t[..|word|][0] == t[0];
  }

  lemma NoWord(t: Text)
    requires t != [] && t[0] != NULL_TEXT[0] && t[0] != TRUE_TEXT[0] && t[0] != FALSE_TEXT[0]
    ensures !StartsWith(t, NULL_TEXT) && !StartsWith(t, TRUE_TEXT) && !StartsWith(t, FALSE_TEXT)
  {
    hide StartsWith;
    OtherStart(t, NULL_TEXT);
    OtherStart(t, TRUE_TEXT);
    OtherStart(t, FALSE_TEXT);
  }

  lemma BoolIsRead(value: bool, x: Text)
    ensures ParseValue(Print(Bool(value)) + x) == Some(Parsed(Bool(value), x))
  {
    hide StartsWith;
    WordIsRead(if value then TRUE_TEXT else FALSE_TEXT, x);
  }

  lemma NumberIsRead(n: int, x: Text)
    requires NoDigitFirst(x)
    ensures ParseValue(Print(Num(n)) + x) == Some(Parsed(Num(n), x))
  {
    hide StartsWith, ParseDigits, Digits, NoDigitFirst;
    var t := Decimal(n) + x;
    DecimalStarts(n, x);
    NoWord(t);
    if n < 0 {
      assert t[1..] == Digits(-n) + x;
      NaturalIsRead(-n, x);
    } else {
      NaturalIsRead(n, x);
    }
  }

  lemma StringIsRead(s: Text, x: Text)
    ensures ParseValue(Print(Str(s)) + x) == Some(Parsed(Str(s), x))
  {
    hide StartsWith, ParseText, Escaped;
    var t := Quote(s) + x;
    assert t == [QUOTE] + (Escaped(s) + [QUOTE] + x);
    assert t[0] == QUOTE && t[1..] == Escaped(s) + [QUOTE] + x;
    NoWord(t);
    QuotedIsRead(s, x);
  }

  lemma {:induction false} PrintIsRead(j: Json, x: Text)
    requires Ends(x)
    ensures ParseValue(Print(j) + x) == Some(Parsed(j, x))
    decreases j, 3
  {
    match j
    case Null => hide StartsWith; WordIsRead(NULL_TEXT, x);
    case Bool(value) => BoolIsRead(value, x);
    case Num(n) => NumberIsRead(n, x);
    case Str(s) => StringIsRead(s, x);
    case Arr(items) =>
      hide *;
      ListIsRead(j, x);
      if items != [] {
        ItemsAreRead(j, 0, x);
        WholeParts(Parts(j));
        WholeList(items);
        ArrayIsRead(j, Join(Parts(j)) + [Closing(j)] + x, x);
      }
    case Obj(fields) =>
      hide *;
      ListIsRead(j, x);
      if fields != [] {
        FieldsAreRead(j, 0, x);
        WholeParts(Parts(j));
        WholeList(fields);
        ObjectIsRead(j, Join(Parts(j)) + [Closing(j)] + x, x);
      }
  }

  lemma ListIsRead(j: Json, x: Text)
    requires IsList(j)
    ensures var body := Join(Parts(j)) + [Closing(j)] + x;
      && Print(j) + x == [Opening(j)] + body
      && (Size(j) > 0 ==> !StartsWith(body, [CLOSE]) && !StartsWith(body, [CLOSE_BRACE]))
      && (Size(j) == 0 ==> ParseValue(Print(j) + x) == Some(Parsed(j, x)))
  {
    hide *;
    ListText(j, x);
    JoinFrom(Parts(j), 0, [Closing(j)], x);
    WholeParts(Parts(j));
    if Size(j) == 0 {
      EmptyIsRead(j, x);
    } else {
      PartStarts(j, 0);
      SomePartFirst(j, Join(Parts(j)) + [Closing(j)] + x);
    }
  }

  lemma WholeParts(parts: seq<Text>)
    ensures parts[0..] == parts
  {
  }

  lemma WholeList<T>(xs: seq<T>)
    ensures xs[0..] == xs
  {
  }

  lemma EmptyIsRead(j: Json, x: Text)
    requires IsList(j) && Size(j) == 0 && Print(j) + x == [Opening(j)] + (Join(Parts(j)) + [Closing(j)] + x)
    ensures ParseValue(Print(j) + x) == Some(Parsed(j, x))
  {
    hide Print;
    assert Join(Parts(j)) == [];
    var t := [Opening(j), Closing(j)] + x;
    assert Print(j) + x == t;
    assert t[1..] == [Closing(j)] + x && t[2..] == x;
    WordIsRead([Closing(j)], x);
    hide StartsWith;
    NoWord(t);
  }

  /** A list with parts does not close at once. */
  lemma SomePartFirst(j: Json, body: Text)
    requires IsList(j) && Size(j) > 0 && Parts(j)[0] != []
    requires Parts(j)[0][0] != CLOSE && Parts(j)[0][0] != CLOSE_BRACE
    requires exists rest :: body == Parts(j)[0] + rest
    ensures !StartsWith(body, [CLOSE]) && !StartsWith(body, [CLOSE_BRACE])
  {
    hide Parts;
    var rest :| body == Parts(j)[0] + rest;
    assert body[0] == Parts(j)[0][0];
    OtherStart(body, [CLOSE]);
    OtherStart(body, [CLOSE_BRACE]);
  }

  lemma ArrayIsRead(j: Json, body: Text, x: Text)
    requires j.Arr? && Print(j) + x == [Opening(j)] + body && !StartsWith(body, [CLOSE])
    requires ParseItems(body) == Some(Parsed(j.items, x))
    ensures ParseValue(Print(j) + x) == Some(Parsed(j, x))
  {
    hide Print, StartsWith, ParseItems;
    var t := [OPEN] + body;
    assert t[0] == OPEN && t[1..] == body;
    NoWord(t);
  }

  lemma ObjectIsRead(j: Json, body: Text, x: Text)
    requires j.Obj? && Print(j) + x == [Opening(j)] + body && !StartsWith(body, [CLOSE_BRACE])
    requires ParseFields(body) == Some(Parsed(j.fields, x))
    ensures ParseValue(Print(j) + x) == Some(Parsed(j, x))
  {
    hide Print, StartsWith, ParseFields;
    var t := [OPEN_BRACE] + body;
    assert t[0] == OPEN_BRACE && t[1..] == body;
    NoWord(t);
  }

  /** What follows a part: the rest of the list after a comma, or the end of the list. */
  function After(j: Json, i: nat, x: Text): Text
    requires IsList(j) && i < Size(j)
  {
    if i + 1 < Size(j) then [COMMA] + (Join(Parts(j)[i + 1..]) + [Closing(j)] + x) else [Closing(j)] + x
  }

  lemma AfterPart(j: Json, i: nat, x: Text)
    requires IsList(j) && i < Size(j)
    ensures Join(Parts(j)[i..]) + [Closing(j)] + x == Part(j, i) + After(j, i, x)
    ensures Ends(After(j, i, x))
    ensures if i + 1 < Size(j) then
        && StartsWith(After(j, i, x), [COMMA]) && !StartsWith(After(j, i, x), [Closing(j)])
        && After(j, i, x)[1..] == Join(Parts(j)[i + 1..]) + [Closing(j)] + x
      else StartsWith(After(j, i, x), [Closing(j)]) && After(j, i, x)[1..] == x
  {
    hide Part, Print, Join;
    JoinFrom(Parts(j), i, [Closing(j)], x);
    PartStarts(j, i);
    var after := After(j, i, x);
    assert after[..1] == [after[0]];
  }

  lemma {:induction false} ItemsAreRead(j: Json, i: nat, x: Text)
    requires j.Arr? && i < |j.items|
    ensures ParseItems(Join(Parts(j)[i..]) + [Closing(j)] + x) == Some(Parsed(j.items[i..], x))
    decreases j, 2, |j.items| - i
  {
    hide *;
    ItemOfArray(j, i);
    AfterPart(j, i, x);
    PrintIsRead(j.items[i], After(j, i, x));
    if i + 1 < |j.items| {
      ItemsAreRead(j, i + 1, x);
      MoreItems(Part(j, i) + After(j, i, x), After(j, i, x), j.items, i, x);
    } else {
      LastItem(Part(j, i) + After(j, i, x), After(j, i, x), j.items, i);
    }
  }

  lemma ItemOfArray(j: Json, i: nat)
    requires j.Arr? && i < |j.items|
    ensures Part(j, i) == Print(j.items[i]) && Size(j) == |j.items| && Closing(j) == CLOSE && IsList(j)
  {
    hide Print;
  }

  lemma MoreItems(t: Text, after: Text, items: seq<Json>, i: nat, x: Text)
    requires i + 1 < |items| && ParseValue(t) == Some(Parsed(items[i], after))
    requires StartsWith(after, [COMMA]) && !StartsWith(after, [CLOSE])
    requires ParseItems(after[1..]) == Some(Parsed(items[i + 1..], x))
    ensures ParseItems(t) == Some(Parsed(items[i..], x))
  {
    hide ParseValue, StartsWith;
    assert items[i..] == [items[i]] + items[i + 1..];
  }

  lemma LastItem(t: Text, after: Text, items: seq<Json>, i: nat)
    requires i + 1 == |items| && ParseValue(t) == Some(Parsed(items[i], after)) && StartsWith(after, [CLOSE])
    ensures |after| > 0 && ParseItems(t) == Some(Parsed(items[i..], after[1..]))
  {
    hide ParseValue;
    assert items[i..] == [items[i]];
  }

  lemma {:induction false} FieldIsRead(j: Json, i: nat, rest: Text)
    requires j.Obj? && i < |j.fields| && Ends(rest)
    ensures ParseField(Part(j, i) + rest) == Some(Parsed(j.fields[i], rest))
    decreases j, 1
  {
    hide *;
    var f := j.fields[i];
    PrintIsRead(f.value, rest);
    FieldText(j, i, rest);
    var afterKey := [COLON] + (Print(f.value) + rest);
    QuotedIsRead(f.key, afterKey);
    FieldFrom(f, Escaped(f.key) + [QUOTE] + afterKey, Print(f.value) + rest, rest);
  }

  lemma FieldText(j: Json, i: nat, rest: Text)
    requires j.Obj? && i < |j.fields|
    ensures var f := j.fields[i];
      Part(j, i) + rest == [QUOTE] + (Escaped(f.key) + [QUOTE] + ([COLON] + (Print(f.value) + rest)))
  {
    hide Print, Escaped;
  }

  lemma FieldFrom(f: Field, quoted: Text, printed: Text, rest: Text)
    requires ParseText(quoted) == Some(Parsed(f.key, [COLON] + printed))
    requires ParseValue(printed) == Some(Parsed(f.value, rest))
    ensures ParseField([QUOTE] + quoted) == Some(Parsed(f, rest))
  {
    hide ParseText, ParseValue, StartsWith;
    WordIsRead([QUOTE], quoted);
    WordIsRead([COLON], printed);
  }

  lemma {:induction false} FieldsAreRead(j: Json, i: nat, x: Text)
    requires j.Obj? && i < |j.fields|
    ensures ParseFields(Join(Parts(j)[i..]) + [Closing(j)] + x) == Some(Parsed(j.fields[i..], x))
    decreases j, 2, |j.fields| - i
  {
    hide *;
    ObjectParts(j);
    AfterPart(j, i, x);
    FieldIsRead(j, i, After(j, i, x));
    if i + 1 < |j.fields| {
      FieldsAreRead(j, i + 1, x);
      MoreFields(Part(j, i) + After(j, i, x), After(j, i, x), j.fields, i, x);
    } else {
      LastField(Part(j, i) + After(j, i, x), After(j, i, x), j.fields, i);
    }
  }

  lemma ObjectParts(j: Json)
    requires j.Obj?
    ensures Size(j) == |j.fields| && Closing(j) == CLOSE_BRACE && IsList(j)
  {
  }

  lemma MoreFields(t: Text, after: Text, fields: seq<Field>, i: nat, x: Text)
    requires i + 1 < |fields| && ParseField(t) == Some(Parsed(fields[i], after))
    requires StartsWith(after, [COMMA]) && !StartsWith(after, [CLOSE_BRACE])
    requires ParseFields(after[1..]) == Some(Parsed(fields[i + 1..], x))
    ensures ParseFields(t) == Some(Parsed(fields[i..], x))
  {
    hide ParseField, StartsWith;
    assert fields[i..] == [fields[i]] + fields[i + 1..];
  }

  lemma LastField(t: Text, after: Text, fields: seq<Field>, i: nat)
    requires i + 1 == |fields| && ParseField(t) == Some(Parsed(fields[i], after)) && StartsWith(after, [CLOSE_BRACE])
    ensures |after| > 0 && ParseFields(t) == Some(Parsed(fields[i..], after[1..]))
  {
    hide ParseField;
    assert fields[i..] == [fields[i]];
  }

  /** Parsing canonical text gives the value back, with its keys in order. */
  lemma CanonicalIsParsed(j: Json)
    ensures Parse(Canon(j)) == Some(SortKeys(j))
  {
    hide *;
    CanonIs(j);
    NothingEnds();
    PrintIsRead(SortKeys(j), []);
    WholeIsParsed(Canon(j), SortKeys(j));
  }

  lemma WholeIsParsed(t: Text, j: Json)
    requires ParseValue(t) == Some(Parsed(j, []))
    ensures Parse(t) == Some(j)
  {
    hide ParseValue;
  }

  /** JSON.parse(canonicalizeJson(value)): what toJsonValue returns. */
  function ToJsonValue(j: Json): (r: Json)
    ensures r == SortKeys(j)
  {
    CanonicalIsParsed(j);
    Parse(Canon(j)).value
  }

  /** Going through text again changes neither the value nor its text. */
  lemma ToJsonValueIsIdempotent(j: Json)
    requires Valid(j)
    ensures ToJsonValue(ToJsonValue(j)) == ToJsonValue(j)
    ensures Canon(ToJsonValue(j)) == Canon(j)
    ensures JsonEq(ToJsonValue(j), j)
  {
    hide ToJsonValue;
    SortKeysIsIdempotent(j);
    SortedIsValid(j);
    CanonIs(j);
    CanonIs(SortKeys(j));
    CanonicalTextIsEquality(SortKeys(j), j);
  }
}
