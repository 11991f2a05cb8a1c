/** src/fingerprint.ts: the canonical text of a JSON value. Strings are sequences of UTF-16 code
    units, as in JavaScript; numbers are integers. Two values have the same text if and only if they
    are equal as JSON values, whatever the order of their keys. (RFC 8259, sections 2 to 7) */
module CanonicalJson {
  type Unit = u: int | 0 <= u < 0x1_0000
  type Text = seq<Unit>

  datatype Json =
    | Null
    | Bool(value: bool)
    | Num(number: int)
    | Str(text: Text)
    | Arr(items: seq<Json>)
    | Obj(fields: seq<Field>)

  datatype Field = Field(key: Text, value: Json)

  /* ---- Characters ---- */

  const QUOTE: Unit := 0x22
  const COMMA: Unit := 0x2C
  const MINUS: Unit := 0x2D
  const ZERO: Unit := 0x30
  const COLON: Unit := 0x3A
  const OPEN: Unit := 0x5B
  const BACKSLASH: Unit := 0x5C
  const CLOSE: Unit := 0x5D
  const OPEN_BRACE: Unit := 0x7B
  const CLOSE_BRACE: Unit := 0x7D

  const NULL_TEXT: Text := [0x6E, 0x75, 0x6C, 0x6C]
  const TRUE_TEXT: Text := [0x74, 0x72, 0x75, 0x65]
  const FALSE_TEXT: Text := [0x66, 0x61, 0x6C, 0x73, 0x65]

  /* ---- Strings ---- */

  predicate High(u: Unit) { 0xD800 <= u < 0xDC00 }
  predicate Low(u: Unit) { 0xDC00 <= u < 0xE000 }

  function Hex(n: int): Unit
    requires 0 <= n < 16
  {
    if n < 10 then ZERO + n else 0x61 + n - 10
  }

  function UnicodeEscape(u: Unit): Text {
    [BACKSLASH, 0x75, Hex(u / 0x1000), Hex(u / 0x100 % 16), Hex(u / 16 % 16), Hex(u % 16)]
  }

  /** The letter after the backslash, for the units that have a short escape; zero for the others. */
  function ShortEscape(u: Unit): Unit {
    if u == QUOTE then QUOTE
    else if u == BACKSLASH then BACKSLASH
    else if u == 8 then 0x62
    else if u == 9 then 0x74
    else if u == 10 then 0x6E
    else if u == 12 then 0x66
    else if u == 13 then 0x72
    else 0
  }

  /** One unit that is not half of a surrogate pair. */
  function Escape(u: Unit): Text {
    if ShortEscape(u) != 0 then [BACKSLASH, ShortEscape(u)]
    else if u < 0x20 || High(u) || Low(u) then UnicodeEscape(u)
    else [u]
  }

  predicate StartsWithPair(s: Text) { |s| >= 2 && High(s[0]) && Low(s[1]) }

  /** What JSON.stringify writes between the quotes. */
  function Escaped(s: Text): Text {
    if s == [] then []
    else if StartsWithPair(s) then s[..2] + Escaped(s[2..])
    else Escape(s[0]) + Escaped(s[1..])
  }

  function Quote(s: Text): Text { [QUOTE] + Escaped(s) + [QUOTE] }

  /** The units that the first written token stands for, and the token. */
  function First(s: Text): Text
    requires s != []
  {
    if StartsWithPair(s) then s[..2] else s[..1]
  }

  function Token(s: Text): Text
    requires s != []
  {
    if StartsWithPair(s) then s[..2] else Escape(s[0])
  }

  /** Texts of equal length at the front of equal texts are equal, and so is what follows them. */
  lemma SameFront<T>(a: seq<T>, b: seq<T>, x: seq<T>, y: seq<T>)
    requires a + x == b + y && |a| == |b|
    ensures a == b && x == y
  {
    assert a == (a + x)[..|a|] && b == (b + y)[..|a|];
    assert x == (a + x)[|a|..] && y == (b + y)[|a|..];
  }

  lemma HexIsInjective(m: int, n: int)
    requires 0 <= m < 16 && 0 <= n < 16 && Hex(m) == Hex(n)
    ensures m == n
  {
  }

  lemma FourHexDigits(u: Unit)
    ensures u == u / 0x1000 * 0x1000 + u / 0x100 % 16 * 0x100 + u / 16 % 16 * 16 + u % 16
  {
    Halves(u, 16);
    Halves(u / 16, 16);
    Halves(u / 0x100, 16);
    assert u / 0x100 == u / 16 / 16 && u / 0x1000 == u / 0x100 / 16;
  }

  lemma Halves(n: nat, d: nat)
    requires d > 0
    ensures n == n / d * d + n % d
  {
  }

  lemma UnicodeEscapeIsInjective(u: Unit, v: Unit, x: Text, y: Text)
    requires UnicodeEscape(u) + x == UnicodeEscape(v) + y
    ensures u == v && x == y
  {
    SameFront(UnicodeEscape(u), UnicodeEscape(v), x, y);
    var e, f := UnicodeEscape(u), UnicodeEscape(v);
    assert e[2] == f[2] && e[3] == f[3] && e[4] == f[4] && e[5] == f[5];
    HexIsInjective(u / 0x1000, v / 0x1000);
    HexIsInjective(u / 0x100 % 16, v / 0x100 % 16);
    HexIsInjective(u / 16 % 16, v / 16 % 16);
    HexIsInjective(u % 16, v % 16);
    FourHexDigits(u);
    FourHexDigits(v);
  }

  lemma ShortEscapeIsInjective(u: Unit, v: Unit)
    requires ShortEscape(u) == ShortEscape(v) != 0
    ensures u == v
  {
  }

  /** A token can be told from what follows, and tells the units it stands for. */
  lemma EscapeIsUnambiguous(u: Unit, v: Unit, x: Text, y: Text)
    requires Escape(u) + x == Escape(v) + y
    ensures u == v && x == y
  {
    var s, t := Escape(u) + x, Escape(v) + y;
    assert s[0] == Escape(u)[0] && t[0] == Escape(v)[0];
    if s[0] == BACKSLASH {
      assert s[1] == Escape(u)[1] && t[1] == Escape(v)[1];
      if ShortEscape(u) != 0 {
        ShortEscapeIsInjective(u, v);
        assert s[2..] == x && t[2..] == y;
      } else {
        UnicodeEscapeIsInjective(u, v, x, y);
      }
    } else {
      assert s[1..] == x && t[1..] == y;
    }
  }

  lemma TokenIsUnambiguous(s: Text, t: Text, x: Text, y: Text)
    requires s != [] && t != [] && Token(s) + x == Token(t) + y
    ensures First(s) == First(t) && x == y
  {
    var all := Token(s) + x;
    assert all[0] == Token(s)[0] == Token(t)[0];
    if StartsWithPair(s) {
      assert all[1] == s[1] && all[1] == Token(t)[1];
      assert all[2..] == x && (Token(t) + y)[2..] == y;
    } else {
      EscapeIsUnambiguous(s[0], t[0], x, y);
    }
  }

  function Rest(s: Text): Text
    requires s != []
  {
    s[|First(s)|..]
  }

  lemma EscapedStarts(s: Text, x: Text)
    ensures var all := Escaped(s) + [QUOTE] + x;
      && (all[0] == QUOTE <==> s == [])
      && (s == [] ==> all == [QUOTE] + x)
      && (s != [] ==>
            && all == Token(s) + (Escaped(Rest(s)) + [QUOTE] + x)
            && s == First(s) + Rest(s) && |Rest(s)| < |s|)
  {
    if s != [] {
      assert Escaped(s) == Token(s) + Escaped(Rest(s));
      assert Token(s)[0] != QUOTE;
    }
  }

  /** Quoted text ends where it ends, and stands for one string only. */
  lemma {:induction false} EscapedIsUnambiguous(s: Text, t: Text, x: Text, y: Text)
    requires Escaped(s) + [QUOTE] + x == Escaped(t) + [QUOTE] + y
    ensures s == t && x == y
    decreases |s|
  {
    hide *;
    EscapedStarts(s, x);
    EscapedStarts(t, y);
    if s == [] {
      SameFront([QUOTE], [QUOTE], x, y);
    } else {
      TokenIsUnambiguous(s, t, Escaped(Rest(s)) + [QUOTE] + x, Escaped(Rest(t)) + [QUOTE] + y);
      EscapedIsUnambiguous(Rest(s), Rest(t), x, y);
    }
  }

  lemma QuoteIsUnambiguous(s: Text, t: Text, x: Text, y: Text)
    requires Quote(s) + x == Quote(t) + y
    ensures s == t && x == y
  {
    hide Escaped;
    assert Quote(s) + x == [QUOTE] + (Escaped(s) + [QUOTE] + x);
    assert Quote(t) + y == [QUOTE] + (Escaped(t) + [QUOTE] + y);
    SameFront([QUOTE], [QUOTE], Escaped(s) + [QUOTE] + x, Escaped(t) + [QUOTE] + y);
    EscapedIsUnambiguous(s, t, x, y);
  }

  /* ---- Numbers ---- */

  predicate IsDigit(u: Unit) { ZERO <= u < ZERO + 10 }

  function Digits(n: nat): Text {
    if n < 10 then [ZERO + n] else Digits(n / 10) + [ZERO + n % 10]
  }

  function Decimal(n: int): Text { if n < 0 then [MINUS] + Digits(-n) else Digits(n) }

  lemma {:induction false} DigitsAreDigits(n: nat)
    ensures Digits(n) != [] && forall i | 0 <= i < |Digits(n)| :: IsDigit(Digits(n)[i])
  {
    if n >= 10 {
      DigitsAreDigits(n / 10);
    }
  }

  lemma {:induction false} DigitsAreInjective(m: nat, n: nat)
    requires Digits(m) == Digits(n)
    ensures m == n
  {
    DigitsAreDigits(m / 10);
    DigitsAreDigits(n / 10);
    if m >= 10 && n >= 10 {
      var d := Digits(m);
      assert d[..|d| - 1] == Digits(m / 10) && d[..|d| - 1] == Digits(n / 10);
      assert d[|d| - 1] == ZERO + m % 10 && d[|d| - 1] == ZERO + n % 10;
      DigitsAreInjective(m / 10, n / 10);
    }
  }

  predicate NoDigitFirst(x: Text) { x != [] ==> !IsDigit(x[0]) }

  lemma LongerRunGoesOn(d: Text, e: Text, x: Text, y: Text)
    requires d + x == e + y && |d| < |e| && forall i | 0 <= i < |e| :: IsDigit(e[i])
    ensures !NoDigitFirst(x)
  {
    assert (d + x)[|d|] == x[0] && (e + y)[|d|] == e[|d|];
  }

  lemma DigitsAreUnambiguous(m: nat, n: nat, x: Text, y: Text)
    requires Digits(m) + x == Digits(n) + y && NoDigitFirst(x) && NoDigitFirst(y)
    ensures m == n && x == y
  {
    hide *;
    DigitsAreDigits(m);
    DigitsAreDigits(n);
    if |Digits(m)| < |Digits(n)| {
      LongerRunGoesOn(Digits(m), Digits(n), x, y);
    } else if |Digits(n)| < |Digits(m)| {
      LongerRunGoesOn(Digits(n), Digits(m), y, x);
    } else {
      SameFront(Digits(m), Digits(n), x, y);
      DigitsAreInjective(m, n);
    }
  }

  lemma DecimalStarts(n: int, x: Text)
    ensures var all := Decimal(n) + x;
      && all != []
      && (all[0] == MINUS <==> n < 0)
      && (IsDigit(all[0]) || all[0] == MINUS)
      && (n < 0 ==> all == [MINUS] + (Digits(-n) + x))
  {
    DigitsAreDigits(if n < 0 then -n else n);
    hide Digits;
    assert n < 0 ==> [MINUS] + Digits(-n) + x == [MINUS] + (Digits(-n) + x);
    assert n >= 0 ==> (Digits(n) + x)[0] == Digits(n)[0];
  }

  lemma DecimalIsUnambiguous(m: int, n: int, x: Text, y: Text)
    requires Decimal(m) + x == Decimal(n) + y && NoDigitFirst(x) && NoDigitFirst(y)
    ensures m == n && x == y
  {
    hide Digits, NoDigitFirst;
    DecimalStarts(m, x);
    DecimalStarts(n, y);
    if m < 0 {
      SameFront([MINUS], [MINUS], Digits(-m) + x, Digits(-n) + y);
      DigitsAreUnambiguous(-m, -n, x, y);
    } else {
      DigitsAreUnambiguous(m, n, x, y);
    }
  }

  /** src/invariants.ts:277-279. The text under which a client position is filed stands for one
      position only, so that positions may be taken as pairs. */
  function PositionKey(clientId: Text, clientSequence: nat): Text { clientId + [0] + Digits(clientSequence) }

  lemma ShorterLeavesNul(c: Text, p: Text, d: Text, q: Text)
    requires c + [0] + p == d + [0] + q && |c| < |d|
    ensures 0 in p
  {
    assert (d + [0] + q)[|d|] == 0;
    assert (c + [0] + p)[|d|] == p[|d| - |c| - 1];
  }

  lemma NoNulInDigits(n: nat)
    ensures 0 !in Digits(n)
  {
    DigitsAreDigits(n);
  }

  lemma PositionKeyIsInjective(c: Text, m: nat, d: Text, n: nat)
    requires PositionKey(c, m) == PositionKey(d, n)
    ensures c == d && m == n
  {
    hide Digits;
    NoNulInDigits(m);
    NoNulInDigits(n);
    if |c| < |d| {
      ShorterLeavesNul(c, Digits(m), d, Digits(n));
    } else if |d| < |c| {
      ShorterLeavesNul(d, Digits(n), c, Digits(m));
    } else {
      SameFront(c + [0], d + [0], Digits(m), Digits(n));
      SameFront(c, d, [0], [0]);
      DigitsAreInjective(m, n);
    }
  }

  /* ---- Values ---- */

  function Join(parts: seq<Text>): Text {
    if parts == [] then []
    else if |parts| == 1 then parts[0]
    else parts[0] + [COMMA] + Join(parts[1..])
  }

  predicate IsList(j: Json) { j.Arr? || j.Obj? }

  /** How many items or fields. */
  function Size(j: Json): nat
    requires IsList(j)
  {
    if j.Arr? then |j.items| else |j.fields|
  }

  function Opening(j: Json): Unit
    requires IsList(j)
  {
    if j.Arr? then OPEN else OPEN_BRACE
  }

  function Closing(j: Json): Unit
    requires IsList(j)
  {
    if j.Arr? then CLOSE else CLOSE_BRACE
  }

  /** One item, or one field, as text. */
  function Part(j: Json, i: nat): Text
    requires IsList(j) && i < Size(j)
    decreases j, 0
  {
    if j.Arr? then Print(j.items[i]) else Quote(j.fields[i].key) + [COLON] + Print(j.fields[i].value)
  }

  function Parts(j: Json): (parts: seq<Text>)
    requires IsList(j)
    ensures |parts| == Size(j)
    decreases j, 1
  {
    seq(Size(j), (i: nat) requires i < Size(j) => Part(j, i))
  }

  /** The text of a value with its fields in the order they stand in. */
  function Print(j: Json): Text
    decreases j, 2
  {
    match j
    case Null => NULL_TEXT
    case Bool(value) => if value then TRUE_TEXT else FALSE_TEXT
    case Num(n) => Decimal(n)
    case Str(text) => Quote(text)
    case Arr(_) => [Opening(j)] + Join(Parts(j)) + [Closing(j)]
    case Obj(_) => [Opening(j)] + Join(Parts(j)) + [Closing(j)]
  }

  /** What may follow a value. */
  predicate Ends(x: Text) { x != [] ==> x[0] == COMMA || x[0] == CLOSE || x[0] == CLOSE_BRACE }

  /** The first unit shows what kind of value it is. */
  lemma KindShows(j: Json, x: Text)
    ensures var all := Print(j) + x;
      && all != []
      && (all[0] == NULL_TEXT[0] <==> j.Null?)
      && (all[0] == TRUE_TEXT[0] <==> j.Bool? && j.value)
      && (all[0] == FALSE_TEXT[0] <==> j.Bool? && !j.value)
      && (all[0] == QUOTE <==> j.Str?)
      && (all[0] == OPEN <==> j.Arr?)
      && (all[0] == OPEN_BRACE <==> j.Obj?)
      && all[0] != COMMA && all[0] != CLOSE && all[0] != CLOSE_BRACE
  {
    if j.Num? {
      DecimalStarts(j.number, x);
    }
    hide Decimal, Escaped, Join;
    assert Print(j) != [] ==> (Print(j) + x)[0] == Print(j)[0];
  }

  lemma ListText(j: Json, x: Text)
    requires IsList(j)
    ensures Print(j) + x == [Opening(j)] + (Join(Parts(j)) + [Closing(j)] + x)
  {
  }

  lemma JoinFrom(parts: seq<Text>, i: nat, close: Text, x: Text)
    requires i <= |parts|
    ensures Join(parts[i..]) + close + x ==
      if i == |parts| then close + x
      else parts[i] + (if i + 1 < |parts| then [COMMA] + (Join(parts[i + 1..]) + close + x) else close + x)
  {
    if i < |parts| {
      assert parts[i..][1..] == parts[i + 1..];
      if i + 1 < |parts| {
        assert parts[i] + [COMMA] + Join(parts[i + 1..]) + close + x
            == parts[i] + ([COMMA] + (Join(parts[i + 1..]) + close + x));
      }
    }
  }

  /** The text of a value ends where it ends, and stands for one value only. */
  lemma {:induction false} PrintIsUnambiguous(a: Json, b: Json, x: Text, y: Text)
    requires Print(a) + x == Print(b) + y && Ends(x) && Ends(y)
    ensures a == b && x == y
    decreases a, 3
  {
    KindShows(a, x);
    KindShows(b, y);
    match a
    case Null => SameFront(Print(a), Print(b), x, y);
    case Bool(_) => SameFront(Print(a), Print(b), x, y);
    case Num(m) => DecimalIsUnambiguous(m, b.number, x, y);
    case Str(s) => QuoteIsUnambiguous(s, b.text, x, y);
    case _ =>
      hide Print, Parts, Join, Part, Ends;
      ListText(a, x);
      ListText(b, y);
      var restA, restB := Join(Parts(a)) + [Closing(a)] + x, Join(Parts(b)) + [Closing(b)] + y;
      SameFront([Opening(a)], [Opening(b)], restA, restB);
      assert Parts(a)[0..] == Parts(a) && Parts(b)[0..] == Parts(b);
      PartsAreUnambiguous(a, b, 0, x, y);
      SameParts(a, b);
  }

  lemma SameParts(a: Json, b: Json)
    requires SameKind(a, b) && Size(a) == Size(b) && forall k | 0 <= k < Size(a) :: SamePart(a, b, k)
    ensures a == b
  {
    if a.Arr? {
      forall k | 0 <= k < |a.items| ensures a.items[k] == b.items[k] {
        assert SamePart(a, b, k);
      }
    } else {
      forall k | 0 <= k < |a.fields| ensures a.fields[k] == b.fields[k] {
        assert SamePart(a, b, k);
      }
    }
  }

  predicate SameKind(a: Json, b: Json) { (a.Arr? && b.Arr?) || (a.Obj? && b.Obj?) }

  predicate SamePart(a: Json, b: Json, i: nat)
    requires SameKind(a, b) && i < Size(a) && i < Size(b)
  {
    if a.Arr? then a.items[i] == b.items[i] else a.fields[i] == b.fields[i]
  }

  lemma {:induction false} PartsAreUnambiguous(a: Json, b: Json, i: nat, x: Text, y: Text)
    requires SameKind(a, b) && i <= Size(a) && i <= Size(b) && Ends(x) && Ends(y)
    requires Join(Parts(a)[i..]) + [Closing(a)] + x == Join(Parts(b)[i..]) + [Closing(b)] + y
    ensures Size(a) == Size(b) && x == y
    ensures forall k | i <= k < Size(a) :: SamePart(a, b, k)
    decreases a, 2, Size(a) - i
  {
    hide Print, Parts, Join, Part;
    JoinFrom(Parts(a), i, [Closing(a)], x);
    JoinFrom(Parts(b), i, [Closing(b)], y);
    if i < Size(a) {
      PartStarts(a, i);
    }
    if i < Size(b) {
      PartStarts(b, i);
    }
    if i == Size(a) {
      EndOfParts(Closing(a), x, Parts(b), i, y);
    } else if i == Size(b) {
      EndOfParts(Closing(b), y, Parts(a), i, x);
    } else {
      var restA := if i + 1 < Size(a) then [COMMA] + (Join(Parts(a)[i + 1..]) + [Closing(a)] + x) else [Closing(a)] + x;
      var restB := if i + 1 < Size(b) then [COMMA] + (Join(Parts(b)[i + 1..]) + [Closing(b)] + y) else [Closing(b)] + y;
      PartIsUnambiguous(a, b, i, restA, restB);
      assert restA[0] == restB[0];
      if i + 1 < Size(a) {
        SameFront([COMMA], [COMMA], Join(Parts(a)[i + 1..]) + [Closing(a)] + x, Join(Parts(b)[i + 1..]) + [Closing(b)] + y);
        PartsAreUnambiguous(a, b, i + 1, x, y);
      } else {
        SameFront([Closing(a)], [Closing(b)], x, y);
      }
    }
  }

  /** A list that ends here meets no further part there. */
  lemma EndOfParts(close: Unit, x: Text, parts: seq<Text>, i: nat, y: Text)
    requires close == CLOSE || close == CLOSE_BRACE
    requires i <= |parts| && (i < |parts| ==> parts[i] != [] && parts[i][0] != CLOSE && parts[i][0] != CLOSE_BRACE)
    requires [close] + x == Join(parts[i..]) + [close] + y
    ensures i == |parts| && x == y
  {
    JoinFrom(parts, i, [close], y);
    hide Join;
    assert ([close] + x)[0] == close;
    if i == |parts| {
      SameFront([close], [close], x, y);
    }
  }

  lemma PartStarts(j: Json, i: nat)
    requires IsList(j) && i < Size(j)
    ensures Parts(j)[i] == Part(j, i) && Part(j, i) != []
    ensures Part(j, i)[0] != COMMA && Part(j, i)[0] != CLOSE && Part(j, i)[0] != CLOSE_BRACE
  {
    if j.Arr? {
      KindShows(j.items[i], []);
    }
  }

  lemma {:induction false} PartIsUnambiguous(a: Json, b: Json, i: nat, x: Text, y: Text)
    requires SameKind(a, b) && i < Size(a) && i < Size(b) && Ends(x) && Ends(y)
    requires Part(a, i) + x == Part(b, i) + y
    ensures SamePart(a, b, i) && x == y
    decreases a, 1
  {
    hide Print, Quote, Ends;
    if a.Arr? {
      PrintIsUnambiguous(a.items[i], b.items[i], x, y);
    } else {
      var f, g := a.fields[i], b.fields[i];
      assert Part(a, i) + x == Quote(f.key) + ([COLON] + (Print(f.value) + x));
      assert Part(b, i) + y == Quote(g.key) + ([COLON] + (Print(g.value) + y));
      QuoteIsUnambiguous(f.key, g.key, [COLON] + (Print(f.value) + x), [COLON] + (Print(g.value) + y));
      SameFront([COLON], [COLON], Print(f.value) + x, Print(g.value) + y);
      PrintIsUnambiguous(f.value, g.value, x, y);
    }
  }

  /* ---- Key order ---- */

  /** The order of JavaScript's sort: by code unit. */
  predicate Less(s: Text, t: Text) {
    t != [] && (s == [] || s[0] < t[0] || (s[0] == t[0] && Less(s[1..], t[1..])))
  }

  lemma {:induction false} LessIsTotal(s: Text, t: Text)
    ensures Less(s, t) || Less(t, s) || s == t
    ensures !(Less(s, t) && Less(t, s)) && !Less(s, s)
  {
    if s != [] && t != [] {
      LessIsTotal(s[1..], t[1..]);
      LessIsTotal(s[1..], s[1..]);
      assert s == [s[0]] + s[1..] && t == [t[0]] + t[1..];
    } else if s != [] {
      LessIsTotal(s[1..], s[1..]);
    }
  }

  lemma {:induction false} LessIsTransitive(s: Text, t: Text, u: Text)
    requires Less(s, t) && Less(t, u)
    ensures Less(s, u)
  {
    if s != [] && s[0] == t[0] && t[0] == u[0] {
      LessIsTransitive(s[1..], t[1..], u[1..]);
    }
  }

  function Insert(f: Field, sorted: seq<Field>): seq<Field> {
    if sorted == [] then [f]
    else if Less(f.key, sorted[0].key) then [f] + sorted
    else [sorted[0]] + Insert(f, sorted[1..])
  }

  function SortFields(fields: seq<Field>): seq<Field> {
    if fields == [] then [] else Insert(fields[|fields| - 1], SortFields(fields[..|fields| - 1]))
  }

  predicate StrictlySorted(fields: seq<Field>) {
    forall i, j | 0 <= i < j < |fields| :: Less(fields[i].key, fields[j].key)
  }

  predicate DistinctKeys(fields: seq<Field>) {
    forall i, j | 0 <= i < j < |fields| :: fields[i].key != fields[j].key
  }

  lemma {:induction false} InsertKeepsSorted(f: Field, sorted: seq<Field>)
    requires StrictlySorted(sorted) && forall g | g in sorted :: g.key != f.key
    ensures StrictlySorted(Insert(f, sorted))
    ensures forall g :: g in Insert(f, sorted) <==> g == f || g in sorted
  {
    if sorted != [] {
      var head, tail := sorted[0], sorted[1..];
      assert sorted == [head] + tail;
      LessIsTotal(f.key, head.key);
      if Less(f.key, head.key) {
        forall j | 0 <= j < |sorted| ensures Less(f.key, sorted[j].key) {
          if j > 0 {
            LessIsTransitive(f.key, head.key, sorted[j].key);
          }
        }
      } else {
        assert forall g | g in tail :: g in sorted;
        InsertKeepsSorted(f, tail);
        var rest := Insert(f, tail);
        forall j | 0 <= j < |rest| ensures Less(head.key, rest[j].key) {
          assert rest[j] in rest;
          assert rest[j] in tail ==> exists k :: 0 <= k < |tail| && tail[k] == rest[j];
        }
      }
    }
  }

  lemma {:induction false} SortFieldsSorts(fields: seq<Field>)
    requires DistinctKeys(fields)
    ensures StrictlySorted(SortFields(fields))
    ensures forall g :: g in SortFields(fields) <==> g in fields
  {
    if fields != [] {
      var init, last := fields[..|fields| - 1], fields[|fields| - 1];
      assert fields == init + [last];
      SortFieldsSorts(init);
      forall g | g in SortFields(init) ensures g.key != last.key {
        var i :| 0 <= i < |init| && init[i] == g;
      }
      InsertKeepsSorted(last, SortFields(init));
    }
  }

  lemma HeadIsLeast(fields: seq<Field>, g: Field)
    requires StrictlySorted(fields) && g in fields
    ensures g == fields[0] || Less(fields[0].key, g.key)
  {
  }

  lemma TailMembers(fields: seq<Field>)
    requires StrictlySorted(fields) && fields != []
    ensures StrictlySorted(fields[1..])
    ensures forall g :: g in fields[1..] <==> g in fields && g != fields[0]
  {
    LessIsTotal(fields[0].key, fields[0].key);
    assert fields == [fields[0]] + fields[1..];
    forall g | g in fields[1..] ensures g != fields[0] {
      var i :| 0 <= i < |fields[1..]| && fields[1..][i] == g;
      assert Less(fields[0].key, fields[i + 1].key);
    }
  }

  lemma HasMember<T>(xs: seq<T>) returns (x: T)
    requires xs != []
    ensures x in xs
  {
    x := xs[0];
  }

  /** Sorting leaves no choice: the same fields in sorted order are the same sequence. */
  lemma {:induction false} SortedIsUnique(fs: seq<Field>, gs: seq<Field>)
    requires StrictlySorted(fs) && StrictlySorted(gs) && forall g :: g in fs <==> g in gs
    ensures fs == gs
  {
    if fs == [] {
      if gs != [] {
        var g := HasMember(gs);
      }
    } else {
      assert fs[0] in fs && fs[0] in gs;
      assert gs[0] in fs;
      HeadIsLeast(fs, gs[0]);
      HeadIsLeast(gs, fs[0]);
      LessIsTotal(fs[0].key, gs[0].key);
      assert fs[0] == gs[0];
      TailMembers(fs);
      TailMembers(gs);
      SortedIsUnique(fs[1..], gs[1..]);
      assert fs == [fs[0]] + fs[1..] && gs == [gs[0]] + gs[1..];
    }
  }

  /* ---- Canonical text ---- */

  /** The value with its fields, and those of all values in it, in key order. */
  function SortKeys(j: Json): Json {
    match j
    case Arr(items) => Arr(seq(|items|, (i: nat) requires i < |items| => SortKeys(items[i])))
    case Obj(fields) => Obj(SortFields(SortedValues(j)))
    case _ => j
  }

  function SortedValues(j: Json): (fields: seq<Field>)
    requires j.Obj?
    ensures |fields| == |j.fields|
    ensures forall i | 0 <= i < |fields| :: fields[i] == Field(j.fields[i].key, SortKeys(j.fields[i].value))
    decreases j, 0
  {
    seq(|j.fields|, (i: nat) requires i < |j.fields| => Field(j.fields[i].key, SortKeys(j.fields[i].value)))
  }

  function Canon(j: Json): Text { Print(SortKeys(j)) }

  /** Every object has each key once, as JavaScript objects do. */
  ghost predicate Valid(j: Json) {
    match j
    case Arr(items) => forall i | 0 <= i < |items| :: Valid(items[i])
    case Obj(fields) => DistinctKeys(fields) && forall i | 0 <= i < |fields| :: Valid(fields[i].value)
    case _ => true
  }

  /** Equality of JSON values: arrays item by item, objects key by key in whatever order. */
  ghost predicate JsonEq(a: Json, b: Json)
    decreases a, 2
  {
    match a
    case Arr(items) => b.Arr? && |items| == |b.items| && forall i | 0 <= i < |items| :: JsonEq(items[i], b.items[i])
    case Obj(fields) =>
      && b.Obj?
      && (forall f | f in fields :: FieldIn(a, f, b))
      && (forall g | g in b.fields :: KeyIn(g.key, fields))
    case _ => a == b
  }

  ghost predicate FieldIn(a: Json, f: Field, b: Json)
    requires a.Obj? && b.Obj? && f in a.fields
    decreases a, 1
  {
    exists g :: g in b.fields && SameField(a, f, g)
  }

  ghost predicate SameField(a: Json, f: Field, g: Field)
    requires a.Obj? && f in a.fields
    decreases a, 0
  {
    f.key == g.key && JsonEq(f.value, g.value)
  }

  ghost predicate KeyIn(key: Text, fields: seq<Field>) {
    exists i :: 0 <= i < |fields| && fields[i].key == key
  }

  ghost predicate Agree(a: Json, b: Json) { JsonEq(a, b) <==> SortKeys(a) == SortKeys(b) }

  lemma {:induction false} EqualIsSameSorted(a: Json, b: Json)
    requires Valid(a) && Valid(b)
    ensures Agree(a, b)
    decreases a
  {
    if a.Arr? && b.Arr? {
      if |a.items| == |b.items| {
        forall i | 0 <= i < |a.items| ensures Agree(a.items[i], b.items[i]) {
          EqualIsSameSorted(a.items[i], b.items[i]);
        }
      }
      EqualArrays(a, b);
    } else if a.Obj? && b.Obj? {
      forall i, k | 0 <= i < |a.fields| && 0 <= k < |b.fields| ensures Agree(a.fields[i].value, b.fields[k].value) {
        EqualIsSameSorted(a.fields[i].value, b.fields[k].value);
      }
      EqualObjects(a, b);
    }
  }

  lemma EqualArrays(a: Json, b: Json)
    requires a.Arr? && b.Arr?
    requires |a.items| == |b.items| ==> forall i | 0 <= i < |a.items| :: Agree(a.items[i], b.items[i])
    ensures Agree(a, b)
  {
    var s, t := SortKeys(a), SortKeys(b);
    assert |s.items| == |a.items| && |t.items| == |b.items|;
    if |a.items| == |b.items| {
      forall i | 0 <= i < |a.items| ensures JsonEq(a.items[i], b.items[i]) <==> s.items[i] == t.items[i] {
        assert Agree(a.items[i], b.items[i]);
      }
      if JsonEq(a, b) {
        assert s.items == t.items;
      }
    }
  }

  /** Equal objects: every field of one is, sorted, a field of the other, and no key is missing. */
  ghost predicate Matched(fs: seq<Field>, gs: seq<Field>) {
    && (forall f | f in fs :: f in gs)
    && (forall g | g in gs :: KeyIn(g.key, fs))
  }

  lemma EqualObjects(a: Json, b: Json)
    requires a.Obj? && b.Obj? && DistinctKeys(a.fields) && DistinctKeys(b.fields)
    requires forall i, k | 0 <= i < |a.fields| && 0 <= k < |b.fields| :: Agree(a.fields[i].value, b.fields[k].value)
    ensures Agree(a, b)
  {
    hide *;
    var fs, gs := SortedValues(a), SortedValues(b);
    SameDistinctKeys(a.fields, fs);
    SameDistinctKeys(b.fields, gs);
    EqualIsMatched(a, b);
    MatchedIsSame(fs, gs);
    SortFieldsSorts(fs);
    SortFieldsSorts(gs);
    if forall g :: g in fs <==> g in gs {
      SortedIsUnique(SortFields(fs), SortFields(gs));
    } else {
      assert SortFields(fs) != SortFields(gs);
    }
    AgreeObjects(a, b);
  }

  lemma AgreeObjects(a: Json, b: Json)
    requires a.Obj? && b.Obj?
    requires JsonEq(a, b) <==> SortFields(SortedValues(a)) == SortFields(SortedValues(b))
    ensures Agree(a, b)
  {
    hide JsonEq, SortFields;
  }

  lemma SameDistinctKeys(fields: seq<Field>, fs: seq<Field>)
    requires DistinctKeys(fields) && |fs| == |fields| && forall i | 0 <= i < |fs| :: fs[i].key == fields[i].key
    ensures DistinctKeys(fs)
  {
  }

  lemma MatchedIsSame(fs: seq<Field>, gs: seq<Field>)
    requires DistinctKeys(fs) && DistinctKeys(gs)
    ensures Matched(fs, gs) <==> forall g :: g in fs <==> g in gs
  {
    hide DistinctKeys, KeyIn;
    forall g | g in fs ensures KeyIn(g.key, fs) {
      MemberKey(fs, g);
    }
    if Matched(fs, gs) {
      forall g | g in gs ensures g in fs {
        var f := KeyHolder(g.key, fs);
        SameKeySameField(gs, f, g);
      }
    }
  }

  lemma MemberKey(fields: seq<Field>, f: Field)
    requires f in fields
    ensures KeyIn(f.key, fields)
  {
    var i :| 0 <= i < |fields| && fields[i] == f;
  }

  lemma KeyHolder(key: Text, fields: seq<Field>) returns (f: Field)
    requires KeyIn(key, fields)
    ensures f in fields && f.key == key
  {
    var i :| 0 <= i < |fields| && fields[i].key == key;
    f := fields[i];
  }

  lemma SameKeySameField(fields: seq<Field>, f: Field, g: Field)
    requires DistinctKeys(fields) && f in fields && g in fields && f.key == g.key
    ensures f == g
  {
    var i :| 0 <= i < |fields| && fields[i] == f;
    var k :| 0 <= k < |fields| && fields[k] == g;
  }

  lemma EqualIsMatched(a: Json, b: Json)
    requires a.Obj? && b.Obj?
    requires forall i, k | 0 <= i < |a.fields| && 0 <= k < |b.fields| :: Agree(a.fields[i].value, b.fields[k].value)
    ensures JsonEq(a, b) <==> Matched(SortedValues(a), SortedValues(b))
  {
    hide *;
    var fs, gs := SortedValues(a), SortedValues(b);
    forall i: nat | i < |a.fields| ensures FieldIn(a, a.fields[i], b) <==> fs[i] in gs {
      FieldIsFound(a, i, b);
    }
    forall k: nat | k < |b.fields| ensures KeyIn(b.fields[k].key, a.fields) <==> KeyIn(gs[k].key, fs) {
      SameKeys(b.fields[k].key, a.fields, fs);
    }
    EqualMeans(a, b);
    MatchedByIndex(fs, gs);
  }

  lemma EqualMeans(a: Json, b: Json)
    requires a.Obj? && b.Obj?
    ensures JsonEq(a, b) <==>
      && (forall i: nat | i < |a.fields| :: FieldIn(a, a.fields[i], b))
      && (forall k: nat | k < |b.fields| :: KeyIn(b.fields[k].key, a.fields))
  {
    hide KeyIn;
    if JsonEq(a, b) {
      forall i: nat | i < |a.fields| ensures FieldIn(a, a.fields[i], b) {
        assert a.fields[i] in a.fields;
      }
      forall k: nat | k < |b.fields| ensures KeyIn(b.fields[k].key, a.fields) {
        assert b.fields[k] in b.fields;
      }
    }
  }

  lemma MatchedByIndex(fs: seq<Field>, gs: seq<Field>)
    ensures Matched(fs, gs) <==>
      && (forall i: nat | i < |fs| :: fs[i] in gs)
      && (forall k: nat | k < |gs| :: KeyIn(gs[k].key, fs))
  {
    hide KeyIn;
    if Matched(fs, gs) {
      forall i: nat | i < |fs| ensures fs[i] in gs {
        assert fs[i] in fs;
      }
      forall k: nat | k < |gs| ensures KeyIn(gs[k].key, fs) {
        assert gs[k] in gs;
      }
    }
  }

  lemma SameKeys(key: Text, fields: seq<Field>, fs: seq<Field>)
    requires |fs| == |fields| && forall i | 0 <= i < |fs| :: fs[i].key == fields[i].key
    ensures KeyIn(key, fields) <==> KeyIn(key, fs)
  {
  }

  lemma FieldIsFound(a: Json, i: nat, b: Json)
    requires a.Obj? && b.Obj? && i < |a.fields|
    requires forall k | 0 <= k < |b.fields| :: Agree(a.fields[i].value, b.fields[k].value)
    ensures FieldIn(a, a.fields[i], b) <==> SortedValues(a)[i] in SortedValues(b)
  {
    hide JsonEq, SortKeys, SortedValues, Agree;
    var f, fs, gs := a.fields[i], SortedValues(a), SortedValues(b);
    forall k: nat | k < |b.fields| ensures SameField(a, f, b.fields[k]) <==> fs[i] == gs[k] {
      AgreeMeans(f.value, b.fields[k].value);
    }
    if FieldIn(a, f, b) {
      var g :| g in b.fields && SameField(a, f, g);
      var k :| 0 <= k < |b.fields| && b.fields[k] == g;
      assert gs[k] == fs[i];
    }
    if fs[i] in gs {
      var k :| 0 <= k < |gs| && gs[k] == fs[i];
      assert b.fields[k] in b.fields && SameField(a, f, b.fields[k]);
    }
  }

  lemma AgreeMeans(a: Json, b: Json)
    requires Agree(a, b)
    ensures JsonEq(a, b) <==> SortKeys(a) == SortKeys(b)
  {
    hide JsonEq, SortKeys;
  }

  /** The canonical text is injective up to the order of keys, and independent of it. */
  lemma CanonicalTextIsEquality(a: Json, b: Json)
    requires Valid(a) && Valid(b)
    ensures Canon(a) == Canon(b) <==> JsonEq(a, b)
  {
    hide *;
    EqualIsSameSorted(a, b);
    AgreeMeans(a, b);
    CanonIs(a);
    CanonIs(b);
    NothingEnds();
    if Canon(a) == Canon(b) {
      PrintIsUnambiguous(SortKeys(a), SortKeys(b), [], []);
    }
  }

  lemma CanonIs(j: Json)
    ensures Canon(j) == Print(SortKeys(j)) && Canon(j) + [] == Canon(j)
  {
  }

  lemma NothingEnds()
    ensures Ends([])
  {
  }

  /** Writing an object's keys in another order changes nothing. */
  lemma KeyOrderIsIrrelevant(fields: seq<Field>, reordered: seq<Field>)
    requires DistinctKeys(fields) && DistinctKeys(reordered) && forall f :: f in fields <==> f in reordered
    ensures Canon(Obj(fields)) == Canon(Obj(reordered))
  {
    var a, b := Obj(fields), Obj(reordered);
    var fs, gs := SortedValues(a), SortedValues(b);
    SortFieldsSorts(fs);
    SortFieldsSorts(gs);
    hide SortFields, Print, SortedValues;
    forall g ensures g in fs <==> g in gs {
      if g in fs {
        var i :| 0 <= i < |fs| && fs[i] == g;
        assert fields[i] in reordered;
        var k :| 0 <= k < |reordered| && reordered[k] == fields[i];
        assert gs[k] == g;
      }
      if g in gs {
        var k :| 0 <= k < |gs| && gs[k] == g;
        assert reordered[k] in fields;
        var i :| 0 <= i < |fields| && fields[i] == reordered[k];
        assert fs[i] == g;
      }
    }
    SortedIsUnique(SortFields(fs), SortFields(gs));
  }

  /* ---- The loops ---- */

  function SortedField(f: Field): Field { Field(f.key, SortKeys(f.value)) }

  function SortedEach(fields: seq<Field>): (fs: seq<Field>)
    ensures |fs| == |fields| && forall i | 0 <= i < |fs| :: fs[i] == SortedField(fields[i])
  {
    seq(|fields|, i requires 0 <= i < |fields| => SortedField(fields[i]))
  }

  lemma {:induction false} InsertThenSort(f: Field, sorted: seq<Field>)
    ensures SortedEach(Insert(f, sorted)) == Insert(SortedField(f), SortedEach(sorted))
  {
    hide SortKeys, Less, SortedEach, SortedField;
    if sorted == [] {
      EachIsMap([], f);
      EachIsMap([f], f);
      assert SortedEach([f]) == [SortedField(f)] && SortedEach([]) == [];
    } else {
      var head, tail := sorted[0], sorted[1..];
      assert sorted == [head] + tail && Insert(f, tail) == Insert(f, sorted[1..]);
      InsertThenSort(f, tail);
      EachIsMap(tail, head);
      EachIsMap(sorted, f);
      EachIsMap(Insert(f, tail), head);
      assert SortedEach(sorted)[1..] == SortedEach(tail);
      SortedFieldKey(f);
      SortedFieldKey(head);
    }
  }

  lemma SortedFieldKey(f: Field)
    ensures SortedField(f).key == f.key
  {
  }

  lemma EachIsMap(fields: seq<Field>, f: Field)
    ensures SortedEach([f] + fields) == [SortedField(f)] + SortedEach(fields)
  {
    hide SortedField;
  }

  lemma {:induction false} SortKeysThenValues(fields: seq<Field>)
    ensures SortedEach(SortFields(fields)) == SortFields(SortedEach(fields))
    ensures forall g | g in SortFields(fields) :: g in fields
  {
    if fields != [] {
      var init, last := fields[..|fields| - 1], fields[|fields| - 1];
      assert fields == init + [last];
      SortKeysThenValues(init);
      InsertThenSort(last, SortFields(init));
      InsertedMembers(last, SortFields(init));
      assert SortedEach(fields)[..|fields| - 1] == SortedEach(init);
    }
  }

  lemma {:induction false} InsertedMembers(f: Field, sorted: seq<Field>)
    ensures forall g | g in Insert(f, sorted) :: g == f || g in sorted
  {
    if sorted != [] {
      InsertedMembers(f, sorted[1..]);
      assert forall g | g in sorted[1..] :: g in sorted;
    }
  }

  /** canonicalize: a case split on the kind of value. */
  method Canonicalize(j: Json) returns (text: Text)
    ensures text == Canon(j)
    decreases j, 1
  {
    match j {
      case Arr(_) => text := CanonicalizeArray(j);
      case Obj(_) => text := CanonicalizeObject(j);
      case _ => text := Print(j);
    }
  }

  lemma CanonicalList(j: Json, parts: seq<Text>)
    requires IsList(j) && |parts| == Size(j) && forall i | 0 <= i < |parts| :: parts[i] == Part(j, i)
    ensures Print(j) == [Opening(j)] + Join(parts) + [Closing(j)]
  {
    hide Part, Join;
    assert parts == Parts(j);
  }

  /** The array branch of canonicalizeObject: a loop that pushes the text of each item. */
  method CanonicalizeArray(j: Json) returns (text: Text)
    requires j.Arr?
    ensures text == Canon(j)
    decreases j, 0
  {
    hide Part, Join, Print;
    ghost var canonical := SortKeys(j);
    var items: seq<Text> := [];
    var index := 0;
    while index < |j.items|
      invariant 0 <= index <= |j.items| == Size(canonical) && |items| == index
      invariant forall k | 0 <= k < index :: items[k] == Part(canonical, k)
    {
      var item := Canonicalize(j.items[index]);
      ItemPart(j, index);
      items := items + [item];
      index := index + 1;
    }
    CanonicalList(canonical, items);
    return [OPEN] + Join(items) + [CLOSE];
  }

  lemma ItemPart(j: Json, i: nat)
    requires j.Arr? && i < |j.items|
    ensures SortKeys(j).Arr? && |SortKeys(j).items| == |j.items|
    ensures Part(SortKeys(j), i) == Canon(j.items[i])
  {
    hide Print;
  }

  /** The object branch: the keys in order, each with the text of its value. */
  method CanonicalizeObject(j: Json) returns (text: Text)
    requires j.Obj?
    ensures text == Canon(j)
    decreases j, 0
  {
    hide Part, Join, Print;
    ghost var canonical := SortKeys(j);
    var sorted := SortFields(j.fields);
    SortKeysThenValues(j.fields);
    SortedValuesAre(j);
    var fields: seq<Text> := [];
    var index := 0;
    while index < |sorted|
      invariant 0 <= index <= |sorted| == Size(canonical) && |fields| == index
      invariant forall k | 0 <= k < index :: fields[k] == Part(canonical, k)
    {
      assert sorted[index] in j.fields;
      var value := Canonicalize(sorted[index].value);
      FieldPart(canonical, index, sorted[index]);
      fields := fields + [Quote(sorted[index].key) + [COLON] + value];
      index := index + 1;
    }
    CanonicalList(canonical, fields);
    return [OPEN_BRACE] + Join(fields) + [CLOSE_BRACE];
  }

  lemma FieldPart(canonical: Json, i: nat, f: Field)
    requires canonical.Obj? && i < |canonical.fields| && canonical.fields[i] == SortedField(f)
    ensures Part(canonical, i) == Quote(f.key) + [COLON] + Canon(f.value)
  {
    hide Print, Quote;
  }

  lemma SortedValuesAre(j: Json)
    requires j.Obj?
    ensures SortedValues(j) == SortedEach(j.fields)
  {
  }
}