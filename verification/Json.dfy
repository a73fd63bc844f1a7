/** JavaScript strings as sequences of 16-bit code units, `JSON.parse` for the grammar of RFC 8259, and
    `JSON.stringify` for arrays of strings. */
module Json {
  import opened Common

  type Unit = u: int | 0 <= u < 0x1_0000 witness 0
  type JString = seq<Unit>

  const TAB: Unit := 0x09
  const LF: Unit := 0x0A
  const CR: Unit := 0x0D
  const SPACE: Unit := 0x20
  const QUOTE: Unit := 0x22
  const PLUS: Unit := 0x2B
  const COMMA: Unit := 0x2C
  const MINUS: Unit := 0x2D
  const DOT: Unit := 0x2E
  const SLASH: Unit := 0x2F
  const ZERO: Unit := 0x30
  const COLON: Unit := 0x3A
  const OPEN_BRACKET: Unit := 0x5B
  const BACKSLASH: Unit := 0x5C
  const CLOSE_BRACKET: Unit := 0x5D
  const LOWER_U: Unit := 0x75
  const OPEN_BRACE: Unit := 0x7B
  const CLOSE_BRACE: Unit := 0x7D

  datatype Value =
    | Null | Bool(b: bool) | Number(lexeme: JString) | Str(s: JString)
    | Arr(items: seq<Value>) | Obj(members: seq<(JString, Value)>)

  /** What was read and what is left. */
  datatype Parsed<T> = Parsed(value: T, rest: JString)

  predicate IsSpace(c: Unit) { c == TAB || c == LF || c == CR || c == SPACE }

  function Skip(s: JString): (r: JString)
    ensures |r| <= |s|
  {
    if s != [] && IsSpace(s[0]) then Skip(s[1..]) else s
  }

  predicate IsHex(c: Unit) { 0x30 <= c <= 0x39 || 0x41 <= c <= 0x46 || 0x61 <= c <= 0x66 }

  function HexValue(c: Unit): (n: nat)
    requires IsHex(c)
    ensures n < 16
  {
    if c <= 0x39 then c - 0x30 else if c <= 0x46 then c - 0x41 + 10 else c - 0x61 + 10
  }

  /** The code unit named by four hexadecimal digits. */
  function HexUnit(s: JString): Option<Unit> {
    if |s| >= 4 && IsHex(s[0]) && IsHex(s[1]) && IsHex(s[2]) && IsHex(s[3])
    then Some(HexValue(s[0]) * 0x1000 + HexValue(s[1]) * 0x100 + HexValue(s[2]) * 0x10 + HexValue(s[3]))
    else None
  }

  function Unescape(c: Unit): Option<Unit> {
    if c == QUOTE || c == BACKSLASH || c == SLASH then Some(c)
    else if c == 0x62 then Some(0x08)
    else if c == 0x66 then Some(0x0C)
    else if c == 0x6E then Some(LF)
    else if c == 0x72 then Some(CR)
    else if c == 0x74 then Some(TAB)
    else None
  }

  /** One character of a string: what it denotes and how many code units it takes. */
  function CharAt(s: JString): Option<(Unit, nat)> {
    if s == [] || s[0] < 0x20 || s[0] == QUOTE then None
    else if s[0] != BACKSLASH then Some((s[0], 1))
    else if |s| < 2 then None
    else if s[1] == LOWER_U then
      (match HexUnit(s[2..])
       case Some(u) => Some((u, 6))
       case None => None)
    else
      match Unescape(s[1])
      case Some(u) => Some((u, 2))
      case None => None
  }

  /** The rest of a string whose opening quote has been read. */
  function ParseChars(s: JString): (r: Option<Parsed<JString>>)
    ensures r.Some? ==> |r.value.rest| < |s|
  {
    if s != [] && s[0] == QUOTE then Some(Parsed([], s[1..]))
    else match CharAt(s)
      case None => None
      case Some((u, n)) =>
        if n == 0 || n > |s| then None
        else match ParseChars(s[n..])
          case None => None
          case Some(p) => Some(Parsed([u] + p.value, p.rest))
  }

  predicate IsDigit(c: Unit) { 0x30 <= c <= 0x39 }

  function Digits(s: JString): nat {
    if s != [] && IsDigit(s[0]) then 1 + Digits(s[1..]) else 0
  }

  /** One zero, or any digits. */
  function IntLength(s: JString): (n: nat)
    ensures n <= |s|
  {
    DigitsBound(s);
    if s != [] && s[0] == ZERO then 1 else Digits(s)
  }

  /** A dot and its digits, or nothing; 1 if the digits are missing. */
  function FractionLength(s: JString): (n: nat)
    ensures n <= |s|
  {
    if s == [] || s[0] != DOT then 0
    else
      DigitsBound(s[1..]);
      1 + Digits(s[1..])
  }

  /** The length of the number at the front: -? int frac? exp?, or 0. */
  function NumberLength(s: JString): (n: nat)
    ensures n <= |s|
  {
    var a := if s != [] && s[0] == MINUS then 1 else 0;
    var t := s[a..];
    var u := t[IntLength(t)..];
    if IntLength(t) == 0 || FractionLength(u) == 1 then 0
    else a + IntLength(t) + FractionLength(u) + ExpLength(u[FractionLength(u)..])
  }

  function ExpLength(s: JString): (n: nat)
    ensures n <= |s|
  {
    if s == [] || (s[0] != 0x65 && s[0] != 0x45) then 0
    else
      var a := if |s| > 1 && (s[1] == PLUS || s[1] == MINUS) then 2 else 1;
      DigitsBound(s[a..]);
      if Digits(s[a..]) == 0 then 0 else a + Digits(s[a..])
  }

  lemma DigitsBound(s: JString)
    ensures Digits(s) <= |s|
  {}

  const TRUE: JString := [0x74, 0x72, 0x75, 0x65]
  const FALSE: JString := [0x66, 0x61, 0x6C, 0x73, 0x65]
  const NULL: JString := [0x6E, 0x75, 0x6C, 0x6C]

  function ParseValue(s: JString): (r: Option<Parsed<Value>>)
    ensures r.Some? ==> |r.value.rest| < |s|
    decreases |s|, 1
  {
    if s == [] then None
    else if s[0] == QUOTE then
      (match ParseChars(s[1..])
       case Some(p) => Some(Parsed(Str(p.value), p.rest))
       case None => None)
    else if s[0] == OPEN_BRACKET then
      var t := Skip(s[1..]);
      if t != [] && t[0] == CLOSE_BRACKET then Some(Parsed(Arr([]), t[1..]))
      else
        (match ParseItems(t)
         case Some(p) => Some(Parsed(Arr(p.value), p.rest))
         case None => None)
    else if s[0] == OPEN_BRACE then
      var t := Skip(s[1..]);
      if t != [] && t[0] == CLOSE_BRACE then Some(Parsed(Obj([]), t[1..]))
      else
        (match ParseMembers(t)
         case Some(p) => Some(Parsed(Obj(p.value), p.rest))
         case None => None)
    else if TRUE <= s then Some(Parsed(Bool(true), s[4..]))
    else if FALSE <= s then Some(Parsed(Bool(false), s[5..]))
    else if NULL <= s then Some(Parsed(Null, s[4..]))
    else
      var n := NumberLength(s);
      if n == 0 then None else Some(Parsed(Number(s[..n]), s[n..]))
  }

  /** Array elements up to and including the closing bracket; at least one. */
  function ParseItems(s: JString): (r: Option<Parsed<seq<Value>>>)
    ensures r.Some? ==> |r.value.rest| < |s|
    decreases |s|, 2
  {
    match ParseValue(s)
    case None => None
    case Some(p) =>
      var t := Skip(p.rest);
      if t == [] then None
      else if t[0] == CLOSE_BRACKET then Some(Parsed([p.value], t[1..]))
      else if t[0] != COMMA then None
      else match ParseItems(Skip(t[1..]))
        case None => None
        case Some(q) => Some(Parsed([p.value] + q.value, q.rest))
  }

  /** Object members up to and including the closing brace; at least one. */
  function ParseMembers(s: JString): (r: Option<Parsed<seq<(JString, Value)>>>)
    ensures r.Some? ==> |r.value.rest| < |s|
    decreases |s|, 2
  {
    if s == [] || s[0] != QUOTE then None
    else match ParseChars(s[1..])
      case None => None
      case Some(key) =>
        var t := Skip(key.rest);
        if t == [] || t[0] != COLON then None
        else match ParseValue(Skip(t[1..]))
          case None => None
          case Some(p) =>
            var u := Skip(p.rest);
            if u == [] then None
            else if u[0] == CLOSE_BRACE then Some(Parsed([(key.value, p.value)], u[1..]))
            else if u[0] != COMMA then None
            else match ParseMembers(Skip(u[1..]))
              case None => None
              case Some(q) => Some(Parsed([(key.value, p.value)] + q.value, q.rest))
  }

  /** JSON.parse: None where it throws. */
  function Parse(s: JString): Option<Value> {
    match ParseValue(Skip(s))
    case Some(p) => if Skip(p.rest) == [] then Some(p.value) else None
    case None => None
  }

  // ---------------------------------------------------------------- JSON.stringify

  predicate IsHigh(c: Unit) { 0xD800 <= c <= 0xDBFF }
  predicate IsLow(c: Unit) { 0xDC00 <= c <= 0xDFFF }

  function HexChar(n: nat): Unit
    requires n < 16
  {
    if n < 10 then 0x30 + n else 0x61 + n - 10
  }

  function UnicodeEscape(c: Unit): JString {
    [BACKSLASH, LOWER_U, HexChar(c / 0x1000), HexChar(c / 0x100 % 16), HexChar(c / 0x10 % 16), HexChar(c % 16)]
  }

  /** A code unit that is not part of a surrogate pair, as it appears between the quotes. */
  function Escape(c: Unit): JString {
    if c == 0x08 then [BACKSLASH, 0x62]
    else if c == TAB then [BACKSLASH, 0x74]
    else if c == LF then [BACKSLASH, 0x6E]
    else if c == 0x0C then [BACKSLASH, 0x66]
    else if c == CR then [BACKSLASH, 0x72]
    else if c == QUOTE || c == BACKSLASH then [BACKSLASH, c]
    else if c < 0x20 || IsHigh(c) || IsLow(c) then UnicodeEscape(c)
    else [c]
  }

  /** Surrogate pairs are kept; a surrogate on its own is escaped. */
  function Body(s: JString): JString {
    if s == [] then []
    else if |s| > 1 && IsHigh(s[0]) && IsLow(s[1]) then [s[0], s[1]] + Body(s[2..])
    else Escape(s[0]) + Body(s[1..])
  }

  function Quoted(s: JString): JString { [QUOTE] + Body(s) + [QUOTE] }

  /** Items that are printed already, with white space behind each and in front of all but the first. */
  function Joined(texts: seq<JString>, gap: JString): JString
    requires texts != []
  {
    if |texts| == 1 then texts[0] + gap else texts[0] + gap + [COMMA] + (gap + Joined(texts[1..], gap))
  }

  function Enclosed(open: Unit, texts: seq<JString>, gap: JString, close: Unit): JString {
    [open] + gap + (if texts == [] then [] else Joined(texts, gap)) + [close]
  }

  function Brackets(texts: seq<JString>, gap: JString): JString { Enclosed(OPEN_BRACKET, texts, gap, CLOSE_BRACKET) }

  /** JSON.stringify of an array of strings. */
  function Stringify(values: seq<JString>): JString {
    Brackets(seq(|values|, i requires 0 <= i < |values| => Quoted(values[i])), [])
  }

  /** A key and the text of its value. */
  function Member(key: JString, text: JString, gap: JString): JString {
    Quoted(key) + gap + [COLON] + (gap + text)
  }

  /** Any value, with the same white space wherever there may be some. */
  function Print(v: Value, gap: JString): JString {
    match v
    case Null => NULL
    case Bool(b) => if b then TRUE else FALSE
    case Number(lexeme) => lexeme
    case Str(s) => Quoted(s)
    case Arr(items) => Brackets(seq(|items|, i requires 0 <= i < |items| => Print(items[i], gap)), gap)
    case Obj(members) =>
      Enclosed(OPEN_BRACE, seq(|members|, i requires 0 <= i < |members| => Member(members[i].0, Print(members[i].1, gap), gap)),
               gap, CLOSE_BRACE)
  }

  // ---------------------------------------------------------------- round trip

  lemma HexCharRoundTrip(n: nat)
    requires n < 16
    ensures IsHex(HexChar(n)) && HexValue(HexChar(n)) == n
  {}

  lemma HexSum(c: Unit)
    ensures c / 0x1000 < 16 && c / 0x1000 * 0x1000 + c / 0x100 % 16 * 0x100 + c / 0x10 % 16 * 0x10 + c % 16 == c
  {}

  lemma HexRoundTrip(c: Unit, rest: JString)
    ensures HexUnit(UnicodeEscape(c)[2..] + rest) == Some(c)
  {
    HexSum(c);
    var a: nat, b: nat, d: nat, e: nat := c / 0x1000, c / 0x100 % 16, c / 0x10 % 16, c % 16;
    HexCharRoundTrip(a);
    HexCharRoundTrip(b);
    HexCharRoundTrip(d);
    HexCharRoundTrip(e);
    var s := UnicodeEscape(c)[2..] + rest;
    assert s[0] == HexChar(a) && s[1] == HexChar(b) && s[2] == HexChar(d) && s[3] == HexChar(e);
  }

  lemma EscapeRoundTrip(c: Unit, rest: JString)
    ensures CharAt(Escape(c) + rest) == Some((c, |Escape(c)|))
  {
    var s := Escape(c) + rest;
    if Escape(c) == UnicodeEscape(c) {
      assert s[2..] == UnicodeEscape(c)[2..] + rest;
      HexRoundTrip(c, rest);
    }
  }

  /** A character that is read as n code units is followed by the rest of the string. */
  lemma ReadOne(text: JString, c: Unit, n: nat, s: JString, rest: JString)
    requires 0 < n <= |text| && CharAt(text) == Some((c, n)) && ParseChars(text[n..]) == Some(Parsed(s, rest))
    ensures ParseChars(text) == Some(Parsed([c] + s, rest))
  {}

  /** What follows the opening quote: the characters, the closing quote, the rest. */
  function Tail(s: JString, rest: JString): JString { Body(s) + [QUOTE] + rest }

  lemma TailOne(s: JString, rest: JString)
    requires s != [] && !(|s| > 1 && IsHigh(s[0]) && IsLow(s[1]))
    ensures Tail(s, rest) == Escape(s[0]) + Tail(s[1..], rest)
  {}

  lemma TailPair(s: JString, rest: JString)
    requires |s| > 1 && IsHigh(s[0]) && IsLow(s[1])
    ensures Tail(s, rest) == [s[0]] + ([s[1]] + Tail(s[2..], rest))
  {}

  lemma Plain(c: Unit, u: JString, s: JString, rest: JString)
    requires c >= 0x20 && c != QUOTE && c != BACKSLASH && ParseChars(u) == Some(Parsed(s, rest))
    ensures ParseChars([c] + u) == Some(Parsed([c] + s, rest))
  {
    assert ([c] + u)[1..] == u;
  }

  lemma Escaped(c: Unit, u: JString, s: JString, rest: JString)
    requires ParseChars(u) == Some(Parsed(s, rest))
    ensures ParseChars(Escape(c) + u) == Some(Parsed([c] + s, rest))
  {
    EscapeRoundTrip(c, u);
    assert (Escape(c) + u)[|Escape(c)|..] == u;
    ReadOne(Escape(c) + u, c, |Escape(c)|, s, rest);
  }

  lemma {:induction false} BodyRoundTrip(s: JString, rest: JString)
    ensures ParseChars(Tail(s, rest)) == Some(Parsed(s, rest))
  {
    if s == [] {
      assert Tail(s, rest) == [QUOTE] + rest && ([QUOTE] + rest)[1..] == rest;
    } else if |s| > 1 && IsHigh(s[0]) && IsLow(s[1]) {
      BodyRoundTrip(s[2..], rest);
      PairRead(s, rest);
    } else {
      BodyRoundTrip(s[1..], rest);
      UnitRead(s, rest);
    }
  }

  lemma PairRead(s: JString, rest: JString)
    requires |s| > 1 && IsHigh(s[0]) && IsLow(s[1]) && ParseChars(Tail(s[2..], rest)) == Some(Parsed(s[2..], rest))
    ensures ParseChars(Tail(s, rest)) == Some(Parsed(s, rest))
  {
    TailPair(s, rest);
    Plain(s[1], Tail(s[2..], rest), s[2..], rest);
    Plain(s[0], [s[1]] + Tail(s[2..], rest), [s[1]] + s[2..], rest);
    assert [s[0]] + ([s[1]] + s[2..]) == s;
  }

  lemma UnitRead(s: JString, rest: JString)
    requires s != [] && !(|s| > 1 && IsHigh(s[0]) && IsLow(s[1]))
    requires ParseChars(Tail(s[1..], rest)) == Some(Parsed(s[1..], rest))
    ensures ParseChars(Tail(s, rest)) == Some(Parsed(s, rest))
  {
    TailOne(s, rest);
    Escaped(s[0], Tail(s[1..], rest), s[1..], rest);
    assert [s[0]] + s[1..] == s;
  }

  lemma QuotedRoundTrip(s: JString, rest: JString)
    ensures ParseValue(Quoted(s) + rest) == Some(Parsed(Str(s), rest))
  {
    assert (Quoted(s) + rest)[1..] == Tail(s, rest);
    BodyRoundTrip(s, rest);
  }

  // ---------------------------------------------------------------- every way to write a character

  /** A code unit as itself, behind a backslash, or by its four hexadecimal digits. */
  predicate Writes(form: JString, c: Unit) {
    || (form == [c] && c >= 0x20 && c != QUOTE && c != BACKSLASH)
    || (|form| == 2 && form[0] == BACKSLASH && Short(form[1], c))
    || (|form| == 6 && form[..2] == [BACKSLASH, LOWER_U] && Hexed(form[2..], c))
  }

  /** The letters of the short escapes. */
  predicate Short(letter: Unit, c: Unit) {
    || (letter == c && (c == QUOTE || c == BACKSLASH || c == SLASH))
    || (letter == 0x62 && c == 0x08) || (letter == 0x66 && c == 0x0C) || (letter == 0x6E && c == LF)
    || (letter == 0x72 && c == CR) || (letter == 0x74 && c == TAB)
  }

  /** A hexadecimal digit, with letters of either size. */
  predicate Stands(digit: Unit, n: nat) {
    (n < 10 && digit == 0x30 + n) || (10 <= n < 16 && (digit == 0x41 + n - 10 || digit == 0x61 + n - 10))
  }

  predicate Hexed(digits: JString, c: Unit) {
    |digits| == 4 && Stands(digits[0], c / 0x1000) && Stands(digits[1], c / 0x100 % 16)
    && Stands(digits[2], c / 0x10 % 16) && Stands(digits[3], c % 16)
  }

  lemma HexExactly(digits: JString, c: Unit)
    requires |digits| == 4
    ensures HexUnit(digits) == Some(c) <==> Hexed(digits, c)
  {
    HexSum(c);
    if HexUnit(digits) == Some(c) {
      HexDigits(HexValue(digits[0]), HexValue(digits[1]), HexValue(digits[2]), HexValue(digits[3]), c);
    }
  }

  lemma HexDigits(a: nat, b: nat, d: nat, e: nat, c: Unit)
    requires a < 16 && b < 16 && d < 16 && e < 16 && c == a * 0x1000 + b * 0x100 + d * 0x10 + e
    ensures c / 0x1000 == a && c / 0x100 % 16 == b && c / 0x10 % 16 == d && c % 16 == e
  {
    LowDigit(c, a * 0x100 + b * 0x10 + d, e);
    LowDigit(a * 0x100 + b * 0x10 + d, a * 0x10 + b, d);
    LowDigit(a * 0x10 + b, a, b);
    Shifted(c);
  }

  lemma LowDigit(n: nat, high: nat, low: nat)
    requires n == high * 16 + low && low < 16
    ensures n / 16 == high && n % 16 == low
  {}

  lemma Shifted(n: nat)
    ensures n / 0x100 == n / 16 / 16 && n / 0x1000 == n / 16 / 16 / 16
  {}

  /** In a string a character is read exactly from one of its forms. */
  lemma CharExactly(s: JString, c: Unit, n: nat)
    requires n <= |s|
    ensures CharAt(s) == Some((c, n)) <==> Writes(s[..n], c)
  {
    if |s| >= 6 && s[0] == BACKSLASH && s[1] == LOWER_U {
      HexExactly(s[2..6], c);
      assert HexUnit(s[2..]) == HexUnit(s[2..6]);
      assert n == 6 ==> s[..n][2..] == s[2..6];
    }
  }

  // ---------------------------------------------------------------- white space and items

  predicate Visible(s: JString) { s != [] && !IsSpace(s[0]) && s[0] != CLOSE_BRACKET }

  /** What may follow a value. */
  predicate EndsItem(rest: JString) {
    rest == [] || IsSpace(rest[0]) || rest[0] == COMMA || rest[0] == CLOSE_BRACKET || rest[0] == CLOSE_BRACE
  }

  predicate Blank(gap: JString) { forall u <- gap :: IsSpace(u) }

  lemma {:induction false} SkipGap(gap: JString, s: JString)
    requires Blank(gap) && (s == [] || !IsSpace(s[0]))
    ensures Skip(gap + s) == s
  {
    if gap != [] {
      assert gap[0] in gap && (gap + s)[1..] == gap[1..] + s;
      SkipGap(gap[1..], s);
    } else {
      assert gap + s == s;
    }
  }

  /** The text is read as the value wherever it stands. */
  ghost predicate Prints(text: JString, v: Value) {
    Visible(text) && forall rest | EndsItem(rest) :: ParseValue(text + rest) == Some(Parsed(v, rest))
  }

  lemma GapEnds(gap: JString, u: Unit, rest: JString)
    requires Blank(gap) && (u == COMMA || u == CLOSE_BRACKET || u == CLOSE_BRACE)
    ensures EndsItem(gap + ([u] + rest)) && Skip(gap + ([u] + rest)) == [u] + rest
  {
    SkipGap(gap, [u] + rest);
    assert gap != [] ==> gap[0] in gap;
  }

  lemma LastItem(text: JString, v: Value, gap: JString, rest: JString)
    requires Prints(text, v) && Blank(gap)
    ensures ParseItems(text + (gap + ([CLOSE_BRACKET] + rest))) == Some(Parsed([v], rest))
  {
    GapEnds(gap, CLOSE_BRACKET, rest);
    assert ([CLOSE_BRACKET] + rest)[1..] == rest;
  }

  lemma NextItem(text: JString, v: Value, gap: JString, s: JString, vs: seq<Value>, rest: JString)
    requires Prints(text, v) && Blank(gap) && Visible(s) && ParseItems(s) == Some(Parsed(vs, rest))
    ensures ParseItems(text + (gap + ([COMMA] + (gap + s)))) == Some(Parsed([v] + vs, rest))
  {
    GapEnds(gap, COMMA, gap + s);
    SkipGap(gap, s);
    assert ([COMMA] + (gap + s))[1..] == gap + s;
  }

  /** How a list unfolds behind its first item. */
  lemma JoinedMore(texts: seq<JString>, gap: JString, end: JString)
    requires |texts| > 1
    ensures Joined(texts, gap) + end == texts[0] + (gap + ([COMMA] + (gap + (Joined(texts[1..], gap) + end))))
  {
    var t := Joined(texts[1..], gap);
    assert Joined(texts, gap) == texts[0] + gap + [COMMA] + (gap + t);
    Regroup(texts[0], gap, [COMMA], gap, t, end);
  }

  lemma Regroup(a: JString, b: JString, c: JString, d: JString, e: JString, f: JString)
    ensures a + b + c + (d + e) + f == a + (b + (c + (d + (e + f))))
  {}

  lemma JoinedOne(text: JString, gap: JString, end: JString)
    ensures Joined([text], gap) + end == text + (gap + end)
  {}

  lemma JoinedStart(texts: seq<JString>, gap: JString, end: JString)
    requires texts != [] && texts[0] != []
    ensures Joined(texts, gap) + end != [] && (Joined(texts, gap) + end)[0] == texts[0][0]
  {}

  lemma {:induction false} JoinedRoundTrip(texts: seq<JString>, vs: seq<Value>, gap: JString, rest: JString)
    requires texts != [] && |texts| == |vs| && Blank(gap) && forall i | 0 <= i < |texts| :: Prints(texts[i], vs[i])
    ensures ParseItems(Joined(texts, gap) + ([CLOSE_BRACKET] + rest)) == Some(Parsed(vs, rest))
  {
    if |texts| == 1 {
      LastItem(texts[0], vs[0], gap, rest);
      JoinedOne(texts[0], gap, [CLOSE_BRACKET] + rest);
      assert vs == [vs[0]] && texts == [texts[0]];
    } else {
      JoinedRoundTrip(texts[1..], vs[1..], gap, rest);
      assert Prints(texts[1], vs[1]);
      JoinedStep(texts, vs, gap, rest);
    }
  }

  lemma JoinedStep(texts: seq<JString>, vs: seq<Value>, gap: JString, rest: JString)
    requires |texts| > 1 && |texts| == |vs| && Blank(gap) && Prints(texts[0], vs[0]) && Visible(texts[1])
    requires ParseItems(Joined(texts[1..], gap) + ([CLOSE_BRACKET] + rest)) == Some(Parsed(vs[1..], rest))
    ensures ParseItems(Joined(texts, gap) + ([CLOSE_BRACKET] + rest)) == Some(Parsed(vs, rest))
  {
    var more := Joined(texts[1..], gap) + ([CLOSE_BRACKET] + rest);
    JoinedStart(texts[1..], gap, [CLOSE_BRACKET] + rest);
    JoinedMore(texts, gap, [CLOSE_BRACKET] + rest);
    NextItem(texts[0], vs[0], gap, more, vs[1..], rest);
    assert vs == [vs[0]] + vs[1..];
  }

  lemma EnclosedStart(open: Unit, texts: seq<JString>, gap: JString, close: Unit, rest: JString)
    ensures var s := Enclosed(open, texts, gap, close) + rest;
            s[0] == open && s[1..] == gap + (if texts == [] then [close] + rest else Joined(texts, gap) + ([close] + rest))
  {
    if texts != [] {
      var t := Joined(texts, gap);
      assert Enclosed(open, texts, gap, close) + rest == [open] + (gap + (t + ([close] + rest)));
    } else {
      assert Enclosed(open, texts, gap, close) + rest == [open] + (gap + ([close] + rest));
    }
  }

  lemma ItemsRead(texts: seq<JString>, vs: seq<Value>, gap: JString, rest: JString)
    requires |texts| == |vs| && Blank(gap) && forall i | 0 <= i < |texts| :: Prints(texts[i], vs[i])
    ensures ParseValue(Brackets(texts, gap) + rest) == Some(Parsed(Arr(vs), rest))
  {
    EnclosedStart(OPEN_BRACKET, texts, gap, CLOSE_BRACKET, rest);
    var end := [CLOSE_BRACKET] + rest;
    assert end[1..] == rest;
    if texts == [] {
      SkipGap(gap, end);
    } else {
      assert Prints(texts[0], vs[0]);
      JoinedStart(texts, gap, end);
      SkipGap(gap, Joined(texts, gap) + end);
      JoinedRoundTrip(texts, vs, gap, rest);
    }
  }

  lemma BracketsRoundTrip(texts: seq<JString>, vs: seq<Value>, gap: JString)
    requires |texts| == |vs| && Blank(gap) && forall i | 0 <= i < |texts| :: Prints(texts[i], vs[i])
    ensures Parse(Brackets(texts, gap)) == Some(Arr(vs))
  {
    ItemsRead(texts, vs, gap, []);
    assert Brackets(texts, gap) + [] == Brackets(texts, gap) && Brackets(texts, gap)[0] == OPEN_BRACKET;
  }

  function Strings(values: seq<JString>): seq<Value> {
    seq(|values|, i requires 0 <= i < |values| => Str(values[i]))
  }

  lemma QuotedPrints(s: JString)
    ensures Prints(Quoted(s), Str(s))
  {
    forall rest | EndsItem(rest) ensures ParseValue(Quoted(s) + rest) == Some(Parsed(Str(s), rest)) {
      QuotedRoundTrip(s, rest);
    }
  }

  /** Printing an array of strings and parsing the text gives the array back, for any code units,
      paired or not. */
  lemma StringifyRoundTrip(values: seq<JString>)
    ensures Parse(Stringify(values)) == Some(Arr(Strings(values)))
  {
    var texts := seq(|values|, i requires 0 <= i < |values| => Quoted(values[i]));
    forall i | 0 <= i < |texts| ensures Prints(texts[i], Strings(values)[i]) {
      QuotedPrints(values[i]);
    }
    BracketsRoundTrip(texts, Strings(values), []);
  }

  // ---------------------------------------------------------------- numbers

  predicate AllDigits(s: JString) { forall u <- s :: IsDigit(u) }

  predicate IsInt(s: JString) { s != [] && AllDigits(s) && (s[0] == ZERO ==> |s| == 1) }

  predicate IsFraction(s: JString) { s == [] || (s[0] == DOT && |s| > 1 && AllDigits(s[1..])) }

  /** The letter e, large or small, a sign if any, and digits. */
  predicate IsExponent(s: JString) {
    s == [] || ((s[0] == 0x65 || s[0] == 0x45) && |s| > 1 &&
                if s[1] == PLUS || s[1] == MINUS then |s| > 2 && AllDigits(s[2..]) else AllDigits(s[1..]))
  }

  predicate NoDigit(s: JString) { s == [] || !IsDigit(s[0]) }

  lemma {:induction false} DigitsAre(s: JString, rest: JString)
    requires AllDigits(s) && NoDigit(rest)
    ensures Digits(s + rest) == |s|
  {
    if s != [] {
      DigitsAre(s[1..], rest);
      assert s[0] in s && (s + rest)[1..] == s[1..] + rest;
    } else {
      assert s + rest == rest;
    }
  }

  lemma ExponentRead(exponent: JString, rest: JString)
    requires IsExponent(exponent) && EndsItem(rest)
    ensures ExpLength(exponent + rest) == |exponent|
  {
    var s := exponent + rest;
    if exponent == [] {
      assert s == rest;
    } else if exponent[1] == PLUS || exponent[1] == MINUS {
      assert s[2..] == exponent[2..] + rest;
      DigitsAre(exponent[2..], rest);
    } else {
      assert s[1..] == exponent[1..] + rest;
      DigitsAre(exponent[1..], rest);
      assert s[1] == exponent[1];
    }
  }

  /** A fraction, if any, is read up to the exponent or the end. */
  lemma FractionRead(fraction: JString, tail: JString)
    requires IsFraction(fraction) && NoDigit(tail) && (fraction == [] ==> tail == [] || tail[0] != DOT)
    ensures FractionLength(fraction + tail) == |fraction|
  {
    if fraction == [] {
      assert fraction + tail == tail;
    } else {
      assert (fraction + tail)[1..] == fraction[1..] + tail;
      DigitsAre(fraction[1..], tail);
    }
  }

  function Numeral(negative: bool, whole: JString, fraction: JString, exponent: JString): JString {
    (if negative then [MINUS] else []) + (whole + (fraction + exponent))
  }

  /** The number with its sign, if any, in front of anything that may follow a value. */
  lemma NumberRead(negative: bool, whole: JString, fraction: JString, exponent: JString, rest: JString)
    requires IsInt(whole) && IsFraction(fraction) && IsExponent(exponent) && EndsItem(rest)
    ensures NumberLength(Numeral(negative, whole, fraction, exponent) + rest) == |Numeral(negative, whole, fraction, exponent)|
  {
    var tail := exponent + rest;
    SignAway(negative, whole, fraction, exponent, rest);
    PartsRead(whole, fraction, exponent, rest);
    assert whole[0] in whole;
    Behind(whole, fraction + tail);
    Behind(fraction, tail);
  }

  lemma Behind(a: JString, b: JString)
    ensures (a + b)[|a|..] == b
  {}

  lemma SignAway(negative: bool, whole: JString, fraction: JString, exponent: JString, rest: JString)
    requires whole != []
    ensures var a, s := if negative then 1 else 0, Numeral(negative, whole, fraction, exponent) + rest;
            s[a..] == whole + (fraction + (exponent + rest)) && s[0] == if negative then MINUS else whole[0]
  {
    Shift(whole, fraction, exponent, rest);
    var t := whole + (fraction + exponent);
    assert ([MINUS] + t + rest)[1..] == t + rest;
    assert ([] + t + rest)[0..] == t + rest;
  }

  lemma Shift(a: JString, b: JString, c: JString, d: JString)
    ensures a + (b + c) + d == a + (b + (c + d))
  {}

  /** Where each part ends. */
  lemma PartsRead(whole: JString, fraction: JString, exponent: JString, rest: JString)
    requires IsInt(whole) && IsFraction(fraction) && IsExponent(exponent) && EndsItem(rest)
    ensures var tail := exponent + rest;
            && IntLength(whole + (fraction + tail)) == |whole|
            && FractionLength(fraction + tail) == |fraction| && ExpLength(tail) == |exponent|
  {
    var tail := exponent + rest;
    assert tail == [] || (!IsDigit(tail[0]) && tail[0] != DOT);
    assert NoDigit(fraction + tail);
    DigitsAre(whole, fraction + tail);
    FractionRead(fraction, tail);
    ExponentRead(exponent, rest);
  }

  // ---------------------------------------------------------------- any value

  /** Every number in it is one of the grammar. */
  ghost predicate WellFormed(v: Value) {
    match v
    case Number(lexeme) => IsNumber(lexeme)
    case Arr(items) => forall i | 0 <= i < |items| :: WellFormed(items[i])
    case Obj(members) => forall i | 0 <= i < |members| :: WellFormed(members[i].1)
    case _ => true
  }

  ghost predicate IsNumber(lexeme: JString) {
    exists negative: bool, whole, fraction, exponent ::
      lexeme == Numeral(negative, whole, fraction, exponent) && IsInt(whole) && IsFraction(fraction) && IsExponent(exponent)
  }

  lemma {:induction false} DigitsPrefix(s: JString)
    ensures Digits(s) <= |s| && AllDigits(s[..Digits(s)])
  {
    DigitsBound(s);
    if s != [] && IsDigit(s[0]) {
      DigitsPrefix(s[1..]);
      assert s[..Digits(s)] == [s[0]] + s[1..][..Digits(s[1..])];
    }
  }

  lemma Cut(s: JString, n: nat)
    requires n <= |s|
    ensures s == s[..n] + s[n..]
  {}

  lemma WholePrefix(s: JString) returns (whole: JString, behind: JString)
    requires IntLength(s) > 0
    ensures s == whole + behind && IsInt(whole) && |whole| == IntLength(s) && behind == s[IntLength(s)..]
  {
    DigitsPrefix(s);
    whole, behind := s[..IntLength(s)], s[IntLength(s)..];
    Cut(s, IntLength(s));
  }

  lemma FractionPrefix(s: JString) returns (fraction: JString, behind: JString)
    requires FractionLength(s) != 1
    ensures s == fraction + behind && IsFraction(fraction) && |fraction| == FractionLength(s) && behind == s[FractionLength(s)..]
  {
    fraction, behind := s[..FractionLength(s)], s[FractionLength(s)..];
    Cut(s, FractionLength(s));
    if s != [] && s[0] == DOT {
      DigitsPrefix(s[1..]);
      assert fraction[1..] == s[1..][..Digits(s[1..])];
    }
  }

  lemma ExponentPrefix(s: JString) returns (exponent: JString, rest: JString)
    ensures s == exponent + rest && IsExponent(exponent) && |exponent| == ExpLength(s)
  {
    exponent, rest := s[..ExpLength(s)], s[ExpLength(s)..];
    Cut(s, ExpLength(s));
    if ExpLength(s) > 0 {
      var a := if |s| > 1 && (s[1] == PLUS || s[1] == MINUS) then 2 else 1;
      DigitsPrefix(s[a..]);
      assert exponent[a..] == s[a..][..Digits(s[a..])];
      assert a == 1 ==> s[1..][0] == s[1];
    }
  }

  /** What is read as a number is one of the grammar: no leading zeros, and digits behind a dot and an e. */
  lemma NumberIsNumeral(s: JString)
    requires NumberLength(s) > 0
    ensures IsNumber(s[..NumberLength(s)])
  {
    var a := if s[0] == MINUS then 1 else 0;
    var whole, u := WholePrefix(s[a..]);
    var fraction, v := FractionPrefix(u);
    var exponent, rest := ExponentPrefix(v);
    Assembled(s, a, whole, fraction, exponent, rest);
  }

  lemma Assembled(s: JString, a: nat, whole: JString, fraction: JString, exponent: JString, rest: JString)
    requires s != [] && a == (if s[0] == MINUS then 1 else 0) && s[a..] == whole + (fraction + (exponent + rest))
    requires IsInt(whole) && IsFraction(fraction) && IsExponent(exponent)
    ensures IsNumber(s[..a + |whole| + |fraction| + |exponent|])
  {
    var lexeme := Numeral(a == 1, whole, fraction, exponent);
    assert s == (if a == 1 then [MINUS] else []) + s[a..];
    assert s == lexeme + rest;
    assert s[..|lexeme|] == lexeme;
  }

  lemma NumeralPrints(negative: bool, whole: JString, fraction: JString, exponent: JString)
    requires IsInt(whole) && IsFraction(fraction) && IsExponent(exponent)
    ensures var lexeme := Numeral(negative, whole, fraction, exponent); Prints(lexeme, Number(lexeme))
  {
    var lexeme := Numeral(negative, whole, fraction, exponent);
    assert whole[0] in whole;
    SignAway(negative, whole, fraction, exponent, []);
    assert lexeme + [] == lexeme;
    forall rest | EndsItem(rest) ensures ParseValue(lexeme + rest) == Some(Parsed(Number(lexeme), rest)) {
      NumberRead(negative, whole, fraction, exponent, rest);
      LexemeRead(lexeme, rest);
    }
  }

  lemma LexemePrints(lexeme: JString)
    requires IsNumber(lexeme)
    ensures Prints(lexeme, Number(lexeme))
  {
    var negative: bool, whole, fraction, exponent :|
      lexeme == Numeral(negative, whole, fraction, exponent) && IsInt(whole) && IsFraction(fraction) && IsExponent(exponent);
    NumeralPrints(negative, whole, fraction, exponent);
  }

  lemma LexemeRead(text: JString, rest: JString)
    requires text != [] && (IsDigit(text[0]) || text[0] == MINUS) && NumberLength(text + rest) == |text|
    ensures ParseValue(text + rest) == Some(Parsed(Number(text), rest))
  {
    var s := text + rest;
    NoWord(s);
    assert s[..|text|] == text && s[|text|..] == rest;
  }

  lemma NoWord(s: JString)
    requires s != [] && (IsDigit(s[0]) || s[0] == MINUS)
    ensures !(TRUE <= s) && !(FALSE <= s) && !(NULL <= s)
  {
    assert TRUE[0] != s[0] && FALSE[0] != s[0] && NULL[0] != s[0];
  }

  lemma WordPrints(word: JString, v: Value)
    requires (word == TRUE && v == Bool(true)) || (word == FALSE && v == Bool(false)) || (word == NULL && v == Null)
    ensures Prints(word, v)
  {
    forall rest | EndsItem(rest) ensures ParseValue(word + rest) == Some(Parsed(v, rest)) {
      assert word <= word + rest && (word + rest)[|word|..] == rest;
    }
  }

  /** Any value, printed with any white space between its parts, is read back as itself. */
  lemma {:induction false} PrintPrints(v: Value, gap: JString)
    requires WellFormed(v) && Blank(gap)
    ensures Prints(Print(v, gap), v)
  {
    match v
    case Null => WordPrints(NULL, v);
    case Bool(b) => WordPrints(if b then TRUE else FALSE, v);
    case Number(lexeme) => LexemePrints(lexeme);
    case Str(s) => QuotedPrints(s);
    case Arr(items) =>
      var texts := seq(|items|, i requires 0 <= i < |items| => Print(items[i], gap));
      forall i | 0 <= i < |items| ensures Prints(texts[i], items[i]) {
        PrintPrints(items[i], gap);
      }
      ArrayPrints(texts, items, gap);
    case Obj(members) =>
      var texts := seq(|members|, i requires 0 <= i < |members| => Print(members[i].1, gap));
      forall i | 0 <= i < |members| ensures Prints(texts[i], members[i].1) {
        PrintPrints(members[i].1, gap);
      }
      ObjectPrints(texts, members, gap);
      assert Members(texts, members, gap)
             == seq(|members|, i requires 0 <= i < |members| => Member(members[i].0, Print(members[i].1, gap), gap));
  }

  lemma ArrayPrints(texts: seq<JString>, items: seq<Value>, gap: JString)
    requires |texts| == |items| && Blank(gap) && forall i | 0 <= i < |texts| :: Prints(texts[i], items[i])
    ensures Prints(Brackets(texts, gap), Arr(items))
  {
    forall rest | EndsItem(rest) ensures ParseValue(Brackets(texts, gap) + rest) == Some(Parsed(Arr(items), rest)) {
      ItemsRead(texts, items, gap, rest);
    }
  }

  function Members(texts: seq<JString>, members: seq<(JString, Value)>, gap: JString): seq<JString>
    requires |texts| == |members|
  {
    seq(|members|, i requires 0 <= i < |members| => Member(members[i].0, texts[i], gap))
  }

  /** One member in front of something that ends it: its key, and its value behind the colon. */
  lemma KeyRead(key: JString, text: JString, gap: JString, end: JString)
    ensures var s := Member(key, text, gap) + end;
            s[0] == QUOTE && ParseChars(s[1..]) == Some(Parsed(key, gap + ([COLON] + (gap + (text + end)))))
  {
    var tail := gap + ([COLON] + (gap + (text + end)));
    MemberTail(key, text, gap, end);
    assert (Quoted(key) + tail)[1..] == Tail(key, tail);
    BodyRoundTrip(key, tail);
  }

  lemma MemberTail(key: JString, text: JString, gap: JString, end: JString)
    ensures Member(key, text, gap) + end == Quoted(key) + (gap + ([COLON] + (gap + (text + end))))
  {
    Regroup(Quoted(key), gap, [COLON], gap, text, end);
  }

  lemma ColonRead(text: JString, gap: JString, end: JString)
    requires Visible(text) && Blank(gap)
    ensures var t := [COLON] + (gap + (text + end));
            Skip(gap + t) == t && t[0] == COLON && Skip(t[1..]) == text + end
  {
    var t := [COLON] + (gap + (text + end));
    SkipGap(gap, t);
    assert t[1..] == gap + (text + end);
    SkipGap(gap, text + end);
  }

  lemma LastMember(key: JString, text: JString, v: Value, gap: JString, rest: JString)
    requires Prints(text, v) && Blank(gap)
    ensures ParseMembers(Member(key, text, gap) + (gap + ([CLOSE_BRACE] + rest))) == Some(Parsed([(key, v)], rest))
  {
    var end := gap + ([CLOSE_BRACE] + rest);
    GapEnds(gap, CLOSE_BRACE, rest);
    KeyRead(key, text, gap, end);
    ColonRead(text, gap, end);
    assert ([CLOSE_BRACE] + rest)[1..] == rest;
  }

  lemma NextMember(key: JString, text: JString, v: Value, gap: JString, more: JString, ms: seq<(JString, Value)>, rest: JString)
    requires Prints(text, v) && Blank(gap) && more != [] && !IsSpace(more[0]) && ParseMembers(more) == Some(Parsed(ms, rest))
    ensures ParseMembers(Member(key, text, gap) + (gap + ([COMMA] + (gap + more)))) == Some(Parsed([(key, v)] + ms, rest))
  {
    var end := gap + ([COMMA] + (gap + more));
    GapEnds(gap, COMMA, gap + more);
    KeyRead(key, text, gap, end);
    ColonRead(text, gap, end);
    SkipGap(gap, more);
    assert ([COMMA] + (gap + more))[1..] == gap + more;
  }

  lemma {:induction false} MembersRead(texts: seq<JString>, members: seq<(JString, Value)>, gap: JString, rest: JString)
    requires texts != [] && |texts| == |members| && Blank(gap) && forall i | 0 <= i < |texts| :: Prints(texts[i], members[i].1)
    ensures ParseMembers(Joined(Members(texts, members, gap), gap) + ([CLOSE_BRACE] + rest)) == Some(Parsed(members, rest))
  {
    var all := Members(texts, members, gap);
    if |texts| == 1 {
      LastMember(members[0].0, texts[0], members[0].1, gap, rest);
      JoinedOne(all[0], gap, [CLOSE_BRACE] + rest);
      assert all == [all[0]] && members == [(members[0].0, members[0].1)];
    } else {
      MembersRead(texts[1..], members[1..], gap, rest);
      assert all[1..] == Members(texts[1..], members[1..], gap);
      MemberStart(members[1].0, texts[1], gap);
      MembersStep(all, members[0].0, texts[0], members[0].1, members[1..], gap, rest);
      assert members == [(members[0].0, members[0].1)] + members[1..];
    }
  }

  lemma MembersStep(all: seq<JString>, key: JString, text: JString, v: Value, ms: seq<(JString, Value)>, gap: JString, rest: JString)
    requires |all| > 1 && all[0] == Member(key, text, gap) && all[1] != [] && all[1][0] == QUOTE
    requires Blank(gap) && Prints(text, v)
    requires ParseMembers(Joined(all[1..], gap) + ([CLOSE_BRACE] + rest)) == Some(Parsed(ms, rest))
    ensures ParseMembers(Joined(all, gap) + ([CLOSE_BRACE] + rest)) == Some(Parsed([(key, v)] + ms, rest))
  {
    JoinedStart(all[1..], gap, [CLOSE_BRACE] + rest);
    JoinedMore(all, gap, [CLOSE_BRACE] + rest);
    NextMember(key, text, v, gap, Joined(all[1..], gap) + ([CLOSE_BRACE] + rest), ms, rest);
  }

  lemma MemberStart(key: JString, text: JString, gap: JString)
    ensures Member(key, text, gap) != [] && Member(key, text, gap)[0] == QUOTE
  {}

  lemma ObjectPrints(texts: seq<JString>, members: seq<(JString, Value)>, gap: JString)
    requires |texts| == |members| && Blank(gap) && forall i | 0 <= i < |texts| :: Prints(texts[i], members[i].1)
    ensures Prints(Enclosed(OPEN_BRACE, Members(texts, members, gap), gap, CLOSE_BRACE), Obj(members))
  {
    forall rest | EndsItem(rest)
      ensures ParseValue(Enclosed(OPEN_BRACE, Members(texts, members, gap), gap, CLOSE_BRACE) + rest)
           == Some(Parsed(Obj(members), rest))
    {
      ObjectRead(texts, members, gap, rest);
    }
  }

  lemma ObjectRead(texts: seq<JString>, members: seq<(JString, Value)>, gap: JString, rest: JString)
    requires |texts| == |members| && Blank(gap) && forall i | 0 <= i < |texts| :: Prints(texts[i], members[i].1)
    ensures ParseValue(Enclosed(OPEN_BRACE, Members(texts, members, gap), gap, CLOSE_BRACE) + rest)
         == Some(Parsed(Obj(members), rest))
  {
    var all, end := Members(texts, members, gap), [CLOSE_BRACE] + rest;
    EnclosedStart(OPEN_BRACE, all, gap, CLOSE_BRACE, rest);
    assert end[1..] == rest;
    if texts == [] {
      SkipGap(gap, end);
    } else {
      JoinedStart(all, gap, end);
      SkipGap(gap, Joined(all, gap) + end);
      MembersRead(texts, members, gap, rest);
    }
  }

  /** A text of any JSON value, with white space anywhere, is parsed to that value. */
  lemma ParsePrint(v: Value, gap: JString)
    requires WellFormed(v) && Blank(gap)
    ensures Parse(gap + (Print(v, gap) + gap)) == Some(v)
  {
    PrintPrints(v, gap);
    assert gap != [] ==> gap[0] in gap;
    assert EndsItem(gap);
    SkipGap(gap, Print(v, gap) + gap);
    SkipGap(gap, []);
    assert gap + [] == gap;
  }

  /** With anything else behind it the text is refused. */
  lemma TrailRefused(v: Value, gap: JString, rest: JString)
    requires WellFormed(v) && Blank(gap) && EndsItem(rest) && Skip(rest) != []
    ensures Parse(Print(v, gap) + rest).None?
  {
    PrintPrints(v, gap);
    assert Skip(Print(v, gap) + rest) == Print(v, gap) + rest;
  }
}
