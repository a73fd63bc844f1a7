/** insights.go: the amount and the currency read from a free text such as "CHF 1'240.00". */
module Amount {
  import opened AmountPattern
  import opened Common

  /** mantissa / 10^scale. */
  datatype Decimal = Decimal(mantissa: nat, scale: nat)

  datatype Reading = NoNumber | Unreadable(code: string) | Amount(value: Decimal, currency: string)

  function Pow(base: nat, e: nat): nat { if e == 0 then 1 else base * Pow(base, e - 1) }

  /** 2^1024 - 2^970: from here on a decimal rounds beyond the largest 64-bit float. */
  function Limit(): nat { 0x3F_FFFF_FFFF_FFFF * Pow(2, 970) }

  // ---------------------------------------------------------------- reading

  function DigitValue(c: char): (n: nat)
    requires Digit(c)
  { c as int - '0' as int }

  predicate Digits(s: string) { All(Digit, s) }

  function Value(s: string): nat
    requires Digits(s)
  {
    if s == [] then 0 else Value(s[..|s| - 1]) * 10 + DigitValue(s[|s| - 1])
  }

  function Without(s: string, c: char): string {
    if s == [] then [] else (if s[0] == c then [] else [s[0]]) + Without(s[1..], c)
  }

  /** The first position of a character, or -1. */
  function Index(s: string, c: char): (i: int)
    ensures i == -1 <==> c !in s
    ensures i != -1 ==> 0 <= i < |s| && s[i] == c && c !in s[..i]
  {
    if s == [] then -1
    else if s[0] == c then 0
    else
      var i := Index(s[1..], c);
      if i == -1 then -1 else
        assert s[..i + 1] == [s[0]] + s[1..][..i];
        i + 1
  }

  /** The last position of a character, or -1. */
  function LastIndex(s: string, c: char): (i: int)
    ensures i == -1 <==> c !in s
    ensures i != -1 ==> 0 <= i < |s| && s[i] == c && c !in s[i + 1..]
  {
    if s == [] then -1
    else if s[|s| - 1] == c then |s| - 1
    else LastIndex(s[..|s| - 1], c)
  }

  function ReplaceFirst(s: string, c: char, d: char): string {
    var i := Index(s, c);
    if i == -1 then s else s[..i] + [d] + s[i + 1..]
  }

  /** The right-most of comma and dot is the decimal separator; a lone comma is one as well. */
  function Decided(raw: string): string {
    if ',' in raw && '.' in raw then
      if LastIndex(raw, ',') > LastIndex(raw, '.') then ReplaceFirst(Without(raw, '.'), ',', '.')
      else Without(raw, ',')
    else ReplaceFirst(raw, ',', '.')
  }

  function Normalized(number: string): string { Decided(Without(Without(number, ' '), '\'')) }

  /** Decimal digits with at most one dot, within the range of a 64-bit float. */
  function ParseFloat(s: string): Option<Decimal> {
    var i := Index(s, '.');
    var digits, scale := if i == -1 then s else s[..i] + s[i + 1..], if i == -1 then 0 else |s| - i - 1;
    if digits == [] || !Digits(digits) then None
    else if Value(digits) >= Limit() * Pow(10, scale) then None
    else Some(Decimal(Value(digits), scale))
  }

  function ToUpper(c: char): char {
    if 'a' <= c <= 'z' then (c - 'a' + 'A') else if c == '\U{17F}' then 'S' else c
  }

  function Upper(s: string): (r: string)
    ensures |r| == |s|
  { seq(|s|, i requires 0 <= i < |s| => ToUpper(s[i])) }

  function Read(m: Match): Reading {
    match ParseFloat(Normalized(m.number))
    case None => Unreadable(Upper(m.code))
    case Some(v) => Amount(v, Upper(m.code))
  }

  function ReadAmount(value: string): Reading {
    match Search(TrimSpace(value))
    case None => NoNumber
    case Some(m) => Read(m)
  }

  method ParseAmount(value: string) returns (r: Reading)
    ensures r == ReadAmount(value)
  {
    var matches := Search(TrimSpace(value));
    if matches.None? {
      return NoNumber;
    }
    var currency := Upper(matches.value.code);
    var raw := matches.value.number;
    raw := Without(raw, ' ');
    raw := Without(raw, '\'');
    var lastComma := LastIndex(raw, ',');
    var lastDot := LastIndex(raw, '.');
    if lastComma >= 0 && lastDot >= 0 {
      if lastComma > lastDot {
        raw := Without(raw, '.');
        raw := ReplaceFirst(raw, ',', '.');
      } else {
        raw := Without(raw, ',');
      }
    } else if lastComma >= 0 {
      raw := ReplaceFirst(raw, ',', '.');
    }
    var amount := ParseFloat(raw);
    r := if amount.None? then Unreadable(currency) else Amount(amount.value, currency);
  }

  // ---------------------------------------------------------------- printing

  function DigitOf(n: nat): (c: char)
    requires n < 10
    ensures Digit(c) && DigitValue(c) == n
  { '0' + n as char }

  function Numerals(n: nat): (s: string)
    ensures s != [] && Digits(s)
  {
    if n < 10 then [DigitOf(n)] else Numerals(n / 10) + [DigitOf(n % 10)]
  }

  function Two(n: nat): (s: string)
    requires n < 100
    ensures Digits(s)
  { [DigitOf(n / 10), DigitOf(n % 10)] }

  function Three(n: nat): (s: string)
    requires n < 1000
    ensures Digits(s)
  { [DigitOf(n / 100), DigitOf(n / 10 % 10), DigitOf(n % 10)] }

  /** A whole number with a separator in front of every three digits. */
  function Grouped(n: nat, separator: string): string {
    if n < 1000 then Numerals(n) else Grouped(n / 1000, separator) + (separator + Three(n % 1000))
  }

  /** How amounts are written: a separator of thousands, if any, and a decimal point. */
  datatype Style = Style(separator: string, point: char) {
    predicate Valid() {
      && (separator == [] || separator == " " || separator == "'" || separator == "," || separator == ".")
      && (point == '.' || point == ',') && separator != [point]
    }
  }

  function Printed(cents: nat, style: Style): string {
    Grouped(cents / 100, style.separator) + ([style.point] + Two(cents % 100))
  }

  // ---------------------------------------------------------------- digits

  lemma {:induction false} ValueOfNumerals(n: nat)
    ensures Value(Numerals(n)) == n
  {
    if n >= 10 {
      ValueOfNumerals(n / 10);
      assert Numerals(n)[..|Numerals(n)| - 1] == Numerals(n / 10);
    }
  }

  lemma ValuePush(s: string, n: nat)
    requires Digits(s) && n < 10
    ensures Digits(s + [DigitOf(n)]) && Value(s + [DigitOf(n)]) == Value(s) * 10 + n
  {
    assert (s + [DigitOf(n)])[..|s|] == s;
  }

  lemma ValueOfCents(cents: nat)
    ensures Digits(Numerals(cents / 100) + Two(cents % 100))
    ensures Value(Numerals(cents / 100) + Two(cents % 100)) == cents
  {
    var u, c := cents / 100, cents % 100;
    ValueOfNumerals(u);
    ValuePush(Numerals(u), c / 10);
    ValuePush(Numerals(u) + [DigitOf(c / 10)], c % 10);
    assert Numerals(u) + Two(c) == (Numerals(u) + [DigitOf(c / 10)]) + [DigitOf(c % 10)];
  }

  lemma DigitsOfThousands(n: nat)
    ensures n / 10 / 10 == n / 100 && n / 100 / 10 == n / 1000
    ensures n % 1000 / 100 == n / 100 % 10 && n % 1000 / 10 % 10 == n / 10 % 10 && n % 1000 % 10 == n % 10
  {}

  lemma PushThree(s: string, a: char, b: char, c: char)
    ensures ((s + [a]) + [b]) + [c] == s + [a, b, c]
  {}

  lemma NumeralsOfThousands(n: nat)
    requires n >= 1000
    ensures Numerals(n) == Numerals(n / 1000) + Three(n % 1000)
  {
    DigitsOfThousands(n);
    var a, b, c := DigitOf(n / 100 % 10), DigitOf(n / 10 % 10), DigitOf(n % 10);
    NumeralsOf(n);
    NumeralsOf(n / 10);
    NumeralsOf(n / 100);
    PushThree(Numerals(n / 1000), a, b, c);
  }

  lemma NumeralsOf(n: nat)
    requires n >= 10
    ensures Numerals(n) == Numerals(n / 10) + [DigitOf(n % 10)]
  {}

  /** Taking the separators away leaves the number. */
  lemma {:induction false} GroupedWithout(n: nat, separator: string, c: char)
    requires !Digit(c)
    ensures Without(Grouped(n, separator), c) == Grouped(n, Without(separator, c))
  {
    if n < 1000 {
      WithoutAbsent(Numerals(n), c);
    } else {
      GroupedWithout(n / 1000, separator, c);
      WithoutAbsent(Three(n % 1000), c);
      WithoutAppend(Grouped(n / 1000, separator), separator + Three(n % 1000), c);
      WithoutAppend(separator, Three(n % 1000), c);
    }
  }

  lemma {:induction false} Ungrouped(n: nat)
    ensures Grouped(n, []) == Numerals(n)
  {
    if n >= 1000 {
      Ungrouped(n / 1000);
      NumeralsOfThousands(n);
      assert [] + Three(n % 1000) == Three(n % 1000);
    }
  }

  lemma {:induction false} WithoutAbsent(s: string, c: char)
    requires c !in s
    ensures Without(s, c) == s
  {
    if s != [] {
      WithoutAbsent(s[1..], c);
    }
  }

  lemma {:induction false} WithoutAppend(s: string, t: string, c: char)
    ensures Without(s + t, c) == Without(s, c) + Without(t, c)
  {
    if s == [] {
      assert s + t == t;
    } else {
      assert (s + t)[1..] == s[1..] + t;
      WithoutAppend(s[1..], t, c);
    }
  }

  /** A separator is written exactly from one thousand on. */
  lemma {:induction false} SeparatorShows(n: nat, separator: string, c: char)
    requires !Digit(c)
    ensures c in Grouped(n, separator) <==> n >= 1000 && c in separator
  {
    if n >= 1000 {
      SeparatorShows(n / 1000, separator, c);
    }
  }

  // ---------------------------------------------------------------- separators

  lemma LastIndexBehind(s: string, c: char, t: string, d: char)
    requires c !in t && d != c && d !in t
    ensures c in s + ([c] + t) && LastIndex(s + ([c] + t), d) < LastIndex(s + ([c] + t), c)
  {
    var all := s + ([c] + t);
    assert all[|s|] == c;
    assert LastIndex(all, c) >= |s|;
    assert forall k | |s| <= k < |all| :: all[k] == ([c] + t)[k - |s|];
  }

  lemma {:induction false} IndexBehind(s: string, c: char, t: string)
    requires c !in s
    ensures Index(s + ([c] + t), c) == |s|
  {
    if s != [] {
      assert (s + ([c] + t))[1..] == s[1..] + ([c] + t);
      IndexBehind(s[1..], c, t);
    } else {
      assert (s + ([c] + t))[0] == c;
    }
  }

  lemma ReplaceBehind(s: string, c: char, d: char, t: string)
    requires c !in s
    ensures ReplaceFirst(s + ([c] + t), c, d) == s + ([d] + t)
  {
    IndexBehind(s, c, t);
    var all := s + ([c] + t);
    assert all[..|s|] == s && all[|s| + 1..] == t;
  }

  function Strip(separator: string): string { Without(Without(separator, ' '), '\'') }

  lemma StripCents(n: nat, separator: string, tail: string)
    requires ' ' !in tail && '\'' !in tail
    ensures Without(Without(Grouped(n, separator) + tail, ' '), '\'') == Grouped(n, Strip(separator)) + tail
  {
    GroupedWithout(n, separator, ' ');
    WithoutAppend(Grouped(n, separator), tail, ' ');
    WithoutAbsent(tail, ' ');
    GroupedWithout(n, Without(separator, ' '), '\'');
    WithoutAppend(Grouped(n, Without(separator, ' ')), tail, '\'');
    WithoutAbsent(tail, '\'');
  }

  lemma WithoutOnly(c: char)
    ensures Without([c], c) == []
  {
    assert [c][1..] == [];
  }

  lemma Stripped(separator: string)
    requires Style(separator, '.').Valid() || Style(separator, ',').Valid()
    ensures Strip(separator) == if separator == "," || separator == "." then separator else []
  {
    if separator == " " {
      WithoutOnly(' ');
    } else {
      WithoutAbsent(separator, ' ');
      if separator == "'" {
        WithoutOnly('\'');
      } else {
        WithoutAbsent(separator, '\'');
      }
    }
  }

  /** The separator is gone and the point is a dot, in every style. */
  lemma NormalizedCents(cents: nat, style: Style)
    requires style.Valid()
    ensures Normalized(Printed(cents, style)) == Numerals(cents / 100) + (['.'] + Two(cents % 100))
  {
    var n, t, separator := cents / 100, Two(cents % 100), Strip(style.separator);
    StripCents(n, style.separator, [style.point] + t);
    Stripped(style.separator);
    NormalizedParts(n, separator, style.point, t);
  }

  lemma NormalizedParts(n: nat, separator: string, point: char, t: string)
    requires Digits(t) && separator != [point] && (separator == [] || separator == "," || separator == ".")
    requires point == ',' || point == '.'
    ensures Decided(Grouped(n, separator) + ([point] + t)) == Numerals(n) + (['.'] + t)
  {
    if n >= 1000 && separator != [] {
      BothShow(n, separator, point, t);
      PointLeft(n, separator, point, t);
    } else {
      assert Grouped(n, separator) == Numerals(n) by { Ungrouped(n); }
      PointOnly(Numerals(n), point, t);
    }
  }

  lemma PointOnly(s: string, point: char, t: string)
    requires Digits(s) && Digits(t) && (point == ',' || point == '.')
    ensures var raw := s + ([point] + t);
            !(',' in raw && '.' in raw) && ReplaceFirst(raw, ',', '.') == s + (['.'] + t)
  {
    if point == ',' {
      ReplaceBehind(s, ',', '.', t);
    }
  }

  lemma BothShow(n: nat, separator: string, point: char, t: string)
    requires n >= 1000 && Digits(t) && separator != [point]
    requires (separator == "," || separator == ".") && (point == ',' || point == '.')
    ensures var raw := Grouped(n, separator) + ([point] + t);
            ',' in raw && '.' in raw && (LastIndex(raw, ',') > LastIndex(raw, '.') <==> point == ',')
  {
    SeparatorShows(n, separator, separator[0]);
    LastIndexBehind(Grouped(n, separator), point, t, separator[0]);
  }

  lemma PointLeft(n: nat, separator: string, point: char, t: string)
    requires Digits(t) && separator != [point]
    requires (separator == "," || separator == ".") && (point == ',' || point == '.')
    ensures var rest := Without(Grouped(n, separator) + ([point] + t), separator[0]);
            (if point == ',' then ReplaceFirst(rest, ',', '.') else rest) == Numerals(n) + (['.'] + t)
  {
    var tail := [point] + t;
    GroupedWithout(n, separator, separator[0]);
    WithoutOnly(separator[0]);
    Ungrouped(n);
    WithoutAbsent(tail, separator[0]);
    WithoutAppend(Grouped(n, separator), tail, separator[0]);
    ReplaceBehind(Numerals(n), ',', '.', t);
  }

  lemma ParsePoint(a: string, b: string)
    requires Digits(a) && Digits(b) && a != []
    ensures Digits(a + b)
    ensures ParseFloat(a + (['.'] + b))
         == if Value(a + b) >= Limit() * Pow(10, |b|) then None else Some(Decimal(Value(a + b), |b|))
  {
    IndexBehind(a, '.', b);
    PointApart(a, b);
  }

  lemma PointApart(a: string, b: string)
    ensures var s := a + (['.'] + b); s[..|a|] == a && s[|a| + 1..] == b && |s| == |a| + 1 + |b|
  {}

  lemma Powers()
    ensures Pow(10, 0) == 1 && Pow(10, 2) == 100 && Pow(10, 3) == 1000
  {
    assert Pow(10, 1) == 10 * Pow(10, 0);
    assert Pow(10, 2) == 10 * Pow(10, 1);
    assert Pow(10, 3) == 10 * Pow(10, 2);
  }

  lemma ParseCents(cents: nat)
    ensures ParseFloat(Numerals(cents / 100) + (['.'] + Two(cents % 100)))
         == if cents >= Limit() * 100 then None else Some(Decimal(cents, 2))
  {
    ParsePoint(Numerals(cents / 100), Two(cents % 100));
    ValueOfCents(cents);
    Powers();
  }

  // ---------------------------------------------------------------- reading what was printed

  /** The text around an amount: no digit before it, and nothing behind it that continues the number. */
  predicate Placed(before: string, code: string, gap: string, behind: string) {
    && NoDigits(before) && All(Gap, gap) && Extent(behind) == 0
    && (Code(code) || (code == [] && !EndsInCode(before) && (before == [] || !Gap(before[|before| - 1]))))
  }

  lemma {:induction false} ExtentOfNumber(number: string, behind: string)
    requires number != [] && All(Numeral, number) && Digit(number[|number| - 1]) && Extent(behind) == 0
    ensures Extent(number + behind) == |number|
  {
    assert (number + behind)[1..] == number[1..] + behind;
    if |number| > 1 {
      ExtentOfNumber(number[1..], behind);
    } else {
      assert number[1..] + behind == behind;
    }
  }

  lemma {:induction false} GroupedIsNumeral(n: nat, separator: string)
    requires All(Numeral, separator)
    ensures var s := Grouped(n, separator); s != [] && All(Numeral, s) && Digit(s[0]) && Digit(s[|s| - 1])
  {
    if n >= 1000 {
      GroupedIsNumeral(n / 1000, separator);
    }
  }

  lemma ReadPlaced(before: string, code: string, gap: string, number: string, behind: string)
    requires Placed(before, code, gap, behind)
    requires number != [] && All(Numeral, number) && Digit(number[0]) && Digit(number[|number| - 1])
    ensures ReadAmount(Whole(Match(code, number), before, gap, behind)) == Read(Match(code, number))
  {
    var m := Match(code, number);
    ExtentOfNumber(number, behind);
    FoundWhereItSits(m, before, gap, behind);
    TrimmingChangesNothing(Whole(m, before, gap, behind));
  }

  /** A currency code as it is kept. */
  predicate Capitals(code: string) { |code| == 3 && All(Capital, code) }

  predicate Capital(c: char) { 'A' <= c <= 'Z' }

  function Lower(c: char): char
    requires Capital(c)
  {
    c - 'A' + 'a'
  }

  predicate SpellsLetter(w: char, c: char)
    requires Capital(c)
  {
    w == c || w == Lower(c) || (c == 'S' && w == '\U{17F}')
  }

  /** The code with each letter large or small, the long s included. */
  predicate Spells(written: string, code: string)
    requires All(Capital, code)
  {
    |written| == |code| && forall i | 0 <= i < |code| :: SpellsLetter(written[i], code[i])
  }

  /** A code in a text is three letters, each a spelling of a capital or the Kelvin sign. */
  lemma CodeExactly(written: string)
    ensures Code(written) <==> |written| == 3 && forall i | 0 <= i < 3 ::
              written[i] == '\U{212A}' || exists c :: Capital(c) && SpellsLetter(written[i], c)
  {
    forall w: char ensures Letter(w) <==> w == '\U{212A}' || exists c :: Capital(c) && SpellsLetter(w, c) {
      LetterExactly(w);
    }
  }

  lemma LetterExactly(w: char)
    ensures Letter(w) <==> w == '\U{212A}' || exists c :: Capital(c) && SpellsLetter(w, c)
  {
    if Letter(w) && w != '\U{212A}' {
      assert Capital(ToUpper(w)) && SpellsLetter(w, ToUpper(w));
    }
  }

  /** However it is spelled a code is kept in capitals, and only its spellings are kept as it. The Kelvin sign
      counts as a capital of its own. */
  lemma CapitalsExactly(written: string, code: string)
    requires Code(written) && Capitals(code)
    ensures Upper(written) == code <==> Spells(written, code)
  {
    if Upper(written) == code {
      forall i | 0 <= i < |code| ensures SpellsLetter(written[i], code[i]) {
        assert Upper(written)[i] == ToUpper(written[i]);
      }
    }
    if Spells(written, code) {
      SpellsUpper(written, code);
    }
  }

  lemma SpellsUpper(written: string, code: string)
    requires Capitals(code) && Spells(written, code)
    ensures Upper(written) == code
  {
    forall i | 0 <= i < |code| ensures Upper(written)[i] == code[i] {
      assert SpellsLetter(written[i], code[i]);
    }
  }

  /** An amount with cents is read back exactly with its currency, in every style, wherever it stands
      in a text, unless it is too large for a 64-bit float. */
  lemma RoundTrip(before: string, code: string, gap: string, cents: nat, style: Style, behind: string)
    requires style.Valid() && Placed(before, code, gap, behind)
    ensures ReadAmount(Whole(Match(code, Printed(cents, style)), before, gap, behind))
         == if cents < Limit() * 100 then Amount(Decimal(cents, 2), Upper(code)) else Unreadable(Upper(code))
  {
    var tail := [style.point] + Two(cents % 100);
    GroupedIsNumeral(cents / 100, style.separator);
    ReadPlaced(before, code, gap, Printed(cents, style), behind);
    NormalizedCents(cents, style);
    ParseCents(cents);
  }

  /** So the currency is read back as well, however its three letters are spelled. */
  lemma CurrencyRoundTrip(before: string, written: string, code: string, gap: string, cents: nat, style: Style, behind: string)
    requires style.Valid() && Placed(before, written, gap, behind) && cents < Limit() * 100
    requires Code(written) && Capitals(code) && Spells(written, code)
    ensures ReadAmount(Whole(Match(written, Printed(cents, style)), before, gap, behind)) == Amount(Decimal(cents, 2), code)
  {
    RoundTrip(before, written, gap, cents, style, behind);
    CapitalsExactly(written, code);
  }

  // ---------------------------------------------------------------- whole amounts

  predicate Exact(v: Decimal, n: nat) { v.mantissa == n * Pow(10, v.scale) }

  predicate ReadsWhole(r: Reading, n: nat) { r.Amount? && Exact(r.value, n) }

  lemma ExactScales(n: nat)
    ensures Exact(Decimal(n, 0), n)
    ensures n > 0 ==> !Exact(Decimal(n, 3), n)
  {
    Powers();
  }

  lemma ParseWhole(n: nat)
    ensures ParseFloat(Numerals(n)) == if n < Limit() then Some(Decimal(n, 0)) else None
  {
    ValueOfNumerals(n);
    assert Pow(10, 0) == 1;
  }

  lemma {:induction false} IndexFirst(s: string, c: char, i: nat)
    requires i < |s| && s[i] == c
    ensures 0 <= Index(s, c) <= i
  {
    if s[0] != c {
      IndexFirst(s[1..], c, i - 1);
    }
  }

  lemma JoinedMark(s: string, k: nat, j: nat)
    requires k < j < |s| && !Digit(s[j])
    ensures !Digits(s[..k] + s[k + 1..])
  {
    assert (s[..k] + s[k + 1..])[j - 1] == s[j];
  }

  /** A mark behind the decimal point is not a number. */
  lemma SecondMark(s: string, i: nat, j: nat)
    requires i < j < |s| && s[i] == '.' && !Digit(s[j])
    ensures ParseFloat(s).None?
  {
    IndexFirst(s, '.', i);
    JoinedMark(s, Index(s, '.'), j);
  }

  lemma WholeUnmarked(n: nat, separator: string)
    requires Style(separator, '.').Valid() || Style(separator, ',').Valid()
    requires n < 1000 || Strip(separator) == []
    ensures Normalized(Grouped(n, separator)) == Numerals(n)
  {
    StripWhole(n, separator);
    if n >= 1000 {
      Ungrouped(n);
    }
    assert Decided(Numerals(n)) == Numerals(n);
  }

  lemma StripWhole(n: nat, separator: string)
    ensures Without(Without(Grouped(n, separator), ' '), '\'') == Grouped(n, Strip(separator))
  {
    GroupedWithout(n, separator, ' ');
    GroupedWithout(n, Without(separator, ' '), '\'');
  }

  lemma StripMark(n: nat, mark: char)
    requires mark == ',' || mark == '.'
    ensures Normalized(Grouped(n, [mark])) == ReplaceFirst(Grouped(n, [mark]), ',', '.')
  {
    StripWhole(n, [mark]);
    Stripped([mark]);
    SeparatorShows(n, [mark], ',');
    SeparatorShows(n, [mark], '.');
  }

  lemma ParseThousands(n: nat)
    requires n >= 1000
    ensures ParseFloat(Numerals(n / 1000) + (['.'] + Three(n % 1000)))
         == if n < Limit() * Pow(10, 3) then Some(Decimal(n, 3)) else None
  {
    ParsePoint(Numerals(n / 1000), Three(n % 1000));
    NumeralsOfThousands(n);
    ValueOfNumerals(n);
  }

  /** One mark in a whole amount is taken for the decimal point. */
  lemma OneMark(n: nat, mark: char)
    requires 1000 <= n < 1_000_000 && (mark == ',' || mark == '.')
    ensures ParseFloat(Normalized(Grouped(n, [mark])))
         == if n < Limit() * Pow(10, 3) then Some(Decimal(n, 3)) else None
  {
    StripMark(n, mark);
    PointOnly(Numerals(n / 1000), mark, Three(n % 1000));
    ParseThousands(n);
  }

  lemma MarksStay(a: string, mark: char, b: string)
    requires (mark == ',' || mark == '.') && mark in a && (mark == '.' ==> ',' !in a + ([mark] + b))
    ensures var s := a + ([mark] + b);
            var t, i := ReplaceFirst(s, ',', '.'), Index(s, mark);
            0 <= i < |a| < |t| && t[i] == '.' && t[|a|] == mark
  {
    var s, i := a + ([mark] + b), Index(a, mark);
    assert s[i] == mark && s[|a|] == mark;
    IndexFirst(s, mark, i);
  }

  /** Several marks are never read. */
  lemma SeveralMarks(n: nat, mark: char)
    requires n >= 1_000_000 && (mark == ',' || mark == '.')
    ensures ParseFloat(Normalized(Grouped(n, [mark]))).None?
  {
    var a, b := Grouped(n / 1000, [mark]), Three(n % 1000);
    StripMark(n, mark);
    SeparatorShows(n / 1000, [mark], mark);
    SeparatorShows(n, [mark], ',');
    MarksStay(a, mark, b);
    SecondMark(ReplaceFirst(a + ([mark] + b), ',', '.'), Index(a + ([mark] + b), mark), |a|);
  }

  lemma WholeFloat(n: nat, separator: string)
    requires Style(separator, '.').Valid() || Style(separator, ',').Valid()
    ensures var v := ParseFloat(Normalized(Grouped(n, separator)));
            (v.Some? && Exact(v.value, n)) == (n < Limit() && (n < 1000 || (separator != "," && separator != ".")))
  {
    ExactScales(n);
    Stripped(separator);
    if n < 1000 || Strip(separator) == [] {
      WholeUnmarked(n, separator);
      ParseWhole(n);
    } else if n < 1_000_000 {
      OneMark(n, separator[0]);
    } else {
      SeveralMarks(n, separator[0]);
    }
  }

  /** A whole amount is read back exactly if it shows no comma or dot: below one thousand, or grouped by
      spaces, apostrophes or nothing. */
  lemma WholeExactly(before: string, code: string, gap: string, n: nat, separator: string, behind: string)
    requires Placed(before, code, gap, behind)
    requires Style(separator, '.').Valid() || Style(separator, ',').Valid()
    ensures ReadsWhole(ReadAmount(Whole(Match(code, Grouped(n, separator)), before, gap, behind)), n)
       <==> n < Limit() && (n < 1000 || (separator != "," && separator != "."))
  {
    GroupedIsNumeral(n, separator);
    ReadPlaced(before, code, gap, Grouped(n, separator), behind);
    WholeFloat(n, separator);
  }
}
