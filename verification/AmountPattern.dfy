/** insights.go: the pattern that finds a number and a currency code in a free text. */
module AmountPattern {
  import opened Common

  // ---------------------------------------------------------------- the pattern

  predicate Digit(c: char) { '0' <= c <= '9' }

  /** A letter under case folding: the long s and the Kelvin sign fold to ASCII letters. */
  predicate Letter(c: char) { 'A' <= c <= 'Z' || 'a' <= c <= 'z' || c == '\U{17F}' || c == '\U{212A}' }

  predicate Gap(c: char) { c == '\t' || c == '\n' || c == '\U{0C}' || c == '\r' || c == ' ' }

  predicate Numeral(c: char) { Digit(c) || c == '.' || c == ',' || c == '\'' || c == ' ' }

  predicate All(p: char -> bool, s: string) { forall i | 0 <= i < |s| :: p(s[i]) }

  predicate NoDigits(s: string) { forall i | 0 <= i < |s| :: !Digit(s[i]) }

  predicate Code(s: string) { |s| == 3 && All(Letter, s) }

  datatype Match = Match(code: string, number: string)

  /** The number of leading gap characters. */
  function Skip(s: string): (n: nat)
    ensures n <= |s| && All(Gap, s[..n]) && (n < |s| ==> !Gap(s[n]))
  {
    if s != [] && Gap(s[0]) then
      var n := Skip(s[1..]);
      assert forall i | 0 < i < n + 1 :: s[i] == s[1..][..n][i - 1];
      n + 1
    else 0
  }

  /** The length of the longest prefix made of numeral characters that ends in a digit. */
  function Extent(s: string): (n: nat)
    ensures n <= |s|
  {
    if s == [] || !Numeral(s[0]) then 0
    else
      var n := Extent(s[1..]);
      if n > 0 then n + 1 else if Digit(s[0]) then 1 else 0
  }

  /** A gap and a number at the start of the text. */
  function NumberAt(s: string): Option<string> {
    var t := s[Skip(s)..];
    if t != [] && Digit(t[0]) then Some(t[..Extent(t)]) else None
  }

  /** The pattern at the start of the text; the currency code is taken if it can be. */
  function MatchAt(s: string): Option<Match> {
    if |s| >= 3 && Code(s[..3]) && NumberAt(s[3..]).Some? then Some(Match(s[..3], NumberAt(s[3..]).value))
    else if NumberAt(s).Some? then Some(Match([], NumberAt(s).value))
    else None
  }

  /** The leftmost match. */
  function Search(s: string): Option<Match> {
    if MatchAt(s).Some? then MatchAt(s) else if s == [] then None else Search(s[1..])
  }

  // ---------------------------------------------------------------- what the pattern finds

  predicate EndsInCode(s: string) { |s| >= 3 && Code(s[|s| - 3..]) }

  /** Where a match sits: the number begins at the first digit of the text and runs up to the last
      digit that numeral characters lead to; the code is the three letters in front of its gap. */
  predicate Sits(m: Match, before: string, gap: string, behind: string) {
    && NoDigits(before) && All(Gap, gap)
    && (Code(m.code) || (m.code == [] && !EndsInCode(before) && (before == [] || !Gap(before[|before| - 1]))))
    && m.number != [] && Digit(m.number[0]) && Extent(m.number + behind) == |m.number|
  }

  function Whole(m: Match, before: string, gap: string, behind: string): string {
    before + (m.code + (gap + (m.number + behind)))
  }

  ghost predicate Splits(s: string, m: Match) {
    exists before, gap, behind :: Sits(m, before, gap, behind) && s == Whole(m, before, gap, behind)
  }

  lemma {:induction false} SkipExactly(gap: string, t: string)
    requires All(Gap, gap) && (t == [] || !Gap(t[0]))
    ensures Skip(gap + t) == |gap|
  {
    if gap == [] {
      assert gap + t == t;
    } else {
      assert (gap + t)[1..] == gap[1..] + t;
      SkipExactly(gap[1..], t);
    }
  }

  lemma NumberBehind(gap: string, number: string, behind: string)
    requires All(Gap, gap) && number != [] && Digit(number[0]) && Extent(number + behind) == |number|
    ensures NumberAt(gap + (number + behind)) == Some(number)
  {
    SkipExactly(gap, number + behind);
    assert (gap + (number + behind))[|gap|..] == number + behind;
    assert (number + behind)[..|number|] == number;
  }

  /** What stands in front of the first digit is the gap of a number found at the start. */
  lemma OnlyGap(s: string, d: nat)
    requires d <= |s| && NoDigits(s[..d]) && NumberAt(s).Some?
    ensures All(Gap, s[..d])
  {
    var n := Skip(s);
    assert forall i | 0 <= i < d :: s[..d][i] == s[..n][i];
  }

  /** The text in front of the number, seen from its own end. */
  lemma NoDigitsInFront(m: Match, before: string, gap: string)
    requires NoDigits(before) && All(Gap, gap) && (m.code == [] || Code(m.code))
    ensures NoDigits(before + (m.code + gap))
  {}

  lemma ShortBefore(before: string, gap: string)
    requires 0 < |before| <= 3 <= |before + gap| && !EndsInCode(before) && All(Gap, gap)
    ensures !All(Letter, (before + gap)[..3])
  {
    var front := (before + gap)[..3];
    if |before| == 3 {
      assert before[0..] == before == front;
    } else {
      assert front[2] == gap[2 - |before|];
    }
  }

  lemma NotAllGap(m: Match, before: string, gap: string, behind: string, k: nat)
    requires Sits(m, before, gap, behind) && before != []
    requires k == 0 || (k == 3 <= |before + (m.code + gap)| && All(Letter, (before + (m.code + gap))[..3]))
    ensures !All(Gap, (before + (m.code + gap))[k..])
  {
    var front := before + (m.code + gap);
    if m.code != [] {
      var i := |before| + 2;
      assert front[i] == m.code[2] && Letter(front[i]);
      assert front[k..][i - k] == front[i];
    } else {
      assert front == before + gap;
      var i := |before| - 1;
      assert front[i] == before[i];
      if k <= i {
        assert front[k..][i - k] == front[i];
      } else {
        ShortBefore(before, gap);
      }
    }
  }

  lemma NotWithoutCode(front: string, t: string)
    requires NoDigits(front) && !All(Gap, front)
    ensures NumberAt(front + t).None?
  {
    if NumberAt(front + t).Some? {
      assert (front + t)[..|front|] == front;
      OnlyGap(front + t, |front|);
    }
  }

  /** No match begins in the text before. */
  lemma NothingBefore(m: Match, before: string, gap: string, behind: string)
    requires Sits(m, before, gap, behind) && before != []
    ensures MatchAt(Whole(m, before, gap, behind)).None?
  {
    var s, front, t := Whole(m, before, gap, behind), before + (m.code + gap), m.number + behind;
    Regroup(before, m.code, gap, t);
    NoDigitsInFront(m, before, gap);
    NotAllGap(m, before, gap, behind, 0);
    assert front[0..] == front;
    NotWithoutCode(front, t);
    if |s| >= 3 && Code(s[..3]) {
      LettersInFront(front, t);
      NotAllGap(m, before, gap, behind, 3);
      assert s[3..] == front[3..] + t;
      NotWithoutCode(front[3..], t);
    }
  }

  lemma LettersInFront(front: string, t: string)
    requires t != [] && Digit(t[0]) && |front + t| >= 3 && Code((front + t)[..3])
    ensures |front| >= 3 && front[..3] == (front + t)[..3]
  {
    assert (front + t)[|front|] == t[0];
    assert forall i | 0 <= i < 3 :: (front + t)[i] == (front + t)[..3][i];
  }

  lemma Regroup(a: string, b: string, c: string, d: string)
    ensures a + (b + (c + d)) == (a + (b + c)) + d
  {}

  lemma EndLater(before: string)
    requires before != []
    ensures EndsInCode(before[1..]) ==> EndsInCode(before)
    ensures before[1..] != [] ==> before[1..][|before| - 2] == before[|before| - 1]
    ensures NoDigits(before) ==> NoDigits(before[1..])
  {
    if |before| > 3 {
      assert before[1..][|before| - 4..] == before[|before| - 3..];
    }
  }

  lemma SitsLater(m: Match, before: string, gap: string, behind: string)
    requires Sits(m, before, gap, behind) && before != []
    ensures Sits(m, before[1..], gap, behind)
    ensures Whole(m, before, gap, behind)[1..] == Whole(m, before[1..], gap, behind)
  {
    EndLater(before);
    DropFirst(before, m.code + (gap + (m.number + behind)));
  }

  lemma DropFirst(s: string, t: string)
    requires s != []
    ensures (s + t)[1..] == s[1..] + t
  {}

  /** A match is found wherever it sits. */
  lemma {:induction false} FoundWhereItSits(m: Match, before: string, gap: string, behind: string)
    requires Sits(m, before, gap, behind)
    ensures Search(Whole(m, before, gap, behind)) == Some(m)
    decreases |before|
  {
    if before == [] {
      FoundHere(m, gap, behind);
    } else {
      NothingBefore(m, before, gap, behind);
      SitsLater(m, before, gap, behind);
      FoundWhereItSits(m, before[1..], gap, behind);
    }
  }

  lemma FoundHere(m: Match, gap: string, behind: string)
    requires Sits(m, [], gap, behind)
    ensures MatchAt(Whole(m, [], gap, behind)) == Some(m)
  {
    WholeHere(m, gap, behind);
    NumberBehind(gap, m.number, behind);
    if m.code == [] {
      NoCodeFirst(gap + (m.number + behind));
    } else {
      CodeFirst(m.code, gap + (m.number + behind));
    }
  }

  lemma NoCodeFirst(s: string)
    requires s != [] && !Letter(s[0])
    ensures |s| >= 3 ==> !Code(s[..3])
  {
    if |s| >= 3 {
      assert s[..3][0] == s[0];
    }
  }

  lemma CodeFirst(code: string, t: string)
    requires Code(code)
    ensures (code + t)[..3] == code && (code + t)[3..] == t
  {}

  lemma NumberParts(s: string)
    requires NumberAt(s).Some?
    ensures var gap, number, behind := s[..Skip(s)], NumberAt(s).value, s[Skip(s) + |NumberAt(s).value|..];
            && s == gap + (number + behind) && All(Gap, gap)
            && number != [] && Digit(number[0]) && Extent(number + behind) == |number|
  {
    var k := Skip(s);
    var n := Extent(s[k..]);
    DigitFirst(s[k..]);
    Halves(s, k);
    Halves(s[k..], n);
    DropTwice(s, k, n);
  }

  lemma DigitFirst(t: string)
    requires t != [] && Digit(t[0])
    ensures Extent(t) > 0
  {}

  lemma DropTwice(s: string, k: nat, n: nat)
    requires k + n <= |s|
    ensures s[k..][n..] == s[k + n..]
  {}

  lemma Halves(s: string, n: nat)
    requires n <= |s|
    ensures s == s[..n] + s[n..]
  {}

  lemma WholeHere(m: Match, gap: string, behind: string)
    ensures Whole(m, [], gap, behind) == m.code + (gap + (m.number + behind))
    ensures m.code == [] ==> Whole(m, [], gap, behind) == gap + (m.number + behind)
  {}

  lemma MatchSits(s: string)
    requires MatchAt(s).Some?
    ensures Splits(s, MatchAt(s).value)
  {
    if |s| >= 3 && Code(s[..3]) && NumberAt(s[3..]).Some? {
      Halves(s, 3);
      MatchBehind(s[..3], s[3..], s);
    } else {
      assert s == [] + s;
      MatchBehind([], s, s);
    }
  }

  lemma MatchBehind(code: string, t: string, s: string)
    requires (code == [] || Code(code)) && NumberAt(t).Some? && s == code + t
    ensures Splits(s, Match(code, NumberAt(t).value))
  {
    var m := Match(code, NumberAt(t).value);
    NumberParts(t);
    var gap, behind := t[..Skip(t)], t[Skip(t) + |m.number|..];
    WholeHere(m, gap, behind);
    assert Sits(m, [], gap, behind);
  }

  /** A character in front of which nothing is found belongs to the text before. */
  lemma SitsBehind(c: char, m: Match, before: string, gap: string, behind: string)
    requires Sits(m, before, gap, behind) && MatchAt([c] + Whole(m, before, gap, behind)).None?
    ensures Sits(m, [c] + before, gap, behind)
  {
    NotADigit(c, Whole(m, before, gap, behind));
    if m.code == [] {
      if before == [] {
        WholeHere(m, gap, behind);
        NotAGap(c, m, gap, behind);
      } else if |before| == 2 {
        Regroup(before, gap, m.number, behind);
        assert Whole(m, before, gap, behind) == before + (gap + (m.number + behind));
        NotACode(c, m, before, gap, behind);
      } else if |before| > 2 {
        assert ([c] + before)[|before| - 2..] == before[|before| - 3..];
      }
    }
  }

  lemma NotADigit(c: char, t: string)
    requires MatchAt([c] + t).None?
    ensures !Digit(c)
  {
    assert Skip([c] + t) == 0 ==> ([c] + t)[0..] == [c] + t;
  }

  lemma GapBehind(c: char, m: Match, gap: string, behind: string)
    requires Sits(m, [], gap, behind) && Gap(c)
    ensures NumberAt([c] + (gap + (m.number + behind))).Some?
  {
    NumberBehind([c] + gap, m.number, behind);
    assert [c] + (gap + (m.number + behind)) == ([c] + gap) + (m.number + behind);
  }

  lemma NotAGap(c: char, m: Match, gap: string, behind: string)
    requires Sits(m, [], gap, behind) && MatchAt([c] + (gap + (m.number + behind))).None?
    ensures !Gap(c)
  {
    if Gap(c) {
      GapBehind(c, m, gap, behind);
    }
  }

  lemma NotACode(c: char, m: Match, before: string, gap: string, behind: string)
    requires Sits(m, before, gap, behind) && |before| == 2
    requires MatchAt([c] + (before + (gap + (m.number + behind)))).None?
    ensures !EndsInCode([c] + before)
  {
    var s, t := [c] + (before + (gap + (m.number + behind))), gap + (m.number + behind);
    NumberBehind(gap, m.number, behind);
    assert s[..3] == [c] + before == ([c] + before)[0..];
    assert s[3..] == t;
  }

  lemma WholeBehind(s: string, m: Match, before: string, gap: string, behind: string)
    requires s != [] && s[1..] == Whole(m, before, gap, behind)
    ensures s == [s[0]] + Whole(m, before, gap, behind) == Whole(m, [s[0]] + before, gap, behind)
  {}

  lemma {:induction false} SitsWhereFound(s: string)
    requires Search(s).Some?
    ensures Splits(s, Search(s).value)
    decreases |s|
  {
    if MatchAt(s).Some? {
      MatchSits(s);
    } else {
      SitsWhereFound(s[1..]);
      SplitsBehind(s, Search(s).value);
    }
  }

  lemma SplitsBehind(s: string, m: Match)
    requires s != [] && MatchAt(s).None? && Splits(s[1..], m)
    ensures Splits(s, m)
  {
    var before, gap, behind :| Sits(m, before, gap, behind) && s[1..] == Whole(m, before, gap, behind);
    WholeBehind(s, m, before, gap, behind);
    SitsBehind(s[0], m, before, gap, behind);
  }

  /** The pattern finds exactly the number at the first digit, with the letters in front of it. */
  lemma SearchExactly(s: string, m: Match)
    ensures Search(s) == Some(m) <==> Splits(s, m)
  {
    if Search(s) == Some(m) {
      SitsWhereFound(s);
    }
    if Splits(s, m) {
      var before, gap, behind :| Sits(m, before, gap, behind) && s == Whole(m, before, gap, behind);
      FoundWhereItSits(m, before, gap, behind);
    }
  }

  /** Nothing is found exactly in a text without digits. */
  lemma {:induction false} NothingFound(s: string)
    ensures Search(s).None? <==> NoDigits(s)
  {
    if Search(s).None? {
      if s != [] {
        NothingFound(s[1..]);
        assert s == [s[0]] + s[1..];
        NotADigit(s[0], s[1..]);
        assert forall i | 0 < i < |s| :: s[i] == s[1..][i - 1];
      }
    } else {
      var m := Search(s).value;
      SitsWhereFound(s);
      var before, gap, behind :| Sits(m, before, gap, behind) && s == Whole(m, before, gap, behind);
      assert s[|before| + |m.code| + |gap|] == m.number[0];
    }
  }

  // ---------------------------------------------------------------- trimming

  predicate White(c: char) {
    || '\t' <= c <= '\r' || c == ' ' || c == '\U{85}' || c == '\U{A0}' || c == '\U{1680}'
    || '\U{2000}' <= c <= '\U{200A}' || c == '\U{2028}' || c == '\U{2029}' || c == '\U{202F}'
    || c == '\U{205F}' || c == '\U{3000}'
  }

  function TrimLeft(s: string): string {
    if s != [] && White(s[0]) then TrimLeft(s[1..]) else s
  }

  function TrimRight(s: string): string {
    if s != [] && White(s[|s| - 1]) then TrimRight(s[..|s| - 1]) else s
  }

  function TrimSpace(s: string): string { TrimRight(TrimLeft(s)) }

  lemma {:induction false} LeftExactly(s: string)
    ensures exists front :: All(White, front) && s == front + TrimLeft(s)
    ensures TrimLeft(s) == [] || !White(TrimLeft(s)[0])
  {
    if s != [] && White(s[0]) {
      LeftExactly(s[1..]);
      var front :| All(White, front) && s[1..] == front + TrimLeft(s[1..]);
      var longer := [s[0]] + front;
      assert All(White, longer) && s == longer + TrimLeft(s);
    } else {
      assert All(White, []) && s == [] + s;
    }
  }

  lemma {:induction false} RightExactly(s: string)
    ensures exists back :: All(White, back) && s == TrimRight(s) + back
    ensures TrimRight(s) == [] || !White(TrimRight(s)[|TrimRight(s)| - 1])
    ensures TrimRight(s) != [] ==> TrimRight(s)[0] == s[0]
  {
    if s != [] && White(s[|s| - 1]) {
      var rest := s[..|s| - 1];
      RightExactly(rest);
      var back :| All(White, back) && rest == TrimRight(rest) + back;
      PushWhite(s, TrimRight(rest), back);
    } else {
      assert All(White, []) && s == s + [];
    }
  }

  lemma PushWhite(s: string, t: string, back: string)
    requires s != [] && White(s[|s| - 1]) && All(White, back) && s[..|s| - 1] == t + back
    ensures exists b :: All(White, b) && s == t + b
  {
    var b := back + [s[|s| - 1]];
    assert s == t + b && All(White, b);
  }

  /** Trimming takes away white space at both ends, all of it and nothing else. */
  lemma TrimExactly(s: string)
    ensures exists front, back :: All(White, front) && All(White, back) && s == front + (TrimSpace(s) + back)
    ensures TrimSpace(s) == [] || (!White(TrimSpace(s)[0]) && !White(TrimSpace(s)[|TrimSpace(s)| - 1]))
  {
    LeftExactly(s);
    RightExactly(TrimLeft(s));
    var front :| All(White, front) && s == front + TrimLeft(s);
    var back :| All(White, back) && TrimLeft(s) == TrimSpace(s) + back;
  }

  lemma {:induction false} ExtentEndsInDigit(s: string)
    ensures Extent(s) > 0 ==> Digit(s[Extent(s) - 1])
  {
    if s != [] {
      ExtentEndsInDigit(s[1..]);
    }
  }

  lemma {:induction false} ExtentDropLast(s: string)
    requires s != [] && !Digit(s[|s| - 1])
    ensures Extent(s[..|s| - 1]) == Extent(s)
  {
    if |s| > 1 {
      ExtentDropLast(s[1..]);
      assert s[..|s| - 1][1..] == s[1..][..|s| - 2];
    }
  }

  lemma DropFirstWhite(s: string)
    requires s != [] && White(s[0])
    ensures Search(s[1..]) == Search(s)
  {
    NothingFound(s);
    if Search(s).None? {
      NothingFound(s[1..]);
    } else {
      var m := Search(s).value;
      SitsWhereFound(s);
      var before, gap, behind :| Sits(m, before, gap, behind) && s == Whole(m, before, gap, behind);
      if before != [] {
        SitsLater(m, before, gap, behind);
        FoundWhereItSits(m, before[1..], gap, behind);
      } else {
        DropFirstGap(m, gap, behind, s);
      }
    }
  }

  lemma DropFirstGap(m: Match, gap: string, behind: string, s: string)
    requires Sits(m, [], gap, behind) && s == Whole(m, [], gap, behind) && White(s[0])
    ensures Search(s[1..]) == Some(m)
  {
    WholeHere(m, gap, behind);
    NotCodeFirst(m, gap, behind, s);
    WholeHere(m, gap[1..], behind);
    ShiftGap(gap, m.number + behind);
    FoundWhereItSits(m, [], gap[1..], behind);
  }

  lemma ShiftGap(gap: string, t: string)
    requires gap != []
    ensures (gap + t)[1..] == gap[1..] + t
    ensures All(Gap, gap) ==> All(Gap, gap[1..])
  {}

  lemma NotCodeFirst(m: Match, gap: string, behind: string, s: string)
    requires Sits(m, [], gap, behind) && s == m.code + (gap + (m.number + behind)) && White(s[0])
    ensures m.code == [] && gap != []
  {}

  lemma DropLastWhite(s: string)
    requires s != [] && White(s[|s| - 1])
    ensures Search(s[..|s| - 1]) == Search(s)
  {
    var t := s[..|s| - 1];
    NothingFound(s);
    if Search(s).None? {
      NothingFound(t);
    } else {
      var m := Search(s).value;
      SitsWhereFound(s);
      var before, gap, behind :| Sits(m, before, gap, behind) && s == Whole(m, before, gap, behind);
      WhiteIsBehind(m, before, gap, behind, s);
      FoundWhereItSits(m, before, gap, behind[..|behind| - 1]);
    }
  }

  lemma WhiteIsBehind(m: Match, before: string, gap: string, behind: string, s: string)
    requires Sits(m, before, gap, behind) && s == Whole(m, before, gap, behind) && White(s[|s| - 1])
    ensures behind != [] && Sits(m, before, gap, behind[..|behind| - 1])
    ensures s[..|s| - 1] == Whole(m, before, gap, behind[..|behind| - 1])
  {
    var tail := m.number + behind;
    assert s[|s| - 1] == tail[|tail| - 1];
    ExtentEndsInDigit(tail);
    assert behind != [];
    ExtentDropLast(tail);
    assert tail[..|tail| - 1] == m.number + behind[..|behind| - 1];
  }

  /** Trimming the text first, as the program does, never changes what is found. */
  lemma {:induction false} TrimmingChangesNothing(s: string)
    ensures Search(TrimSpace(s)) == Search(s)
    decreases |s|
  {
    if s != [] && White(s[0]) {
      DropFirstWhite(s);
      TrimmingChangesNothing(s[1..]);
    } else {
      TrimmingRight(s);
    }
  }

  lemma {:induction false} TrimmingRight(s: string)
    ensures Search(TrimRight(s)) == Search(s)
    decreases |s|
  {
    if s != [] && White(s[|s| - 1]) {
      DropLastWhite(s);
      TrimmingRight(s[..|s| - 1]);
    }
  }
}
