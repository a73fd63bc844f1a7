/** highlight.ts: search highlights marked with <em> tags, as segments and back. */
module Highlight {

  /** The pair of tags that enclose a match. Everything below holds for any two tags that are
      `Borderless`; the program uses EM. */
  datatype Tags = Tags(open: string, close: string)

  const EM := Tags("<em>", "</em>")

  datatype Segment = Segment(text: string, match_: bool)

  /** The first position of a pattern, or -1. */
  function IndexOf(s: string, pattern: string): (i: int)
    ensures i == -1 || (0 <= i && i + |pattern| <= |s| && s[i..i + |pattern|] == pattern)
  {
    if pattern <= s then 0
    else if s == [] then -1
    else
      var i := IndexOf(s[1..], pattern);
      if i == -1 then -1 else i + 1
  }

  /** The text before and behind the first occurrence of a pattern. */
  datatype Found = Nowhere | Between(before: string, behind: string)

  function Find(s: string, pattern: string): Found {
    var i := IndexOf(s, pattern);
    if i == -1 then Nowhere else Between(s[..i], s[i + |pattern|..])
  }

  /** The text up to the first opening tag and what that tag encloses. */
  datatype Cut = NoTag | NotClosed(head: string, tail: string) | Closed(head: string, text: string, rest: string)

  function FirstTag(s: string, tags: Tags): Cut {
    match Find(s, tags.open)
    case Nowhere => NoTag
    case Between(head, afterOpen) =>
      match Find(afterOpen, tags.close)
      case Nowhere => NotClosed(head, afterOpen)
      case Between(text, rest) => Closed(head, text, rest)
  }

  lemma FindParts(s: string, pattern: string)
    ensures var f := Find(s, pattern);
            f.Between? ==> s == f.before + (pattern + f.behind) && |s| == |f.before| + |pattern| + |f.behind|
  {}

  lemma CutParts(s: string, tags: Tags)
    ensures var c := FirstTag(s, tags);
            && (c.NotClosed? ==> s == c.head + (tags.open + c.tail))
            && (c.Closed? ==> s == c.head + (tags.open + (c.text + (tags.close + c.rest)))
                              && |c.rest| + |tags.open| <= |s|)
  {
    FindParts(s, tags.open);
    if Find(s, tags.open).Between? {
      FindParts(Find(s, tags.open).behind, tags.close);
    }
  }

  /** Text outside the tags; no segment is made of nothing. */
  function Lead(head: string): seq<Segment> { if head == [] then [] else [Segment(head, false)] }

  function Segments(s: string, tags: Tags): seq<Segment>
    requires tags.open != []
    decreases |s|
  {
    if s == [] then []
    else match FirstTag(s, tags)
      case NoTag => [Segment(s, false)]
      case NotClosed(head, tail) => Lead(head) + [Segment(tail, true)]
      case Closed(head, text, rest) =>
        CutParts(s, tags);
        Lead(head) + ([Segment(text, true)] + Segments(rest, tags))
  }

  method ParseTags(input: string, tags: Tags) returns (segments: seq<Segment>)
    requires tags.open != []
    ensures segments == Segments(input, tags)
  {
    segments := [];
    var remaining := input;
    while |remaining| > 0
      invariant segments + Segments(remaining, tags) == Segments(input, tags)
      decreases |remaining|
    {
      CutParts(remaining, tags);
      var cut := FirstTag(remaining, tags);
      if cut.NoTag? {
        segments := segments + [Segment(remaining, false)];
        return;
      }
      ghost var before := segments;
      if cut.head != [] {
        segments := segments + [Segment(cut.head, false)];
      }
      if cut.NotClosed? {
        PushMatch(before, cut.head, cut.tail, []);
        segments := segments + [Segment(cut.tail, true)];
        return;
      }
      PushMatch(before, cut.head, cut.text, Segments(cut.rest, tags));
      segments := segments + [Segment(cut.text, true)];
      remaining := cut.rest;
    }
  }

  lemma PushMatch(before: seq<Segment>, head: string, text: string, rest: seq<Segment>)
    ensures var pushed := if head != [] then before + [Segment(head, false)] else before;
            && (pushed + [Segment(text, true)]) + rest == before + (Lead(head) + ([Segment(text, true)] + rest))
            && pushed + [Segment(text, true)] == before + (Lead(head) + [Segment(text, true)])
  {}

  lemma Regroup<T>(a: seq<T>, b: seq<T>, c: seq<T>, d: seq<T>)
    ensures ((a + b) + c) + d == a + ((b + c) + d)
    ensures (a + b) + c == a + (b + c)
  {}

  method ParseHighlight(input: string) returns (segments: seq<Segment>)
    ensures segments == Segments(input, EM)
  {
    segments := ParseTags(input, EM);
  }

  function Texts(segments: seq<Segment>): string {
    if segments == [] then [] else segments[0].text + Texts(segments[1..])
  }

  /** The text without its tags, read once from front to end: an opening tag counts outside a match
      and a closing tag inside one; any other tag is text. */
  function Untagged(s: string, tags: Tags, inside: bool): string
    requires tags.open != [] && tags.close != []
    decreases |s|
  {
    var tag := if inside then tags.close else tags.open;
    if s == [] then []
    else if tag <= s then Untagged(s[|tag|..], tags, !inside)
    else [s[0]] + Untagged(s[1..], tags, inside)
  }

  /** Everything stays but the tags that mark a match. */
  method StripHighlight(input: string) returns (plain: string)
    ensures plain == Untagged(input, EM, false)
  {
    var segments := ParseHighlight(input);
    UntaggedTexts(input, EM);
    plain := Texts(segments);
  }

  function Wrap(s: Segment, tags: Tags): string { if s.match_ then tags.open + (s.text + tags.close) else s.text }

  /** The markup rebuilt from segments. */
  function Render(segments: seq<Segment>, tags: Tags): string {
    if segments == [] then [] else Wrap(segments[0], tags) + Render(segments[1..], tags)
  }

  // ---------------------------------------------------------------- searching

  ghost predicate Occurs(pattern: string, s: string) {
    exists j | 0 <= j <= |s| :: pattern <= s[j..]
  }

  lemma FindFirst(s: string, pattern: string)
    ensures Find(s, pattern).Nowhere? <==> !Occurs(pattern, s)
    ensures Find(s, pattern).Between? && pattern != [] ==> !Occurs(pattern, Find(s, pattern).before)
  {
    NotFound(s, pattern);
    if IndexOf(s, pattern) >= 0 && pattern != [] {
      FirstFound(s, pattern);
    }
  }

  lemma FindBehind(text: string, pattern: string, rest: string)
    requires Borderless(pattern) && !Occurs(pattern, text)
    ensures Find(text + (pattern + rest), pattern) == Between(text, rest)
  {
    FoundBehind(text, pattern, rest);
  }

  lemma {:induction false} NotFound(s: string, pattern: string)
    ensures IndexOf(s, pattern) == -1 <==> !Occurs(pattern, s)
  {
    if pattern <= s {
      assert pattern <= s[0..];
    } else if s != [] {
      NotFound(s[1..], pattern);
      forall j | 0 <= j <= |s| && pattern <= s[j..] ensures pattern <= s[1..][j - 1..] && j > 0 {
        assert j > 0 && s[1..][j - 1..] == s[j..];
      }
      if j :| 0 <= j <= |s[1..]| && pattern <= s[1..][j..] {
        assert s[1..][j..] == s[j + 1..];
      }
    }
  }

  lemma {:induction false} FirstFound(s: string, pattern: string)
    requires IndexOf(s, pattern) >= 0 && pattern != []
    ensures !Occurs(pattern, s[..IndexOf(s, pattern)])
  {
    var i := IndexOf(s, pattern);
    if i == 0 {
      assert s[..0] == [];
    } else {
      FirstFound(s[1..], pattern);
      forall j | 0 <= j <= i ensures !(pattern <= s[..i][j..]) {
        NotBefore(s, pattern, i, j);
      }
    }
  }

  lemma NotBefore(s: string, pattern: string, i: nat, j: nat)
    requires 0 < i <= |s| && j <= i && !(pattern <= s) && !Occurs(pattern, s[1..][..i - 1])
    ensures !(pattern <= s[..i][j..])
  {
    if j == 0 {
      assert s[..i][0..] == s[..i];
      assert pattern <= s[..i] ==> pattern <= s;
    } else {
      assert s[1..][..i - 1][j - 1..] == s[..i][j..];
    }
  }

  /** The first character of the pattern is found nowhere else in it, so no proper suffix of the
      pattern is also a prefix. */
  predicate Borderless(pattern: string) {
    pattern != [] && forall k | 0 < k < |pattern| :: pattern[k] != pattern[0]
  }

  lemma NotInFront(text: string, pattern: string, rest: string)
    requires Borderless(pattern) && !Occurs(pattern, text) && text != []
    ensures !(pattern <= text + (pattern + rest))
  {
    var s := text + (pattern + rest);
    assert s[|text|] == pattern[0];
    assert |text| < |pattern| ==> pattern[|text|] != pattern[0];
    assert |pattern| <= |text| ==> s[..|pattern|] == text[..|pattern|];
    assert !(pattern <= text[0..]);
  }

  /** A borderless pattern is found exactly behind a text it does not occur in. */
  lemma {:induction false} FoundBehind(text: string, pattern: string, rest: string)
    requires Borderless(pattern) && !Occurs(pattern, text)
    ensures IndexOf(text + (pattern + rest), pattern) == |text|
  {
    var s := text + (pattern + rest);
    if text == [] {
      assert s == pattern + rest && pattern <= s;
    } else {
      NotInFront(text, pattern, rest);
      forall j | 0 <= j <= |text[1..]| ensures !(pattern <= text[1..][j..]) {
        assert text[1..][j..] == text[j + 1..];
      }
      FoundBehind(text[1..], pattern, rest);
      assert s[1..] == text[1..] + (pattern + rest);
    }
  }

  // ---------------------------------------------------------------- parsing and printing

  lemma {:induction false} RenderAppend(a: seq<Segment>, b: seq<Segment>, tags: Tags)
    ensures Render(a + b, tags) == Render(a, tags) + Render(b, tags)
  {
    if a != [] {
      RenderAppend(a[1..], b, tags);
      assert (a + b)[1..] == a[1..] + b;
    } else {
      assert a + b == b;
    }
  }

  lemma RenderLead(head: string, s: Segment, tags: Tags)
    ensures Render(Lead(head) + [s], tags) == head + Wrap(s, tags)
  {
    RenderAppend(Lead(head), [s], tags);
    assert Render([s], tags) == Wrap(s, tags) + Render([], tags);
    assert Render(Lead(head), tags) == head;
  }

  /** The text ends with an opening tag that is not closed behind it. */
  ghost predicate Unclosed(s: string, tags: Tags) {
    exists head, tail :: UnclosedAt(s, head, tail, tags)
  }

  ghost predicate UnclosedAt(s: string, head: string, tail: string, tags: Tags) {
    s == head + (tags.open + tail) && !Occurs(tags.close, tail)
  }

  /** Neither tag can overlap itself or the other one. */
  predicate Apart(tags: Tags) {
    && Borderless(tags.open) && Borderless(tags.close) && tags.open[0] == tags.close[0]
    && !(tags.open <= tags.close) && !(tags.close <= tags.open)
  }

  lemma TagsAreApart()
    ensures Apart(EM)
  {
    assert EM.open[1] != EM.close[1];
  }

  /** Rebuilding the markup gives the text back, with one closing tag added exactly if the last
      opening tag is not closed. */
  lemma PrintParse(s: string)
    ensures Render(Segments(s, EM), EM) == if Unclosed(s, EM) then s + EM.close else s
  {
    TagsAreApart();
    PrintText(s, EM);
  }

  lemma {:induction false} PrintText(s: string, tags: Tags)
    requires Apart(tags)
    ensures Render(Segments(s, tags), tags) == if Unclosed(s, tags) then s + tags.close else s
    decreases |s|, 1
  {
    CutParts(s, tags);
    FindFirst(s, tags.open);
    if !Find(s, tags.open).Between? {
      NeverOpened(s, tags);
      assert Render([Segment(s, false)], tags) == s;
    } else {
      match FirstTag(s, tags)
      case NotClosed(head, tail) => PrintNotClosed(s, head, tail, tags);
      case Closed(head, text, rest) => PrintClosed(s, head, text, rest, tags);
    }
  }

  lemma NeverOpened(s: string, tags: Tags)
    requires !Occurs(tags.open, s)
    ensures !Unclosed(s, tags)
  {
    forall head, tail ensures !UnclosedAt(s, head, tail, tags) {
      if s == head + (tags.open + tail) {
        assert tags.open <= s[|head|..];
      }
    }
  }

  lemma PrintNotClosed(s: string, head: string, tail: string, tags: Tags)
    requires tags.open != [] && s == head + (tags.open + tail) && FirstTag(s, tags) == NotClosed(head, tail)
    ensures Unclosed(s, tags) && Render(Segments(s, tags), tags) == s + tags.close
  {
    RenderLead(head, Segment(tail, true), tags);
    FindFirst(Find(s, tags.open).behind, tags.close);
    assert UnclosedAt(s, head, tail, tags);
    Regroup(head, tags.open + tail, tags.close, []);
    Regroup(tags.open, tail, tags.close, []);
  }

  lemma PrintClosed(s: string, head: string, text: string, rest: string, tags: Tags)
    requires Apart(tags) && FirstTag(s, tags) == Closed(head, text, rest) && |rest| < |s|
    requires s == head + (tags.open + (text + (tags.close + rest)))
    ensures Render(Segments(s, tags), tags) == if Unclosed(s, tags) then s + tags.close else s
    decreases |s|, 0
  {
    PrintText(rest, tags);
    RenderClosed(head, text, Segments(rest, tags), tags);
    var wrapped := head + (tags.open + text);
    Unwrap(head, text, rest, tags);
    Rewrap(head, text, rest, tags);
    if Unclosed(rest, tags) {
      UnclosedBehind(s, wrapped + tags.close, rest, tags);
      Regroup(wrapped + tags.close, rest, tags.close, []);
    } else {
      ClosedBehind(s, wrapped, rest, tags);
    }
  }

  lemma Rewrap(head: string, text: string, rest: string, tags: Tags)
    ensures head + (tags.open + (text + tags.close)) == (head + (tags.open + text)) + tags.close
    ensures (head + (tags.open + text)) + (tags.close + rest) == head + (tags.open + (text + (tags.close + rest)))
  {
    Regroup(tags.open, text, tags.close, []);
    Regroup(head, tags.open + text, tags.close, []);
    Regroup(tags.open, text, tags.close + rest, []);
    Regroup(head, tags.open + text, tags.close + rest, []);
  }

  /** Behind a closing tag an unclosed opening tag can only come from the rest. */
  lemma ClosedBehind(s: string, wrapped: string, rest: string, tags: Tags)
    requires Apart(tags) && !Unclosed(rest, tags) && s == wrapped + (tags.close + rest)
    ensures !Unclosed(s, tags)
  {
    forall h, t ensures !UnclosedAt(s, h, t, tags) {
      if UnclosedAt(s, h, t, tags) {
        OpenedBehind(s, wrapped, rest, h, t, tags);
        assert UnclosedAt(rest, s[|wrapped| + |tags.close|..|h|], t, tags);
      }
    }
  }

  lemma OpenedBehind(s: string, wrapped: string, rest: string, h: string, t: string, tags: Tags)
    requires Apart(tags) && s == wrapped + (tags.close + rest) && UnclosedAt(s, h, t, tags)
    ensures |h| >= |wrapped| + |tags.close| && rest == s[|wrapped| + |tags.close|..|h|] + (tags.open + t)
  {
    TagsDoNotOverlap(s, wrapped, rest, h, t, tags);
    CloseIsInTail(s, wrapped, rest, h, t, tags);
    assert rest == s[|wrapped| + |tags.close|..];
  }

  lemma CloseIsInTail(s: string, wrapped: string, rest: string, h: string, t: string, tags: Tags)
    requires s == wrapped + (tags.close + rest) && s == h + (tags.open + t)
    ensures |h| + |tags.open| <= |wrapped| ==> Occurs(tags.close, t)
  {
    var j := |wrapped| - |h| - |tags.open|;
    assert s[|wrapped|..] == tags.close + rest;
    assert j >= 0 ==> t[j..] == s[|wrapped|..] && tags.close <= t[j..];
  }

  lemma TagsDoNotOverlap(s: string, wrapped: string, rest: string, h: string, t: string, tags: Tags)
    requires Apart(tags) && s == wrapped + (tags.close + rest) && s == h + (tags.open + t)
    ensures |h| + |tags.open| <= |wrapped| || |wrapped| + |tags.close| <= |h|
  {
    var p, q := |h|, |wrapped|;
    assert s[p] == tags.open[0] && s[q] == tags.close[0];
    assert s[p..] == tags.open + t && s[q..] == tags.close + rest;
    OnePrefixOfTwo(tags.open, t, tags.close, rest);
  }

  lemma OnePrefixOfTwo(a: string, s: string, b: string, t: string)
    ensures a + s == b + t ==> a <= b || b <= a
  {
    assert |a| <= |b| ==> (a + s)[..|a|] == a && (b + t)[..|a|] == b[..|a|];
    assert |b| <= |a| ==> (b + t)[..|b|] == b && (a + s)[..|b|] == a[..|b|];
  }

  lemma RenderClosed(head: string, text: string, rest: seq<Segment>, tags: Tags)
    ensures Render(Lead(head) + ([Segment(text, true)] + rest), tags)
         == (head + (tags.open + (text + tags.close))) + Render(rest, tags)
  {
    var m := Segment(text, true);
    RenderAppend(Lead(head), [m] + rest, tags);
    assert Render(Lead(head), tags) == head;
    assert ([m] + rest)[1..] == rest;
    Regroup(head, Wrap(m, tags), Render(rest, tags), []);
  }

  lemma Unwrap(head: string, text: string, rest: string, tags: Tags)
    ensures (head + (tags.open + (text + tags.close))) + rest == head + (tags.open + (text + (tags.close + rest)))
  {
    Regroup(text, tags.close, rest, []);
    Regroup(tags.open, text + tags.close, rest, []);
    Regroup(head, tags.open + (text + tags.close), rest, []);
  }

  lemma UnclosedBehind(s: string, wrapped: string, rest: string, tags: Tags)
    requires Unclosed(rest, tags) && s == wrapped + rest
    ensures Unclosed(s, tags)
  {
    var h, tail :| UnclosedAt(rest, h, tail, tags);
    Regroup(wrapped, h, tags.open + tail, []);
    assert UnclosedAt(s, wrapped + h, tail, tags);
  }

  /** Segment lists that say each thing in one way: plain text is non-empty, holds no opening tag and
      is not followed by more plain text; a match holds no closing tag. */
  ghost predicate Canonical(segments: seq<Segment>, tags: Tags) {
    forall i: nat | i < |segments| :: CanonicalAt(segments, i, tags)
  }

  ghost predicate CanonicalAt(segments: seq<Segment>, i: nat, tags: Tags)
    requires i < |segments|
  {
    if segments[i].match_ then !Occurs(tags.close, segments[i].text)
    else segments[i].text != [] && !Occurs(tags.open, segments[i].text) && (i > 0 ==> segments[i - 1].match_)
  }

  /** A closed tag behind a text without tags is found as such. */
  lemma CutBehind(head: string, text: string, rest: string, tags: Tags)
    requires Borderless(tags.open) && Borderless(tags.close)
    requires !Occurs(tags.open, head) && !Occurs(tags.close, text)
    ensures FirstTag(head + (tags.open + (text + (tags.close + rest))), tags) == Closed(head, text, rest)
  {
    FindBehind(head, tags.open, text + (tags.close + rest));
    FindBehind(text, tags.close, rest);
  }

  /** Canonical segments survive printing and parsing. */
  lemma {:induction false} ParsePrint(segments: seq<Segment>, tags: Tags)
    requires Borderless(tags.open) && Borderless(tags.close) && Canonical(segments, tags)
    ensures Segments(Render(segments, tags), tags) == segments
    decreases |segments|
  {
    if segments != [] {
      assert CanonicalAt(segments, 0, tags);
      if segments[0].match_ {
        ParseMatch(segments, [], 0, tags);
      } else if |segments| == 1 {
        FindFirst(segments[0].text, tags.open);
        assert Render(segments, tags) == segments[0].text + Render(segments[1..], tags) == segments[0].text;
      } else {
        assert CanonicalAt(segments, 1, tags);
        ParseMatch(segments, segments[0].text, 1, tags);
      }
    }
  }

  lemma CanonicalDrop(segments: seq<Segment>, n: nat, tags: Tags)
    requires Canonical(segments, tags) && 0 < n <= |segments| && segments[n - 1].match_
    ensures Canonical(segments[n..], tags)
  {
    forall i: nat | i < |segments[n..]| ensures CanonicalAt(segments[n..], i, tags) {
      assert CanonicalAt(segments, n + i, tags);
    }
  }

  /** The list begins with an optional plain text and a match. */
  lemma ParseMatch(segments: seq<Segment>, head: string, n: nat, tags: Tags)
    requires Borderless(tags.open) && Borderless(tags.close) && Canonical(segments, tags)
    requires n < |segments| && segments[n].match_ && segments[..n] == Lead(head) && !Occurs(tags.open, head)
    ensures Segments(Render(segments, tags), tags) == segments
    decreases |segments|, 0
  {
    var rest := segments[n + 1..];
    CanonicalDrop(segments, n + 1, tags);
    ParsePrint(rest, tags);
    assert CanonicalAt(segments, n, tags);
    ParseBehind(head, segments[n].text, rest, tags);
    SplitMatch(segments, n);
  }

  lemma SplitMatch(segments: seq<Segment>, n: nat)
    requires n < |segments| && segments[n].match_
    ensures segments == segments[..n] + ([Segment(segments[n].text, true)] + segments[n + 1..])
  {}

  lemma ParseBehind(head: string, text: string, rest: seq<Segment>, tags: Tags)
    requires Borderless(tags.open) && Borderless(tags.close)
    requires !Occurs(tags.open, head) && !Occurs(tags.close, text)
    requires Segments(Render(rest, tags), tags) == rest
    ensures var all := Lead(head) + ([Segment(text, true)] + rest); Segments(Render(all, tags), tags) == all
  {
    RenderClosed(head, text, rest, tags);
    Unwrap(head, text, Render(rest, tags), tags);
    SegmentsClosed(head, text, Render(rest, tags), tags);
  }

  lemma SegmentsClosed(head: string, text: string, rest: string, tags: Tags)
    requires Borderless(tags.open) && Borderless(tags.close)
    requires !Occurs(tags.open, head) && !Occurs(tags.close, text)
    ensures Segments(head + (tags.open + (text + (tags.close + rest))), tags)
         == Lead(head) + ([Segment(text, true)] + Segments(rest, tags))
  {
    CutBehind(head, text, rest, tags);
  }

  /** Printing and parsing keep exactly the canonical segment lists. */
  lemma RoundTripExactly(segments: seq<Segment>)
    ensures Segments(Render(segments, EM), EM) == segments <==> Canonical(segments, EM)
  {
    TagsAreApart();
    if Canonical(segments, EM) {
      ParsePrint(segments, EM);
    }
    ParseCanonical(Render(segments, EM), EM);
  }

  /** What the parser returns is always canonical. */
  lemma {:induction false} ParseCanonical(s: string, tags: Tags)
    requires tags.open != [] && tags.close != []
    ensures Canonical(Segments(s, tags), tags)
    decreases |s|
  {
    if s != [] {
      FindFirst(s, tags.open);
      CutParts(s, tags);
      match FirstTag(s, tags)
      case NoTag =>
      case NotClosed(head, tail) =>
        FindFirst(tail, tags.close);
        CanonicalPair(head, tail, [], tags);
        assert [Segment(tail, true)] + [] == [Segment(tail, true)];
      case Closed(head, text, rest) =>
        FindFirst(Find(s, tags.open).behind, tags.close);
        ParseCanonical(rest, tags);
        CanonicalPair(head, text, Segments(rest, tags), tags);
    }
  }

  lemma CanonicalPair(head: string, text: string, rest: seq<Segment>, tags: Tags)
    requires !Occurs(tags.open, head) && !Occurs(tags.close, text) && Canonical(rest, tags)
    ensures Canonical(Lead(head) + ([Segment(text, true)] + rest), tags)
  {
    var n := |Lead(head)| + 1;
    var all := Lead(head) + ([Segment(text, true)] + rest);
    forall i: nat | i < |all| ensures CanonicalAt(all, i, tags) {
      assert i >= n ==> CanonicalAt(rest, i - n, tags);
    }
  }

  // ---------------------------------------------------------------- stripping

  /** Up to the next tag the text is kept, and behind it reading goes on the other way. */
  lemma {:induction false} UntaggedFind(s: string, tags: Tags, inside: bool)
    requires tags.open != [] && tags.close != []
    ensures var f := Find(s, if inside then tags.close else tags.open);
            Untagged(s, tags, inside) == if f.Nowhere? then s else f.before + Untagged(f.behind, tags, !inside)
    decreases |s|
  {
    var tag := if inside then tags.close else tags.open;
    if s == [] || tag <= s {
      FindHere(s, tag);
    } else {
      UntaggedFind(s[1..], tags, inside);
      FindLater(s, tag);
      var f := Find(s[1..], tag);
      if f.Between? {
        Prepend(s[0], f.before, Untagged(f.behind, tags, !inside));
      }
    }
  }

  lemma Prepend(c: char, a: string, b: string)
    ensures [c] + (a + b) == [c] + a + b
  {}

  lemma FindHere(s: string, tag: string)
    requires tag != [] && (s == [] || tag <= s)
    ensures Find(s, tag) == if s == [] then Nowhere else Between([], s[|tag|..])
  {
    assert s[..0] == [];
  }

  lemma FindLater(s: string, tag: string)
    requires s != [] && !(tag <= s)
    ensures var f := Find(s[1..], tag);
            Find(s, tag) == if f.Nowhere? then Nowhere else Between([s[0]] + f.before, f.behind)
  {
    var i := IndexOf(s[1..], tag);
    if i >= 0 {
      assert s[..i + 1] == [s[0]] + s[1..][..i];
      assert s[i + 1 + |tag|..] == s[1..][i + |tag|..];
    }
  }

  lemma {:induction false} TextsAppend(a: seq<Segment>, b: seq<Segment>)
    ensures Texts(a + b) == Texts(a) + Texts(b)
  {
    if a != [] {
      TextsAppend(a[1..], b);
      assert (a + b)[1..] == a[1..] + b;
    } else {
      assert a + b == b;
    }
  }

  lemma TextsMatch(head: string, text: string, rest: seq<Segment>)
    ensures Texts(Lead(head) + ([Segment(text, true)] + rest)) == head + (text + Texts(rest))
    ensures Texts(Lead(head) + [Segment(text, true)]) == head + text
  {
    var m := [Segment(text, true)];
    TextsAppend(Lead(head), m + rest);
    TextsAppend(Lead(head), m);
    assert (m + rest)[1..] == rest && m[1..] == [];
    assert Texts(m) == text + Texts([]) == text;
    assert Texts(Lead(head)) == head;
  }

  lemma {:induction false} UntaggedTexts(s: string, tags: Tags)
    requires tags.open != [] && tags.close != []
    ensures Texts(Segments(s, tags)) == Untagged(s, tags, false)
    decreases |s|
  {
    if s != [] {
      CutParts(s, tags);
      UntaggedFind(s, tags, false);
      match FirstTag(s, tags)
      case NoTag => assert Texts([Segment(s, false)]) == s + Texts([]);
      case NotClosed(head, tail) =>
        UntaggedFind(tail, tags, true);
        TextsMatch(head, tail, []);
      case Closed(head, text, rest) =>
        UntaggedFind(Find(s, tags.open).behind, tags, true);
        TextsMatch(head, text, Segments(rest, tags));
        UntaggedTexts(rest, tags);
    }
  }

  /** Stripping printed segments leaves their texts. */
  lemma StripRendered(segments: seq<Segment>)
    requires Canonical(segments, EM)
    ensures Untagged(Render(segments, EM), EM, false) == Texts(segments)
  {
    TagsAreApart();
    ParsePrint(segments, EM);
    UntaggedTexts(Render(segments, EM), EM);
  }

  /** Text without an opening tag is its own plain text. */
  lemma PlainText(s: string)
    requires !Occurs(EM.open, s)
    ensures Untagged(s, EM, false) == s
  {
    FindFirst(s, EM.open);
    UntaggedFind(s, EM, false);
  }
}
