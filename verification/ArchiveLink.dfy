/** archiveSearch.ts: a search as a link query, and a link query as a search. */
module ArchiveLink {
  import opened Common
  import opened Json

  datatype ListKey = Companies | DocTypes | Tags
  datatype DateKey = DateFrom | DateTo

  const LIST_KEYS := [Companies, DocTypes, Tags]
  const DATE_KEYS := [DateFrom, DateTo]

  /** A query parameter: a text, absent, or something else (null, or given several times). */
  datatype Param = Text(s: JString) | Absent | Other

  datatype Query = Query(q: Param, lists: map<ListKey, Param>, dates: map<DateKey, Param>, hasBarcode: Param, title: Param)

  datatype Filters = Filters(lists: map<ListKey, seq<JString>>, dates: map<DateKey, JString>,
                             hasBarcode: Option<bool>, title: Option<JString>)

  datatype Search = Search(term: JString, filters: Filters)

  // ---------------------------------------------------------------- strings

  predicate IsBlank(c: Unit) {
    0x09 <= c <= 0x0D || c == 0x20 || c == 0xA0 || c == 0x1680 || 0x2000 <= c <= 0x200A
    || c == 0x2028 || c == 0x2029 || c == 0x202F || c == 0x205F || c == 0x3000 || c == 0xFEFF
  }

  function TrimStart(s: JString): JString {
    if s != [] && IsBlank(s[0]) then TrimStart(s[1..]) else s
  }

  function TrimEnd(s: JString): JString {
    if s != [] && IsBlank(s[|s| - 1]) then TrimEnd(s[..|s| - 1]) else s
  }

  function Trim(s: JString): JString { TrimEnd(TrimStart(s)) }

  predicate IsTrimmed(s: JString) { s == [] || (!IsBlank(s[0]) && !IsBlank(s[|s| - 1])) }

  function Join(values: seq<JString>): JString
    requires values != []
  {
    if |values| == 1 then values[0] else values[0] + [COMMA] + Join(values[1..])
  }

  /** `split(',')`: the pieces between the commas, at least one. */
  function Split(s: JString): (r: seq<JString>)
    ensures r != []
  {
    if s == [] then [[]]
    else
      var pieces := Split(s[1..]);
      if s[0] == COMMA then [[]] + pieces else [[s[0]] + pieces[0]] + pieces[1..]
  }

  function NonEmpty(values: seq<JString>): seq<JString> {
    if values == [] then [] else (if values[0] == [] then [] else [values[0]]) + NonEmpty(values[1..])
  }

  function NonEmptyStrings(items: seq<Value>): seq<JString> {
    if items == [] then []
    else (if items[0].Str? && items[0].s != [] then [items[0].s] else []) + NonEmptyStrings(items[1..])
  }

  // ---------------------------------------------------------------- the two directions

  /** A filter list as found in a query, or None where the filter stays unset. */
  function ReadList(p: Param): Option<seq<JString>> {
    if !p.Text? || p.s == [] then None
    else if p.s[0] == OPEN_BRACKET then
      (match Parse(p.s)
       case Some(Arr(items)) => Some(NonEmptyStrings(items))
       case _ => None)
    else Some(NonEmpty(Split(p.s)))
  }

  predicate NeedsJson(values: seq<JString>) {
    exists v <- values :: COMMA in v || (v != [] && v[0] == OPEN_BRACKET)
  }

  function WriteList(values: seq<JString>): Param {
    if values == [] then Absent else Text(if NeedsJson(values) then Stringify(values) else Join(values))
  }

  const TRUE_TEXT: JString := TRUE
  const FALSE_TEXT: JString := FALSE

  function ReadText(p: Param): Option<JString> { if p.Text? && p.s != [] then Some(p.s) else None }

  function WriteText(s: JString): Param { if s == [] then Absent else Text(s) }

  function ReadFlag(p: Param): Option<bool> {
    if p == Text(TRUE_TEXT) then Some(true) else if p == Text(FALSE_TEXT) then Some(false) else None
  }

  function WriteFlag(b: Option<bool>): Param {
    match b
    case None => Absent
    case Some(v) => Text(if v then TRUE_TEXT else FALSE_TEXT)
  }

  function ReadLists(lists: map<ListKey, Param>): map<ListKey, seq<JString>> {
    map k | k in lists && ReadList(lists[k]).Some? :: ReadList(lists[k]).value
  }

  function ReadDates(dates: map<DateKey, Param>): map<DateKey, JString> {
    map k | k in dates && ReadText(dates[k]).Some? :: ReadText(dates[k]).value
  }

  function ReadQuery(query: Query): Search {
    Search(if query.q.Text? then query.q.s else [],
           Filters(ReadLists(query.lists), ReadDates(query.dates), ReadFlag(query.hasBarcode), ReadText(query.title)))
  }

  function WriteLists(lists: map<ListKey, seq<JString>>): map<ListKey, Param> {
    map k | k in lists && lists[k] != [] :: WriteList(lists[k])
  }

  function WriteDates(dates: map<DateKey, JString>): map<DateKey, Param> {
    map k | k in dates && dates[k] != [] :: Text(dates[k])
  }

  function WriteQuery(term: JString, f: Filters): Query {
    Query(WriteText(Trim(term)), WriteLists(f.lists), WriteDates(f.dates), WriteFlag(f.hasBarcode),
          WriteText(if f.title.Some? then Trim(f.title.value) else []))
  }

  predicate HasArchiveSearch(term: JString, f: Filters) {
    var q := WriteQuery(term, f);
    !q.q.Absent? || q.lists != map[] || q.dates != map[] || !q.hasBarcode.Absent? || !q.title.Absent?
  }

  /** The part of a map that a loop over the keys has built after n of them. */
  function Upto<K, V>(m: map<K, V>, keys: seq<K>, n: nat): map<K, V>
    requires n <= |keys|
  {
    map k | k in m && k in keys[..n] :: m[k]
  }

  lemma UptoNext<K, V>(m: map<K, V>, keys: seq<K>, i: nat)
    requires i < |keys|
    ensures var k := keys[i];
            Upto(m, keys, i + 1) == if k in m then Upto(m, keys, i)[k := m[k]] else Upto(m, keys, i)
  {
    assert keys[..i + 1] == keys[..i] + [keys[i]];
  }

  lemma AllListKeys<V>(m: map<ListKey, V>)
    ensures Upto(m, LIST_KEYS, |LIST_KEYS|) == m
  {
    forall k <- m ensures k in LIST_KEYS[..3] {
      match k
      case Companies => assert LIST_KEYS[..3][0] == k;
      case DocTypes => assert LIST_KEYS[..3][1] == k;
      case Tags => assert LIST_KEYS[..3][2] == k;
    }
  }

  lemma AllDateKeys<V>(m: map<DateKey, V>)
    ensures Upto(m, DATE_KEYS, |DATE_KEYS|) == m
  {
    forall k <- m ensures k in DATE_KEYS[..2] {
      match k
      case DateFrom => assert DATE_KEYS[..2][0] == k;
      case DateTo => assert DATE_KEYS[..2][1] == k;
    }
  }

  method ParseLists(params: map<ListKey, Param>) returns (lists: map<ListKey, seq<JString>>)
    ensures lists == ReadLists(params)
  {
    lists := map[];
    for i := 0 to |LIST_KEYS|
      invariant lists == Upto(ReadLists(params), LIST_KEYS, i)
    {
      var key := LIST_KEYS[i];
      UptoNext(ReadLists(params), LIST_KEYS, i);
      if key in params && params[key].Text? && params[key].s != [] {
        var value := params[key].s;
        if value[0] == OPEN_BRACKET {
          var parsed := Parse(value);
          if parsed.Some? && parsed.value.Arr? {
            lists := lists[key := NonEmptyStrings(parsed.value.items)];
          }
        } else {
          lists := lists[key := NonEmpty(Split(value))];
        }
      }
    }
    AllListKeys(ReadLists(params));
  }

  method ParseDates(params: map<DateKey, Param>) returns (dates: map<DateKey, JString>)
    ensures dates == ReadDates(params)
  {
    dates := map[];
    for i := 0 to |DATE_KEYS|
      invariant dates == Upto(ReadDates(params), DATE_KEYS, i)
    {
      var key := DATE_KEYS[i];
      if key in params && params[key].Text? && params[key].s != [] {
        dates := dates[key := params[key].s];
      }
    }
    AllDateKeys(ReadDates(params));
  }

  method ParseArchiveQuery(query: Query) returns (search: Search)
    ensures search == ReadQuery(query)
  {
    var lists := ParseLists(query.lists);
    var dates := ParseDates(query.dates);
    var filters := Filters(lists, dates, None, None);
    if query.hasBarcode == Text(TRUE_TEXT) || query.hasBarcode == Text(FALSE_TEXT) {
      filters := filters.(hasBarcode := Some(query.hasBarcode == Text(TRUE_TEXT)));
    }
    if query.title.Text? && query.title.s != [] {
      filters := filters.(title := Some(query.title.s));
    }
    search := Search(if query.q.Text? then query.q.s else [], filters);
  }

  method PrintLists(lists: map<ListKey, seq<JString>>) returns (params: map<ListKey, Param>)
    ensures params == WriteLists(lists)
  {
    params := map[];
    for i := 0 to |LIST_KEYS|
      invariant params == Upto(WriteLists(lists), LIST_KEYS, i)
    {
      var key := LIST_KEYS[i];
      UptoNext(WriteLists(lists), LIST_KEYS, i);
      if key in lists && lists[key] != [] {
        var values := lists[key];
        params := params[key := Text(if NeedsJson(values) then Stringify(values) else Join(values))];
      }
    }
    AllListKeys(WriteLists(lists));
  }

  method PrintDates(dates: map<DateKey, JString>) returns (params: map<DateKey, Param>)
    ensures params == WriteDates(dates)
  {
    params := map[];
    for i := 0 to |DATE_KEYS|
      invariant params == Upto(WriteDates(dates), DATE_KEYS, i)
    {
      var key := DATE_KEYS[i];
      if key in dates && dates[key] != [] {
        params := params[key := Text(dates[key])];
      }
    }
    AllDateKeys(WriteDates(dates));
  }

  method ArchiveQuery(term: JString, f: Filters) returns (query: Query)
    ensures query == WriteQuery(term, f)
  {
    query := Query(Absent, map[], map[], Absent, Absent);
    if Trim(term) != [] {
      query := query.(q := Text(Trim(term)));
    }
    var lists := PrintLists(f.lists);
    var dates := PrintDates(f.dates);
    query := query.(lists := lists, dates := dates);
    if f.hasBarcode.Some? {
      query := query.(hasBarcode := Text(if f.hasBarcode.value then TRUE_TEXT else FALSE_TEXT));
    }
    if f.title.Some? && Trim(f.title.value) != [] {
      query := query.(title := Text(Trim(f.title.value)));
    }
  }

  // ---------------------------------------------------------------- round trips

  lemma {:induction false} SplitPiece(v: JString, rest: JString)
    requires COMMA !in v
    ensures Split(v) == [v]
    ensures Split(v + [COMMA] + rest) == [v] + Split(rest)
  {
    if v == [] {
      assert v + [COMMA] + rest == [COMMA] + rest && ([COMMA] + rest)[1..] == rest;
    } else {
      SplitPiece(v[1..], rest);
      assert (v + [COMMA] + rest)[1..] == v[1..] + [COMMA] + rest;
      assert [v[0]] + v[1..] == v;
    }
  }

  lemma {:induction false} SplitJoin(values: seq<JString>)
    requires values != [] && forall v <- values :: COMMA !in v
    ensures Split(Join(values)) == values
  {
    if |values| == 1 {
      SplitPiece(values[0], []);
    } else {
      SplitPiece(values[0], Join(values[1..]));
      SplitJoin(values[1..]);
      assert [values[0]] + values[1..] == values;
    }
  }

  lemma {:induction false} StringsNonEmpty(values: seq<JString>)
    ensures NonEmptyStrings(Strings(values)) == NonEmpty(values)
  {
    if values != [] {
      StringsNonEmpty(values[1..]);
      assert Strings(values)[1..] == Strings(values[1..]);
    }
  }

  lemma JoinStart(values: seq<JString>)
    requires values != [] && !NeedsJson(values)
    ensures Join(values) == [] <==> values == [[]]
    ensures Join(values) != [] ==> Join(values)[0] != OPEN_BRACKET
  {
    assert values[0] in values;
  }

  /** What a filter list is after writing and reading it: the list without its empty strings, and
      unset when nothing was written. */
  function Kept(values: seq<JString>): Option<seq<JString>> {
    if values == [] || values == [[]] then None else Some(NonEmpty(values))
  }

  /** Both branches of the printer are told apart by the first character of what they print. */
  lemma ListRoundTrip(values: seq<JString>)
    ensures ReadList(WriteList(values)) == Kept(values)
    ensures WriteList(values).Text? && WriteList(values).s != [] ==>
              (WriteList(values).s[0] == OPEN_BRACKET <==> NeedsJson(values))
  {
    if values != [] {
      if NeedsJson(values) {
        StringifyRoundTrip(values);
        StringsNonEmpty(values);
      } else {
        JoinStart(values);
        forall v <- values ensures COMMA !in v {}
        SplitJoin(values);
      }
    }
  }

  function KeptLists(lists: map<ListKey, seq<JString>>): map<ListKey, seq<JString>> {
    map k | k in lists && Kept(lists[k]).Some? :: Kept(lists[k]).value
  }

  function Normal(f: Filters): Filters {
    Filters(KeptLists(f.lists),
            map k | k in f.dates && f.dates[k] != [] :: f.dates[k],
            f.hasBarcode,
            if f.title.Some? && Trim(f.title.value) != [] then Some(Trim(f.title.value)) else None)
  }

  lemma ListsRoundTrip(lists: map<ListKey, seq<JString>>)
    ensures ReadLists(WriteLists(lists)) == KeptLists(lists)
  {
    forall k | k in lists ensures ReadList(WriteList(lists[k])) == Kept(lists[k]) {
      ListRoundTrip(lists[k]);
    }
  }

  /** For every search at all: reading the link it is written to gives the trimmed term and the filters
      in normal form. */
  lemma LinkRoundTrip(term: JString, f: Filters)
    ensures ReadQuery(WriteQuery(term, f)) == Search(Trim(term), Normal(f))
  {
    ListsRoundTrip(f.lists);
    assert ReadDates(WriteDates(f.dates)) == Normal(f).dates;
    assert ReadFlag(WriteFlag(f.hasBarcode)) == f.hasBarcode;
  }

  /** Filters that lose nothing: lists of non-empty strings with at least one, non-empty dates, and a
      trimmed non-empty title. */
  ghost predicate IsNormal(f: Filters) {
    && (forall k <- f.lists :: f.lists[k] != [] && forall v <- f.lists[k] :: v != [])
    && (forall k <- f.dates :: f.dates[k] != [])
    && (f.title.Some? ==> f.title.value != [] && IsTrimmed(f.title.value))
  }

  lemma {:induction false} NonEmptySame(values: seq<JString>)
    ensures |NonEmpty(values)| <= |values|
    ensures [] in values ==> |NonEmpty(values)| < |values|
    ensures [] !in values ==> NonEmpty(values) == values
  {
    if values != [] {
      NonEmptySame(values[1..]);
      assert values == [values[0]] + values[1..];
    }
  }

  lemma {:induction false} TrimStartShorter(s: JString)
    ensures TrimStart(s) == s || |TrimStart(s)| < |s|
    ensures TrimStart(s) == s <==> s == [] || !IsBlank(s[0])
  {
    if s != [] && IsBlank(s[0]) {
      TrimStartShorter(s[1..]);
    }
  }

  lemma {:induction false} TrimEndShorter(s: JString)
    ensures TrimEnd(s) == s || |TrimEnd(s)| < |s|
    ensures TrimEnd(s) == s <==> s == [] || !IsBlank(s[|s| - 1])
  {
    if s != [] && IsBlank(s[|s| - 1]) {
      TrimEndShorter(s[..|s| - 1]);
    }
  }

  lemma TrimSame(s: JString)
    ensures Trim(s) == s <==> IsTrimmed(s)
  {
    TrimStartShorter(s);
    TrimEndShorter(TrimStart(s));
  }

  lemma NormalSame(f: Filters)
    ensures Normal(f) == f <==> IsNormal(f)
  {
    var n := Normal(f);
    forall k <- f.lists
      ensures k in n.lists && n.lists[k] == f.lists[k] <==> f.lists[k] != [] && forall v <- f.lists[k] :: v != []
    {
      NonEmptySame(f.lists[k]);
      assert f.lists[k] == [[]] ==> f.lists[k][0] in f.lists[k];
    }
    if f.title.Some? {
      TrimSame(f.title.value);
    }
    assert n.lists == f.lists <==> forall k <- f.lists :: k in n.lists && n.lists[k] == f.lists[k];
    assert n.dates == f.dates <==> forall k <- f.dates :: k in n.dates && n.dates[k] == f.dates[k];
  }

  /** A search survives its link unchanged exactly when its term is trimmed and its filters are normal. */
  lemma LinkKeepsExactly(term: JString, f: Filters)
    ensures ReadQuery(WriteQuery(term, f)) == Search(term, f) <==> IsTrimmed(term) && IsNormal(f)
  {
    LinkRoundTrip(term, f);
    TrimSame(term);
    NormalSame(f);
  }

  /** A search that asks for nothing is one whose link reads back as the empty search; the only other
      such links hold a list of one empty string, which is written but not read. */
  lemma NothingAsked(term: JString, f: Filters)
    ensures !HasArchiveSearch(term, f) <==>
            ReadQuery(WriteQuery(term, f)) == Search([], Filters(map[], map[], None, None))
            && forall k <- f.lists :: f.lists[k] != [[]]
  {
    LinkRoundTrip(term, f);
    var q, n := WriteQuery(term, f), Normal(f);
    if k :| k in f.lists && f.lists[k] == [[]] {
      assert k in q.lists;
    } else {
      assert q.lists.Keys == n.lists.Keys;
      assert q.dates.Keys == n.dates.Keys;
    }
  }
}
