/** useSearch.ts: the rows of the last answered search stay visible while the next one is loading. */
module DocumentSearch {
  import L = ArchiveLink
  import opened Common
  import opened Feed
  import Json

  const NO_FILTERS := L.Filters(map[], map[], None, None)
  const NO_QUERY := L.Search([], NO_FILTERS)

  function Chosen(lists: map<L.ListKey, seq<Json.JString>>, key: L.ListKey): nat {
    if key in lists then |lists[key]| else 0
  }

  predicate Dated(dates: map<L.DateKey, Json.JString>, key: L.DateKey) { key in dates && dates[key] != [] }

  function ActiveFilterCount(f: L.Filters): nat {
    Chosen(f.lists, L.Companies) + (if Dated(f.dates, L.DateFrom) then 1 else 0) + (if Dated(f.dates, L.DateTo) then 1 else 0)
    + (if f.hasBarcode.Some? then 1 else 0) + (if f.title.Some? && L.Trim(f.title.value) != [] then 1 else 0)
    + Chosen(f.lists, L.DocTypes) + Chosen(f.lists, L.Tags)
  }

  predicate Blank(q: L.Search) { L.Trim(q.term) == [] && ActiveFilterCount(q.filters) == 0 }

  /** A blank search is the one the link treats as none, lists of empty strings included. */
  lemma BlankExactly(q: L.Search)
    ensures Blank(q) <==> !L.HasArchiveSearch(q.term, q.filters)
  {
    var w := L.WriteQuery(q.term, q.filters);
    if !Blank(q) && L.Trim(q.term) == [] {
      CountShows(q.filters, w);
    }
    if Blank(q) {
      assert forall k <- q.filters.lists :: q.filters.lists[k] == [] by {
        forall k <- q.filters.lists ensures q.filters.lists[k] == [] {
          match k
          case Companies => assert Chosen(q.filters.lists, L.Companies) == 0;
          case DocTypes => assert Chosen(q.filters.lists, L.DocTypes) == 0;
          case Tags => assert Chosen(q.filters.lists, L.Tags) == 0;
        }
      }
      assert forall k <- q.filters.dates :: q.filters.dates[k] == [] by {
        forall k <- q.filters.dates ensures q.filters.dates[k] == [] {
          match k
          case DateFrom => assert !Dated(q.filters.dates, L.DateFrom);
          case DateTo => assert !Dated(q.filters.dates, L.DateTo);
        }
      }
    }
  }

  /** What counts as an active filter is written into the link. */
  lemma CountShows(f: L.Filters, w: L.Query)
    requires ActiveFilterCount(f) > 0
    requires w.lists == L.WriteLists(f.lists) && w.dates == L.WriteDates(f.dates) && w.hasBarcode == L.WriteFlag(f.hasBarcode)
    requires w.title == L.WriteText(if f.title.Some? then L.Trim(f.title.value) else [])
    ensures w.lists != map[] || w.dates != map[] || !w.hasBarcode.Absent? || !w.title.Absent?
  {
    forall k: L.ListKey | Chosen(f.lists, k) > 0 ensures k in w.lists {}
    forall k: L.DateKey | Dated(f.dates, k) ensures k in w.dates {}
    if Chosen(f.lists, L.Companies) > 0 {
      assert L.Companies in w.lists;
    } else if Chosen(f.lists, L.DocTypes) > 0 {
      assert L.DocTypes in w.lists;
    } else if Chosen(f.lists, L.Tags) > 0 {
      assert L.Tags in w.lists;
    } else if Dated(f.dates, L.DateFrom) {
      assert L.DateFrom in w.dates;
    } else if Dated(f.dates, L.DateTo) {
      assert L.DateTo in w.dates;
    }
  }

  /** A call of `search`; without filters the active ones stay. */
  datatype Call = Call(term: Json.JString, filters: Option<L.Filters>)

  function Asked(call: Call, active: L.Filters): L.Search {
    L.Search(call.term, if call.filters.Some? then call.filters.value else active)
  }

  /** What is displayed apart from the spinners. */
  datatype Panel = Panel(results: seq<Doc>, total: nat, error: bool, hasSearched: bool, query: L.Search)

  /** All receipts, those the rows were made of, and the generation of the latter. */
  datatype History = History(log: seq<Receipt>, applied: seq<Receipt>, shown: nat)

  datatype State = State(panel: Panel, loading: bool, loadingMore: bool, scroll: string, debounce: Option<Call>,
                         generation: nat, requests: seq<Request>, history: History)

  function Cleared(q: L.Search): Panel { Panel([], 0, false, false, q) }

  const START := State(Cleared(NO_QUERY), false, false, "", None, 0, [], History([], [], 0))

  /** Whatever is searched for, the debounce timer and all open requests are out of date. */
  function Begun(s: State, q: L.Search): State {
    s.(debounce := None, generation := s.generation + 1, loadingMore := false, scroll := "",
       panel := s.panel.(query := q))
  }

  function RowsCleared(s: State): State {
    s.(panel := Cleared(s.panel.query), loading := false,
       history := s.history.(applied := [], shown := s.generation))
  }

  function Sent(s: State): State {
    s.(panel := s.panel.(error := false, hasSearched := true), loading := true,
       requests := s.requests + [Request(s.generation, "", s.generation, false)])
  }

  function Search(s: State, call: Call): State {
    var q := Asked(call, s.panel.query.filters);
    if Blank(q) then RowsCleared(Begun(s, q)) else Sent(Begun(s, q))
  }

  function LoadMore(s: State): State {
    if s.scroll == "" || s.loading || s.loadingMore then s
    else s.(loadingMore := true, requests := s.requests + [Request(s.generation, s.scroll, s.generation, false)])
  }

  /** Also what happens when the scope is disposed of. */
  function Clear(s: State): State { RowsCleared(Begun(s, NO_QUERY)) }

  function ReceiptOf(s: State, k: nat, page: Page): Receipt
    requires k < |s.requests|
  {
    Receipt(s.requests[k].generation, s.requests[k].asked, page)
  }

  /** The request is settled and its reply logged; nothing else happens to a reply that is out of date. */
  function Settled(s: State, k: nat, reply: Reply): State
    requires k < |s.requests|
  {
    s.(requests := s.requests[k := s.requests[k].(settled := true)],
       history := if reply.Answer? then s.history.(log := s.history.log + [ReceiptOf(s, k, reply.page)]) else s.history)
  }

  function ResumeSearch(s: State, k: nat, reply: Reply): State
    requires k < |s.requests|
  {
    var t := Settled(s, k, reply);
    if s.requests[k].generation != s.generation then t
    else match reply
      case Answer(page) =>
        t.(panel := s.panel.(results := Rows(page), total := Total(page)),
           scroll := if page.hits.Some? then page.scroll else s.scroll, loading := false,
           history := t.history.(applied := [ReceiptOf(s, k, page)], shown := s.generation))
      case Fault =>
        t.(panel := s.panel.(error := true, results := [], total := 0), loading := false,
           history := t.history.(applied := [], shown := s.generation))
  }

  function ResumeMore(s: State, k: nat, reply: Reply): State
    requires k < |s.requests|
  {
    var t := Settled(s, k, reply);
    if s.requests[k].generation != s.generation then t
    else match reply
      case Answer(page) =>
        t.(panel := s.panel.(results := s.panel.results + Rows(page)),
           scroll := if page.hits.Some? then page.scroll else s.scroll, loadingMore := false,
           history := t.history.(applied := s.history.applied + [ReceiptOf(s, k, page)]))
      case Fault => t.(panel := s.panel.(error := true), loadingMore := false)
  }

  function Resume(s: State, k: nat, reply: Reply): State
    requires k < |s.requests|
  {
    if s.requests[k].asked == "" then ResumeSearch(s, k, reply) else ResumeMore(s, k, reply)
  }

  class DocumentSearch {
    var results: seq<Doc>
    var total: nat
    var loading: bool
    var loadingMore: bool
    var error: bool
    var scroll: string
    var hasSearched: bool
    var debounce: Option<Call>
    var searchTerm: Json.JString
    var activeFilters: L.Filters
    var generation: nat
    var requests: seq<Request>
    ghost var history: History

    ghost function View(): State
      reads this
    {
      State(Panel(results, total, error, hasSearched, L.Search(searchTerm, activeFilters)), loading, loadingMore, scroll,
            debounce, generation, requests, history)
    }

    method BeginSearch(term: Json.JString, filters: Option<L.Filters>)
      modifies this
      ensures View() == Search(old(View()), Call(term, filters))
    {
      Begin(term, if filters.Some? then filters.value else activeFilters);
      if L.Trim(term) == [] && ActiveFilterCount(activeFilters) == 0 {
        ClearRows();
        return;
      }
      loading, error, hasSearched := true, false, true;
      requests := requests + [Request(generation, "", generation, false)];
    }

    method Begin(term: Json.JString, filters: L.Filters)
      modifies this
      ensures View() == Begun(old(View()), L.Search(term, filters))
    {
      debounce, loadingMore, scroll := None, false, "";
      generation := generation + 1;
      searchTerm, activeFilters := term, filters;
    }

    method ClearRows()
      modifies this
      ensures View() == RowsCleared(old(View()))
    {
      results, total, hasSearched, loading, error := [], 0, false, false, false;
      history := history.(applied := [], shown := generation);
    }

    method BeginLoadMore()
      modifies this
      ensures View() == LoadMore(old(View()))
    {
      if scroll == "" || loading || loadingMore {
        return;
      }
      loadingMore := true;
      requests := requests + [Request(generation, scroll, generation, false)];
    }

    method Settle(k: nat, reply: Reply) returns (current: bool)
      requires k < |requests|
      modifies this`requests, this`history
      ensures View() == Settled(old(View()), k, reply)
      ensures current == (old(requests)[k].generation == generation)
    {
      var r := requests[k];
      requests := requests[k := r.(settled := true)];
      if reply.Answer? {
        history := history.(log := history.log + [Receipt(r.generation, r.asked, reply.page)]);
      }
      return r.generation == generation;
    }

    method OnSearchReply(k: nat, reply: Reply)
      requires k < |requests|
      modifies this
      ensures View() == ResumeSearch(old(View()), k, reply)
    {
      ghost var r := requests[k];
      var current := Settle(k, reply);
      if !current {
        return;
      }
      if reply.Answer? && reply.page.hits.Some? {
        results, total, scroll := reply.page.hits.value, reply.page.total, reply.page.scroll;
      } else {
        results, total := [], 0;
        error := error || reply.Fault?;
      }
      history := history.(applied := if reply.Answer? then [Receipt(r.generation, r.asked, reply.page)] else [],
                          shown := generation);
      loading := false;
    }

    method OnMoreReply(k: nat, reply: Reply)
      requires k < |requests|
      modifies this
      ensures View() == ResumeMore(old(View()), k, reply)
    {
      ghost var r := requests[k];
      var current := Settle(k, reply);
      if !current {
        return;
      }
      if reply.Answer? {
        if reply.page.hits.Some? {
          results := results + reply.page.hits.value;
          scroll := reply.page.scroll;
        }
        assert results == old(results) + Rows(reply.page);
        history := history.(applied := history.applied + [Receipt(r.generation, r.asked, reply.page)]);
      } else {
        error := true;
      }
      loadingMore := false;
    }

    method ClearAll()
      modifies this
      ensures View() == Clear(old(View()))
    {
      Begin([], NO_FILTERS);
      ClearRows();
    }
  }

  datatype Event =
    | Searches(call: Call) | Debounces(call: Call) | TimerFires | LoadsMore | Clears | ClearsFilters
    | Replies(request: nat, reply: Reply)

  predicate Possible(s: State, e: Event) {
    match e
    case TimerFires => s.debounce.Some?
    case Replies(k, _) => k < |s.requests| && !s.requests[k].settled
    case _ => true
  }

  function Next(s: State, e: Event): State
    requires Possible(s, e)
  {
    match e
    case Searches(call) => Search(s, call)
    case Debounces(call) => s.(debounce := Some(call))
    case TimerFires => Search(s, s.debounce.value)
    case LoadsMore => LoadMore(s)
    case Clears => Clear(s)
    case ClearsFilters => Search(s, Call(s.panel.query.term, Some(NO_FILTERS)))
    case Replies(k, reply) => Resume(s, k, reply)
  }

  /** The rows come from one search; if that is the latest one, they are all that was received for it. */
  ghost predicate Rowed(results: seq<Doc>, loading: bool, scroll: string, generation: nat, h: History) {
    && h.shown <= generation && (loading <==> h.shown != generation)
    && results == AllRows(h.applied) && Chain(h.applied, true) && (forall r <- h.applied :: r.generation == h.shown)
    && if loading then Of(h.log, generation) == [] && scroll == ""
       else h.applied == Of(h.log, generation) && Shows(results, scroll, h.applied, true)
  }

  ghost predicate Faithful(s: State) {
    Rowed(s.panel.results, s.loading, s.scroll, s.generation, s.history) && Asks(s.requests, s.generation, s.scroll)
  }

  ghost predicate Inv(s: State) {
    && Known(s.requests, s.history.log, s.generation)
    && OneOpen(s.requests, s.generation, s.loading, s.loadingMore)
    && Faithful(s)
  }

  lemma SearchInv(s: State, call: Call)
    requires Inv(s)
    ensures Inv(Search(s, call))
  {
    var q := Asked(call, s.panel.query.filters);
    if Blank(q) {
      ClearedInv(s, q);
    } else {
      SentInv(s, q);
    }
  }

  lemma ClearedInv(s: State, q: L.Search)
    requires Known(s.requests, s.history.log, s.generation)
    ensures Inv(RowsCleared(Begun(s, q)))
  {
    EmptyRows(s.history.log, s.generation);
    NothingOpen(s.requests, s.history.log, s.generation);
  }

  lemma SentInv(s: State, q: L.Search)
    requires Known(s.requests, s.history.log, s.generation)
    requires Rowed(s.panel.results, s.loading, s.scroll, s.generation, s.history)
    ensures Inv(Sent(Begun(s, q)))
  {
    SentFaithful(s, q);
    AskFirst(s.requests, s.history.log, s.generation);
  }

  lemma SentFaithful(s: State, q: L.Search)
    requires Known(s.requests, s.history.log, s.generation)
    requires Rowed(s.panel.results, s.loading, s.scroll, s.generation, s.history)
    ensures Faithful(Sent(Begun(s, q)))
  {
    OldRows(s.panel.results, s.loading, s.scroll, s.requests, s.generation, s.history);
    AsksFirst(s.requests, s.generation + 1);
  }

  /** A new search keeps the rows of the one before. */
  lemma OldRows(results: seq<Doc>, loading: bool, scroll: string, requests: seq<Request>, generation: nat, h: History)
    requires Rowed(results, loading, scroll, generation, h) && Known(requests, h.log, generation)
    ensures Rowed(results, true, "", generation + 1, h)
  {
    OfFresh(h.log, generation + 1);
  }

  lemma EmptyRows(log: seq<Receipt>, generation: nat)
    requires Known([], log, generation)
    ensures Rowed([], false, "", generation + 1, History(log, [], generation + 1))
  {
    OfFresh(log, generation + 1);
  }

  lemma NothingOpen(requests: seq<Request>, log: seq<Receipt>, generation: nat)
    requires Known(requests, log, generation)
    ensures Known(requests, log, generation + 1) && OneOpen(requests, generation + 1, false, false)
    ensures Asks(requests, generation + 1, "")
  {
    OpenNewGeneration(requests, generation + 1);
  }

  lemma AsksFirst(requests: seq<Request>, g: nat)
    requires forall q <- requests :: q.generation < g
    ensures Asks(requests + [Request(g, "", g, false)], g, "")
  {
    forall k: nat | k < |requests| ensures requests[k].generation < g {
      assert requests[k] in requests;
    }
  }

  lemma LoadMoreInv(s: State)
    requires Inv(s)
    ensures Inv(LoadMore(s))
  {
    if s.scroll != "" && !s.loading && !s.loadingMore {
      AskNext(s.requests, s.generation, s.scroll, s.generation);
    }
  }

  lemma ClearInv(s: State)
    requires Inv(s)
    ensures Inv(Clear(s))
  {
    ClearedInv(s, NO_QUERY);
  }

  lemma ResumeInv(s: State, k: nat, reply: Reply)
    requires Inv(s) && Possible(s, Replies(k, reply))
    ensures Inv(Resume(s, k, reply))
  {
    assert s.requests[k] in s.requests;
    OpenSettle(s.requests, k, s.generation, s.loading, s.loadingMore);
    ResumeKnown(s, k, reply);
    if s.requests[k].generation == s.generation {
      ResumeCurrent(s, k, reply);
    } else {
      ResumeStale(s, k, reply);
    }
  }

  lemma ResumeKnown(s: State, k: nat, reply: Reply)
    requires Known(s.requests, s.history.log, s.generation) && k < |s.requests|
    ensures var r := Resume(s, k, reply);
            && r.generation == s.generation && Known(r.requests, r.history.log, r.generation)
            && r.requests == s.requests[k := s.requests[k].(settled := true)]
  {
    assert s.requests[k] in s.requests;
  }

  lemma ResumeStale(s: State, k: nat, reply: Reply)
    requires Faithful(s) && k < |s.requests| && s.requests[k].generation != s.generation
    ensures Faithful(Resume(s, k, reply))
  {
    AsksSettle(s.requests, k, s.generation, s.scroll);
    if reply.Answer? {
      SameRows(s.panel.results, s.loading, s.scroll, s.generation, s.history, ReceiptOf(s, k, reply.page));
    }
  }

  /** A reply of another generation is only logged. */
  lemma SameRows(results: seq<Doc>, loading: bool, scroll: string, generation: nat, h: History, r: Receipt)
    requires Rowed(results, loading, scroll, generation, h) && r.generation != generation
    ensures Rowed(results, loading, scroll, generation, h.(log := h.log + [r]))
  {
    OfPush(h.log, r, generation);
  }

  lemma ResumeCurrent(s: State, k: nat, reply: Reply)
    requires Inv(s) && Possible(s, Replies(k, reply)) && s.requests[k].generation == s.generation
    ensures Faithful(Resume(s, k, reply))
  {
    assert Open(s.requests[k], s.generation);
    NoneOpen(s, k, reply);
    if s.requests[k].asked == "" {
      CurrentSearch(s, k, reply);
    } else {
      CurrentMore(s, k, reply);
    }
  }

  lemma NoneOpen(s: State, k: nat, reply: Reply)
    requires OneOpen(s.requests, s.generation, s.loading, s.loadingMore)
    requires k < |s.requests| && Open(s.requests[k], s.generation)
    ensures forall scroll :: Asks(Settled(s, k, reply).requests, s.generation, scroll)
  {
    forall j: nat | j < |s.requests| ensures !Open(Settled(s, k, reply).requests[j], s.generation) {
      assert Open(s.requests[j], s.generation) ==> j == k;
    }
  }

  lemma CurrentSearch(s: State, k: nat, reply: Reply)
    requires Faithful(s) && s.loading && k < |s.requests|
    requires s.requests[k].generation == s.generation && s.requests[k].asked == ""
    requires forall scroll :: Asks(Settled(s, k, reply).requests, s.generation, scroll)
    ensures Faithful(ResumeSearch(s, k, reply))
  {
    if reply.Answer? {
      var r := ReceiptOf(s, k, reply.page);
      OfPush(s.history.log, r, s.generation);
      ShowsFirst(r, true);
      assert [] + [r] == [r];
    }
  }

  lemma CurrentMore(s: State, k: nat, reply: Reply)
    requires Faithful(s) && !s.loading && k < |s.requests|
    requires s.requests[k].generation == s.generation && s.requests[k].asked == s.scroll
    requires forall scroll :: Asks(Settled(s, k, reply).requests, s.generation, scroll)
    ensures Faithful(ResumeMore(s, k, reply))
  {
    if reply.Answer? {
      var r := ReceiptOf(s, k, reply.page);
      OfPush(s.history.log, r, s.generation);
      ShowsPush(s.panel.results, s.scroll, s.history.applied, r, true);
    }
  }

  function Run(events: seq<Event>): Option<State> {
    if events == [] then Some(START)
    else match Run(events[..|events| - 1])
      case None => None
      case Some(s) => if Possible(s, events[|events| - 1]) then Some(Next(s, events[|events| - 1])) else None
  }

  lemma {:induction false} RunInv(events: seq<Event>)
    requires Run(events).Some?
    ensures Inv(Run(events).value)
  {
    if events != [] {
      RunInv(events[..|events| - 1]);
      var s := Run(events[..|events| - 1]).value;
      match events[|events| - 1]
      case Searches(call) => SearchInv(s, call);
      case TimerFires => SearchInv(s, s.debounce.value);
      case ClearsFilters => SearchInv(s, Call(s.panel.query.term, Some(NO_FILTERS)));
      case Debounces(_) =>
      case LoadsMore => LoadMoreInv(s);
      case Clears => ClearInv(s);
      case Replies(k, reply) => ResumeInv(s, k, reply);
    }
  }

  /** The rows never mix two searches: they are consecutive pages of one search, and of the latest one,
      all that was received, as soon as it is no longer loading. */
  lemma RowsOfOneSearch(events: seq<Event>)
    requires Run(events).Some?
    ensures var s := Run(events).value; var h := s.history;
            && s.panel.results == AllRows(h.applied) && Chain(h.applied, true)
            && (forall r <- h.applied :: r.generation == h.shown)
            && (!s.loading ==> h.shown == s.generation && h.applied == Of(h.log, s.generation))
            && (s.loadingMore ==> h.shown == s.generation)
  {
    RunInv(events);
  }

  // ---------------------------------------------------------------- what is shown beside the rows

  /** The requests whose reply was a failure. */
  function Faults(events: seq<Event>): set<nat> {
    if events == [] then {}
    else
      var e := events[|events| - 1];
      Faults(events[..|events| - 1]) + if e.Replies? && e.reply.Fault? then {e.request} else {}
  }

  /** The call the debounce timer is set for: the last one debounced, unless a search or a reset came after. */
  function Debounced(events: seq<Event>): Option<Call> {
    if events == [] then None
    else
      match events[|events| - 1]
      case Debounces(call) => Some(call)
      case LoadsMore => Debounced(events[..|events| - 1])
      case Replies(_, _) => Debounced(events[..|events| - 1])
      case _ => None
  }

  /** The term and the filters of the last search or reset. */
  function LastQuery(events: seq<Event>): L.Search {
    if events == [] then NO_QUERY
    else
      var front := events[..|events| - 1];
      match events[|events| - 1]
      case Searches(call) => Asked(call, LastQuery(front).filters)
      case TimerFires => if Debounced(front).Some? then Asked(Debounced(front).value, LastQuery(front).filters) else NO_QUERY
      case ClearsFilters => L.Search(LastQuery(front).term, NO_FILTERS)
      case Clears => NO_QUERY
      case _ => LastQuery(front)
  }

  ghost predicate Display(s: State, failed: set<nat>) {
    && FailedSettled(s.requests, failed) && OpenIsLast(s.requests, s.generation)
    && (s.panel.error <==> AnyFailed(s.requests, s.generation, failed))
    && s.panel.total == FirstTotal(s.history.applied)
    && (s.panel.hasSearched <==> !Blank(s.panel.query))
  }

  lemma DisplaySearch(s: State, call: Call, failed: set<nat>)
    requires Inv(s) && Display(s, failed)
    ensures Display(Search(s, call), failed)
  {
    var q := Asked(call, s.panel.query.filters);
    if Blank(q) {
      DisplayCleared(s, q, failed);
    } else {
      DisplaySent(s, q, failed);
    }
  }

  lemma DisplayCleared(s: State, q: L.Search, failed: set<nat>)
    requires Inv(s) && Display(s, failed) && Blank(q)
    ensures Display(RowsCleared(Begun(s, q)), failed)
  {
    FailedNew(s.requests, failed, s.generation + 1);
  }

  lemma DisplaySent(s: State, q: L.Search, failed: set<nat>)
    requires Inv(s) && Display(s, failed) && !Blank(q)
    ensures Display(Sent(Begun(s, q)), failed)
  {
    var g := s.generation + 1;
    FailedNew(s.requests, failed, g);
    OpenNewGeneration(s.requests, g);
    FailedSend(s.requests, failed, Request(g, "", g, false), g);
  }

  lemma DisplayMore(s: State, failed: set<nat>)
    requires Inv(s) && Display(s, failed)
    ensures Display(LoadMore(s), failed)
  {
    if s.scroll != "" && !s.loading && !s.loadingMore {
      FailedSend(s.requests, failed, Request(s.generation, s.scroll, s.generation, false), s.generation);
    }
  }

  lemma DisplayReply(s: State, k: nat, reply: Reply, failed: set<nat>)
    requires Inv(s) && Display(s, failed) && Possible(s, Replies(k, reply))
    ensures Display(Resume(s, k, reply), if reply.Fault? then failed + {k} else failed)
  {
    var r := s.requests[k];
    FailedSettle(s.requests, failed, k, reply.Fault?, s.generation);
    if r.generation == s.generation {
      assert Open(r, s.generation);
      if r.asked != "" {
        MoreHasRows(s, k);
      }
    }
  }

  /** A further page is only on its way where there are rows it follows. */
  lemma MoreHasRows(s: State, k: nat)
    requires Inv(s) && k < |s.requests| && Open(s.requests[k], s.generation) && s.requests[k].asked != ""
    ensures s.history.applied != []
  {}

  lemma {:induction false} RunDisplay(events: seq<Event>)
    requires Run(events).Some?
    ensures Display(Run(events).value, Faults(events))
    ensures Run(events).value.debounce == Debounced(events) && Run(events).value.panel.query == LastQuery(events)
  {
    if events != [] {
      var front, e := events[..|events| - 1], events[|events| - 1];
      RunDisplay(front);
      RunInv(front);
      DisplayNext(Run(front).value, e, Faults(front));
      QueryNext(Run(front).value, e);
    }
  }

  lemma DisplayNext(s: State, e: Event, failed: set<nat>)
    requires Inv(s) && Display(s, failed) && Possible(s, e)
    ensures Display(Next(s, e), failed + if e.Replies? && e.reply.Fault? then {e.request} else {})
  {
    assert failed + {} == failed;
    match e
    case Searches(call) => DisplaySearch(s, call, failed);
    case TimerFires => DisplaySearch(s, s.debounce.value, failed);
    case ClearsFilters => DisplaySearch(s, Call(s.panel.query.term, Some(NO_FILTERS)), failed);
    case Clears => DisplayCleared(s, NO_QUERY, failed);
    case Debounces(_) =>
    case LoadsMore => DisplayMore(s, failed);
    case Replies(k, reply) => DisplayReply(s, k, reply, failed);
  }

  lemma QueryNext(s: State, e: Event)
    requires Possible(s, e)
    ensures Next(s, e).panel.query ==
            match e
            case Searches(call) => Asked(call, s.panel.query.filters)
            case TimerFires => Asked(s.debounce.value, s.panel.query.filters)
            case ClearsFilters => L.Search(s.panel.query.term, NO_FILTERS)
            case Clears => NO_QUERY
            case _ => s.panel.query
    ensures Next(s, e).debounce ==
            match e
            case Debounces(call) => Some(call)
            case LoadsMore => s.debounce
            case Replies(_, _) => s.debounce
            case _ => None
  {}

  lemma {:induction false} FaultsAre(events: seq<Event>, k: nat)
    ensures k in Faults(events) <==> Replies(k, Fault) in events
  {
    if events != [] {
      var front, e := events[..|events| - 1], events[|events| - 1];
      FaultsAre(front, k);
      assert events == front + [e];
    }
  }

  ghost predicate SomeFailed(s: State, events: seq<Event>) {
    exists k: nat :: k < |s.requests| && s.requests[k].generation == s.generation && Replies(k, Fault) in events
  }

  /** The error is shown exactly if a request of the latest search has failed; the total is that of the rows'
      first page; something counts as searched for exactly if the last query is not blank; and the debounce
      timer is set exactly for a call debounced after the last search or reset. */
  lemma ShownExactly(events: seq<Event>)
    requires Run(events).Some?
    ensures var s := Run(events).value;
            && (s.panel.error <==> SomeFailed(s, events))
            && s.panel.total == FirstTotal(s.history.applied)
            && s.panel.query == LastQuery(events) && (s.panel.hasSearched <==> !Blank(LastQuery(events)))
            && s.debounce == Debounced(events)
  {
    RunDisplay(events);
    var s := Run(events).value;
    forall k: nat ensures k in Faults(events) <==> Replies(k, Fault) in events {
      FaultsAre(events, k);
    }
    if SomeFailed(s, events) {
      var k: nat :| k < |s.requests| && s.requests[k].generation == s.generation && Replies(k, Fault) in events;
      assert k in Faults(events);
    }
  }

  lemma Extend(events: seq<Event>, e: Event)
    requires Run(events).Some? && Possible(Run(events).value, e)
    ensures Run(events + [e]) == Some(Next(Run(events).value, e))
  {
    assert (events + [e])[..|events|] == events;
  }

  /** From any state a search that is not blank can be answered, and its page is then what is shown. */
  lemma SearchArrives(events: seq<Event>, call: Call, page: Page)
    requires Run(events).Some? && !Blank(Asked(call, LastQuery(events).filters))
    ensures var sent := events + [Searches(call)];
            var t := Run(sent + [Replies(|Run(events).value.requests|, Answer(page))]);
            && Run(sent).Some? && Run(sent).value.loading && Run(sent).value.panel.results == Run(events).value.panel.results
            && t.Some? && t.value.panel == Panel(Rows(page), Total(page), false, true, Asked(call, LastQuery(events).filters))
            && !t.value.loading && !t.value.loadingMore && (page.hits.Some? ==> t.value.scroll == page.scroll)
  {
    RunDisplay(events);
    Extend(events, Searches(call));
    Extend(events + [Searches(call)], Replies(|Run(events).value.requests|, Answer(page)));
  }

  /** A blank search asks for nothing and leaves nothing to be seen, and so does a reset. */
  lemma BlankClears(events: seq<Event>, call: Call)
    requires Run(events).Some?
    ensures Blank(Asked(call, LastQuery(events).filters)) ==>
              Run(events + [Searches(call)]).Some? && Emptied(Run(events).value, Run(events + [Searches(call)]).value)
    ensures Run(events + [Clears]).Some? && Emptied(Run(events).value, Run(events + [Clears]).value)
  {
    RunDisplay(events);
    Extend(events, Searches(call));
    Extend(events, Clears);
  }

  predicate Emptied(s: State, t: State) {
    && t.requests == s.requests && t.generation == s.generation + 1 && !t.loading && !t.loadingMore && t.scroll == ""
    && t.panel.results == [] && t.panel.total == 0 && !t.panel.error && !t.panel.hasSearched
  }

  /** A debounced call is searched for when its timer fires, exactly as if it were made then. */
  lemma DebouncedIsSearched(events: seq<Event>, call: Call)
    requires Run(events).Some?
    ensures Run(events + [Debounces(call)] + [TimerFires]).Some?
    ensures Run(events + [Debounces(call)] + [TimerFires]) == Run(events + [Searches(call)])
  {
    Extend(events, Debounces(call));
    Extend(events + [Debounces(call)], TimerFires);
    Extend(events, Searches(call));
  }

  /** Where there is a next page and nothing is loading, it can be asked for, and it then follows the rows. */
  lemma MoreArrives(events: seq<Event>, page: Page)
    requires Run(events).Some?
    requires Run(events).value.scroll != "" && !Run(events).value.loading && !Run(events).value.loadingMore
    ensures var sent := events + [LoadsMore];
            var s, t := Run(events).value, Run(sent + [Replies(|Run(events).value.requests|, Answer(page))]);
            && Run(sent).Some? && Run(sent).value.loadingMore
            && t.Some? && t.value.panel == s.panel.(results := s.panel.results + Rows(page))
            && !t.value.loadingMore && t.value.scroll == if page.hits.Some? then page.scroll else s.scroll
  {
    Extend(events, LoadsMore);
    Extend(events + [LoadsMore], Replies(|Run(events).value.requests|, Answer(page)));
  }
}
