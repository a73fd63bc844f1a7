/** useArchiveSearch.ts: one step per call and per reply. */
module ArchiveSearch {
  import opened Common
  import opened Feed

  datatype State = State(results: seq<Doc>, total: nat, loading: bool, loadingMore: bool, error: bool, scroll: string,
                         generation: nat, requests: seq<Request>, log: seq<Receipt>)

  const START := State([], 0, false, false, false, "", 0, [], [])

  /** `active` is whether the term and the filters ask for anything at all (hasArchiveSearch). */
  function Search(s: State, active: bool): State {
    var g := s.generation + 1;
    State([], 0, active, false, false, "", g, if active then s.requests + [Request(g, "", g, false)] else s.requests, s.log)
  }

  function LoadMore(s: State): State {
    if s.scroll == "" || s.loading || s.loadingMore then s
    else s.(loadingMore := true, error := false,
            requests := s.requests + [Request(s.generation, s.scroll, s.generation, false)])
  }

  /** The continuation of request k, of `search` when it asked for no scroll ID, else of `loadMore`. */
  function Resume(s: State, k: nat, reply: Reply): State
    requires k < |s.requests|
  {
    var r := s.requests[k];
    var t := s.(requests := s.requests[k := r.(settled := true)],
                log := if reply.Answer? then s.log + [Receipt(r.generation, r.asked, reply.page)] else s.log);
    if r.generation != s.generation then t
    else if r.asked == "" then
      (match reply
       case Answer(page) => t.(results := Rows(page), total := Total(page), scroll := page.scroll, loading := false)
       case Fault => t.(error := true, loading := false))
    else
      (match reply
       case Answer(page) => t.(results := s.results + Rows(page), scroll := page.scroll, loadingMore := false)
       case Fault => t.(error := true, loadingMore := false))
  }

  class ArchiveSearch {
    var results: seq<Doc>
    var total: nat
    var loading: bool
    var loadingMore: bool
    var error: bool
    var scroll: string
    var generation: nat
    var requests: seq<Request>
    ghost var log: seq<Receipt>

    ghost function View(): State
      reads this
    {
      State(results, total, loading, loadingMore, error, scroll, generation, requests, log)
    }

    method BeginSearch(active: bool)
      modifies this
      ensures View() == Search(old(View()), active)
    {
      generation := generation + 1;
      results, total, scroll, error := [], 0, "", false;
      loadingMore := false;
      loading := active;
      if !loading {
        return;
      }
      requests := requests + [Request(generation, "", generation, false)];
    }

    method BeginLoadMore()
      modifies this
      ensures View() == LoadMore(old(View()))
    {
      if scroll == "" || loading || loadingMore {
        return;
      }
      loadingMore := true;
      error := false;
      requests := requests + [Request(generation, scroll, generation, false)];
    }

    method OnReply(k: nat, reply: Reply)
      requires k < |requests|
      modifies this
      ensures View() == Resume(old(View()), k, reply)
    {
      var current := requests[k].generation;
      var more := requests[k].asked != "";
      requests := requests[k := requests[k].(settled := true)];
      if reply.Answer? {
        log := log + [Receipt(current, requests[k].asked, reply.page)];
        if current != generation {
          return;
        }
        if more {
          results := results + Rows(reply.page);
        } else {
          results := Rows(reply.page);
          total := Total(reply.page);
        }
        scroll := reply.page.scroll;
      } else if current == generation {
        error := true;
      }
      if current == generation {
        if more { loadingMore := false; } else { loading := false; }
      }
    }
  }

  datatype Event = Searches(active: bool) | LoadsMore | Replies(request: nat, reply: Reply)

  predicate Possible(s: State, e: Event) {
    e.Replies? ==> e.request < |s.requests| && !s.requests[e.request].settled
  }

  function Next(s: State, e: Event): State
    requires Possible(s, e)
  {
    match e
    case Searches(active) => Search(s, active)
    case LoadsMore => LoadMore(s)
    case Replies(k, reply) => Resume(s, k, reply)
  }

  /** The rows are those of every page received for the current generation, which form one chain from
      a new search to the scroll ID that the next request will use. */
  ghost predicate Faithful(s: State) {
    && Shows(s.results, s.scroll, Of(s.log, s.generation), false)
    && (s.loading ==> Of(s.log, s.generation) == [])
    && Asks(s.requests, s.generation, s.scroll)
  }

  ghost predicate Inv(s: State) {
    && Known(s.requests, s.log, s.generation)
    && OneOpen(s.requests, s.generation, s.loading, s.loadingMore)
    && Faithful(s)
  }

  lemma SearchInv(s: State, active: bool)
    requires Inv(s)
    ensures Inv(Search(s, active))
  {
    var r := Search(s, active);
    OfFresh(s.log, r.generation);
    OpenNewGeneration(s.requests, r.generation);
    if active {
      OpenSend(s.requests, Request(r.generation, "", r.generation, false), r.generation);
    }
  }

  lemma LoadMoreInv(s: State)
    requires Inv(s)
    ensures Inv(LoadMore(s))
  {
    if s.scroll != "" && !s.loading && !s.loadingMore {
      AskNext(s.requests, s.generation, s.scroll, s.generation);
    }
  }

  lemma ResumeInv(s: State, k: nat, reply: Reply)
    requires Inv(s) && Possible(s, Replies(k, reply))
    ensures Inv(Resume(s, k, reply))
  {
    assert s.requests[k] in s.requests;
    OpenSettle(s.requests, k, s.generation, s.loading, s.loadingMore);
    ResumeKnown(s, k, reply);
    if s.requests[k].generation == s.generation {
      ResumeCurrent(s, k, reply);
    } else {
      ResumeStale(s, k, reply);
    }
  }

  lemma ResumeKnown(s: State, k: nat, reply: Reply)
    requires Known(s.requests, s.log, s.generation) && k < |s.requests|
    ensures var r := Resume(s, k, reply);
            && r.generation == s.generation && Known(r.requests, r.log, r.generation)
            && r.requests == s.requests[k := s.requests[k].(settled := true)]
  {
    assert s.requests[k] in s.requests;
  }

  lemma ResumeStale(s: State, k: nat, reply: Reply)
    requires Faithful(s) && Possible(s, Replies(k, reply)) && s.requests[k].generation != s.generation
    ensures Faithful(Resume(s, k, reply))
  {
    AsksSettle(s.requests, k, s.generation, s.scroll);
    if reply.Answer? {
      OfPush(s.log, Receipt(s.requests[k].generation, s.requests[k].asked, reply.page), s.generation);
    }
  }

  lemma ResumeCurrent(s: State, k: nat, reply: Reply)
    requires Inv(s) && Possible(s, Replies(k, reply)) && s.requests[k].generation == s.generation
    ensures Faithful(Resume(s, k, reply))
  {
    var q := s.requests[k];
    assert Open(q, s.generation);
    forall j: nat | j < |s.requests| ensures !Open(Resume(s, k, reply).requests[j], s.generation) {
      assert Open(s.requests[j], s.generation) ==> j == k;
    }
    if reply.Answer? {
      var r := Receipt(q.generation, q.asked, reply.page);
      OfPush(s.log, r, s.generation);
      ShowsPush(s.results, s.scroll, Of(s.log, s.generation), r, false);
      if q.asked == "" {
        ShowsFirst(r, false);
        assert [] + [r] == [r];
      }
    }
  }

  function Run(events: seq<Event>): Option<State> {
    if events == [] then Some(START)
    else match Run(events[..|events| - 1])
      case None => None
      case Some(s) => if Possible(s, events[|events| - 1]) then Some(Next(s, events[|events| - 1])) else None
  }

  lemma {:induction false} RunInv(events: seq<Event>)
    requires Run(events).Some?
    ensures Inv(Run(events).value)
  {
    if events != [] {
      RunInv(events[..|events| - 1]);
      var s := Run(events[..|events| - 1]).value;
      match events[|events| - 1]
      case Searches(active) => SearchInv(s, active);
      case LoadsMore => LoadMoreInv(s);
      case Replies(k, reply) => ResumeInv(s, k, reply);
    }
  }

  /** For replies in any order: the rows shown are exactly the pages received for the latest search,
      read along one chain of scroll IDs, and at most one request of that search is unanswered. */
  lemma ResultsOfLatestSearch(events: seq<Event>)
    requires Run(events).Some?
    ensures var s := Run(events).value;
            && s.results == AllRows(Of(s.log, s.generation)) && Chain(Of(s.log, s.generation), false)
            && (forall k: nat, l: nat | k < |s.requests| && l < |s.requests| && Open(s.requests[k], s.generation)
                                        && Open(s.requests[l], s.generation) :: k == l)
            && (s.loading || s.loadingMore <==> exists k: nat :: k < |s.requests| && Open(s.requests[k], s.generation))
  {
    RunInv(events);
  }

  // ---------------------------------------------------------------- what is shown beside the rows

  /** The requests whose reply was a failure. */
  function Faults(events: seq<Event>): set<nat> {
    if events == [] then {}
    else
      var e := events[|events| - 1];
      Faults(events[..|events| - 1]) + if e.Replies? && e.reply.Fault? then {e.request} else {}
  }

  ghost predicate Marked(error: bool, requests: seq<Request>, generation: nat, failed: set<nat>) {
    && FailedSettled(requests, failed) && OpenIsLast(requests, generation)
    && (error <==> LastFailed(requests, generation, failed))
  }

  ghost predicate Display(s: State, failed: set<nat>) {
    Marked(s.error, s.requests, s.generation, failed) && s.total == FirstTotal(Of(s.log, s.generation))
  }

  lemma DisplaySearch(s: State, active: bool, failed: set<nat>)
    requires Known(s.requests, s.log, s.generation) && FailedSettled(s.requests, failed)
    ensures Display(Search(s, active), failed)
  {
    var t := Search(s, active);
    NothingYet(s.log, t.generation);
    MarkedSearch(s.requests, s.generation, active, failed);
    assert Marked(t.error, t.requests, t.generation, failed);
  }

  lemma NothingYet(log: seq<Receipt>, generation: nat)
    requires forall r <- log :: r.generation < generation
    ensures FirstTotal(Of(log, generation)) == 0
  {
    OfFresh(log, generation);
  }

  lemma MarkedSearch(requests: seq<Request>, generation: nat, active: bool, failed: set<nat>)
    requires Known(requests, [], generation) && FailedSettled(requests, failed)
    ensures var g := generation + 1;
            Marked(false, if active then requests + [Request(g, "", g, false)] else requests, g, failed)
  {
    FailedNew(requests, failed, generation + 1);
    if active {
      OpenNewGeneration(requests, generation + 1);
      FailedSend(requests, failed, Request(generation + 1, "", generation + 1, false), generation + 1);
    }
  }

  lemma DisplayMore(s: State, failed: set<nat>)
    requires Inv(s) && Display(s, failed)
    ensures Display(LoadMore(s), failed)
  {
    if s.scroll != "" && !s.loading && !s.loadingMore {
      FailedSend(s.requests, failed, Request(s.generation, s.scroll, s.generation, false), s.generation);
    }
  }

  lemma DisplayReply(s: State, k: nat, reply: Reply, failed: set<nat>)
    requires Inv(s) && Display(s, failed) && Possible(s, Replies(k, reply))
    ensures Display(Resume(s, k, reply), if reply.Fault? then failed + {k} else failed)
  {
    FailedSettle(s.requests, failed, k, reply.Fault?, s.generation);
    TotalReply(s, k, reply);
  }

  /** Only a first page brings a total. */
  lemma TotalReply(s: State, k: nat, reply: Reply)
    requires Faithful(s) && OneOpen(s.requests, s.generation, s.loading, s.loadingMore) && Possible(s, Replies(k, reply))
    requires s.total == FirstTotal(Of(s.log, s.generation))
    ensures Resume(s, k, reply).total == FirstTotal(Of(Resume(s, k, reply).log, s.generation))
  {
    var r := s.requests[k];
    if reply.Answer? {
      OfPush(s.log, Receipt(r.generation, r.asked, reply.page), s.generation);
    }
    if r.generation == s.generation {
      assert Open(r, s.generation);
      if r.asked != "" {
        assert s.scroll != "" && Of(s.log, s.generation) != [];
      }
    }
  }

  lemma {:induction false} RunDisplay(events: seq<Event>)
    requires Run(events).Some?
    ensures Display(Run(events).value, Faults(events))
  {
    if events != [] {
      var front := events[..|events| - 1];
      RunDisplay(front);
      RunInv(front);
      DisplayNext(Run(front).value, events[|events| - 1], Faults(front));
    }
  }

  lemma DisplayNext(s: State, e: Event, failed: set<nat>)
    requires Inv(s) && Display(s, failed) && Possible(s, e)
    ensures Display(Next(s, e), failed + if e.Replies? && e.reply.Fault? then {e.request} else {})
  {
    assert failed + {} == failed;
    if e.Searches? {
      DisplaySearch(s, e.active, failed);
    } else if e.LoadsMore? {
      DisplayMore(s, failed);
    } else {
      DisplayReply(s, e.request, e.reply, failed);
    }
  }

  lemma {:induction false} FaultsAre(events: seq<Event>, k: nat)
    ensures k in Faults(events) <==> Replies(k, Fault) in events
  {
    if events != [] {
      var front, e := events[..|events| - 1], events[|events| - 1];
      FaultsAre(front, k);
      assert events == front + [e];
    }
  }

  /** An error is shown exactly if the request sent last belongs to the latest search and has failed, and the
      total is that of the first page received for that search, or zero. */
  lemma ShownExactly(events: seq<Event>)
    requires Run(events).Some?
    ensures var s := Run(events).value; var last := |s.requests| - 1;
            && (s.error <==> last >= 0 && s.requests[last].generation == s.generation && Replies(last, Fault) in events)
            && s.total == FirstTotal(Of(s.log, s.generation))
  {
    RunDisplay(events);
    var s := Run(events).value;
    if s.requests != [] {
      FaultsAre(events, |s.requests| - 1);
    }
  }

  lemma Extend(events: seq<Event>, e: Event)
    requires Run(events).Some? && Possible(Run(events).value, e)
    ensures Run(events + [e]) == Some(Next(Run(events).value, e))
  {
    assert (events + [e])[..|events|] == events;
  }

  /** From any state a search that asks for something can be answered, and its page is then what is shown. */
  lemma SearchArrives(events: seq<Event>, page: Page)
    requires Run(events).Some?
    ensures var s, t := Run(events).value, Run(events + [Searches(true)] + [Replies(|Run(events).value.requests|, Answer(page))]);
            && t.Some? && t.value.results == Rows(page) && t.value.total == Total(page) && t.value.scroll == page.scroll
            && !t.value.loading && !t.value.loadingMore && !t.value.error
            && Run(events + [Searches(true)]).value.loading && Run(events + [Searches(true)]).value.results == []
  {
    Extend(events, Searches(true));
    Extend(events + [Searches(true)], Replies(|Run(events).value.requests|, Answer(page)));
  }

  /** Where there is a next page and nothing is loading, it can be asked for, and it then follows the rows. */
  lemma MoreArrives(events: seq<Event>, page: Page)
    requires Run(events).Some?
    requires Run(events).value.scroll != "" && !Run(events).value.loading && !Run(events).value.loadingMore
    ensures var s, t := Run(events).value, Run(events + [LoadsMore] + [Replies(|Run(events).value.requests|, Answer(page))]);
            && t.Some? && t.value.results == s.results + Rows(page) && t.value.scroll == page.scroll && t.value.total == s.total
            && !t.value.loadingMore && !t.value.error && Run(events + [LoadsMore]).value.loadingMore
  {
    Extend(events, LoadsMore);
    Extend(events + [LoadsMore], Replies(|Run(events).value.requests|, Answer(page)));
  }
}
