/** useDocuments.ts: a listing that is reloaded in place. A failed reload leaves the old rows and the
    old scroll ID, and later pages of the old listing may still be appended to them. */
module DocumentList {
  import opened Common
  import opened Feed

  /** All answers that were not out of date on arrival, those the rows were made of, and the listing (the
      generation of its first request) the rows belong to. Receipts carry their listing as generation. */
  datatype History = History(log: seq<Receipt>, applied: seq<Receipt>, shown: nat)

  datatype State = State(documents: seq<Doc>, total: nat, loading: bool, loadingMore: bool, error: bool, scroll: string,
                         generation: nat, requests: seq<Request>, history: History)

  const START := State([], 0, false, false, false, "", 0, [], History([], [], 0))

  function Load(s: State): State {
    var g := s.generation + 1;
    s.(generation := g, loadingMore := false, loading := true, error := false,
       requests := s.requests + [Request(g, "", g, false)])
  }

  function LoadMore(s: State): State {
    if s.loading || s.loadingMore || s.scroll == "" then s
    else s.(loadingMore := true, requests := s.requests + [Request(s.generation, s.scroll, s.history.shown, false)])
  }

  function Emptied(s: State): State {
    s.(scroll := "", documents := [], total := 0, history := s.history.(applied := [], shown := s.generation + 1))
  }

  function Refresh(s: State): State { Load(Emptied(s)) }

  function ReceiptOf(s: State, k: nat, page: Page): Receipt
    requires k < |s.requests|
  {
    Receipt(s.requests[k].listing, s.requests[k].asked, page)
  }

  /** The request is settled, and an answer that is not out of date is logged. */
  function Settled(s: State, k: nat, reply: Reply): State
    requires k < |s.requests|
  {
    var current := s.requests[k].generation == s.generation;
    s.(requests := s.requests[k := s.requests[k].(settled := true)],
       history := if current && reply.Answer?
                  then s.history.(log := s.history.log + [ReceiptOf(s, k, reply.page)]) else s.history)
  }

  function ResumeLoad(s: State, k: nat, reply: Reply): State
    requires k < |s.requests|
  {
    var t := Settled(s, k, reply);
    if s.requests[k].generation != s.generation then t
    else match reply
      case Answer(page) =>
        t.(documents := Rows(page), total := Total(page),
           scroll := if page.hits.Some? then page.scroll else "", loading := false,
           history := t.history.(applied := [ReceiptOf(s, k, page)], shown := s.requests[k].listing))
      case Fault => t.(error := true, loading := false)
  }

  function ResumeMore(s: State, k: nat, reply: Reply): State
    requires k < |s.requests|
  {
    var t := Settled(s, k, reply);
    if s.requests[k].generation != s.generation then t
    else match reply
      case Answer(page) =>
        t.(documents := s.documents + Rows(page), scroll := if page.hits.Some? then page.scroll else s.scroll,
           loadingMore := false, history := t.history.(applied := s.history.applied + [ReceiptOf(s, k, page)]))
      case Fault => t.(error := true, loadingMore := false)
  }

  function Resume(s: State, k: nat, reply: Reply): State
    requires k < |s.requests|
  {
    if s.requests[k].asked == "" then ResumeLoad(s, k, reply) else ResumeMore(s, k, reply)
  }

  class DocumentList {
    var documents: seq<Doc>
    var total: nat
    var loading: bool
    var loadingMore: bool
    var error: bool
    var scroll: string
    var generation: nat
    var requests: seq<Request>
    var history: History

    ghost function View(): State
      reads this
    {
      State(documents, total, loading, loadingMore, error, scroll, generation, requests, history)
    }

    method BeginLoad()
      modifies this
      ensures View() == Load(old(View()))
    {
      generation := generation + 1;
      loadingMore := false;
      loading := true;
      error := false;
      requests := requests + [Request(generation, "", generation, false)];
    }

    method BeginLoadMore()
      modifies this
      ensures View() == LoadMore(old(View()))
    {
      if loading || loadingMore || scroll == "" {
        return;
      }
      loadingMore := true;
      requests := requests + [Request(generation, scroll, history.shown, false)];
    }

    method RefreshAll()
      modifies this
      ensures View() == Refresh(old(View()))
    {
      scroll := "";
      documents := [];
      total := 0;
      history := history.(applied := [], shown := generation + 1);
      BeginLoad();
    }

    method Settle(k: nat, reply: Reply) returns (current: bool)
      requires k < |requests|
      modifies this`requests, this`history
      ensures View() == Settled(old(View()), k, reply)
      ensures current == (old(requests)[k].generation == generation)
    {
      var r := requests[k];
      requests := requests[k := r.(settled := true)];
      if r.generation == generation && reply.Answer? {
        history := history.(log := history.log + [Receipt(r.listing, r.asked, reply.page)]);
      }
      return r.generation == generation;
    }

    method OnLoadReply(k: nat, reply: Reply)
      requires k < |requests|
      modifies this
      ensures View() == ResumeLoad(old(View()), k, reply)
    {
      var r := requests[k];
      var current := Settle(k, reply);
      if !current {
        return;
      }
      if reply.Answer? {
        documents, total, scroll := [], 0, "";
        if reply.page.hits.Some? {
          documents, total, scroll := reply.page.hits.value, reply.page.total, reply.page.scroll;
        }
        history := history.(applied := [Receipt(r.listing, r.asked, reply.page)], shown := r.listing);
      } else {
        error := true;
      }
      loading := false;
    }

    method OnMoreReply(k: nat, reply: Reply)
      requires k < |requests|
      modifies this
      ensures View() == ResumeMore(old(View()), k, reply)
    {
      var r := requests[k];
      var current := Settle(k, reply);
      if !current {
        return;
      }
      if reply.Answer? {
        if reply.page.hits.Some? {
          documents := documents + reply.page.hits.value;
          scroll := reply.page.scroll;
        }
        assert documents == old(documents) + Rows(reply.page);
        history := history.(applied := history.applied + [Receipt(r.listing, r.asked, reply.page)]);
      } else {
        error := true;
      }
      loadingMore := false;
    }
  }

  datatype Event = Loads | LoadsMore | Refreshes | Replies(request: nat, reply: Reply)

  predicate Possible(s: State, e: Event) {
    e.Replies? ==> e.request < |s.requests| && !s.requests[e.request].settled
  }

  function Next(s: State, e: Event): State
    requires Possible(s, e)
  {
    match e
    case Loads => Load(s)
    case LoadsMore => LoadMore(s)
    case Refreshes => Refresh(s)
    case Replies(k, reply) => Resume(s, k, reply)
  }

  /** The rows are all pages received of one listing, in their order. */
  ghost predicate Rowed(documents: seq<Doc>, loading: bool, scroll: string, generation: nat, h: History) {
    && h.shown <= generation && Shows(documents, scroll, h.applied, true) && h.applied == Of(h.log, h.shown)
    && (forall r <- h.applied :: r.generation == h.shown)
    && (loading ==> Of(h.log, generation) == [])
  }

  predicate Continues(r: Request, scroll: string, shown: nat) {
    if r.asked == "" then r.listing == r.generation else r.asked == scroll && r.listing == shown
  }

  /** What is under way continues the rows, or replaces them. */
  ghost predicate Onward(requests: seq<Request>, generation: nat, scroll: string, shown: nat) {
    forall k: nat | k < |requests| && Open(requests[k], generation) :: Continues(requests[k], scroll, shown)
  }

  ghost predicate Faithful(s: State) {
    && Rowed(s.documents, s.loading, s.scroll, s.generation, s.history)
    && Onward(s.requests, s.generation, s.scroll, s.history.shown)
  }

  ghost predicate Inv(s: State) {
    && Known(s.requests, s.history.log, s.generation)
    && OneOpen(s.requests, s.generation, s.loading, s.loadingMore)
    && Faithful(s)
  }

  /** A load keeps the rows that are there. */
  lemma LoadInv(s: State)
    requires Known(s.requests, s.history.log, s.generation)
    requires Rowed(s.documents, true, s.scroll, s.generation + 1, s.history)
    ensures Inv(Load(s))
  {
    AskFirst(s.requests, s.history.log, s.generation);
    LoadFaithful(s);
  }

  lemma LoadFaithful(s: State)
    requires forall q <- s.requests :: q.generation < s.generation + 1
    requires Rowed(s.documents, true, s.scroll, s.generation + 1, s.history)
    ensures Faithful(Load(s))
  {
    FirstContinues(s.requests, s.generation + 1, s.scroll, s.history.shown);
  }

  lemma OldRows(documents: seq<Doc>, loading: bool, scroll: string, generation: nat, h: History)
    requires Rowed(documents, loading, scroll, generation, h) && Known([], h.log, generation)
    ensures Rowed(documents, true, scroll, generation + 1, h)
  {
    OfFresh(h.log, generation + 1);
  }

  /** Dropping the rows makes the new listing the one that is shown, without a row so far. */
  lemma NoRows(log: seq<Receipt>, generation: nat)
    requires Known([], log, generation)
    ensures Rowed([], true, "", generation + 1, History(log, [], generation + 1))
  {
    OfFresh(log, generation + 1);
  }

  lemma FirstContinues(requests: seq<Request>, g: nat, scroll: string, shown: nat)
    requires forall q <- requests :: q.generation < g
    ensures Onward(requests + [Request(g, "", g, false)], g, scroll, shown)
  {
    forall k: nat | k < |requests| ensures !Open(requests[k], g) {
      assert requests[k] in requests;
    }
  }

  lemma LoadMoreInv(s: State)
    requires Inv(s)
    ensures Inv(LoadMore(s))
  {
    if !s.loading && !s.loadingMore && s.scroll != "" {
      AskNext(s.requests, s.generation, s.scroll, s.history.shown);
    }
  }

  lemma ResumeInv(s: State, k: nat, reply: Reply)
    requires Inv(s) && Possible(s, Replies(k, reply))
    ensures Inv(Resume(s, k, reply))
  {
    assert s.requests[k] in s.requests;
    OpenSettle(s.requests, k, s.generation, s.loading, s.loadingMore);
    if s.requests[k].generation == s.generation {
      assert Open(s.requests[k], s.generation);
      NoneOpen(s, k, reply);
      assert Continues(s.requests[k], s.scroll, s.history.shown);
      if s.requests[k].asked == "" {
        FirstPage(s, k, reply);
      } else {
        NextPage(s, k, reply);
      }
    } else {
      ResumeStale(s, k, reply);
    }
    ResumeKnown(s, k, reply);
  }

  lemma ResumeStale(s: State, k: nat, reply: Reply)
    requires Faithful(s) && k < |s.requests| && s.requests[k].generation != s.generation
    ensures Faithful(Resume(s, k, reply))
  {}

  lemma ResumeKnown(s: State, k: nat, reply: Reply)
    requires Known(s.requests, s.history.log, s.generation) && k < |s.requests|
    requires s.requests[k].generation == s.generation ==> s.requests[k].listing <= s.generation
    ensures var t := Resume(s, k, reply); Known(t.requests, t.history.log, t.generation)
  {
    assert s.requests[k] in s.requests;
  }

  lemma NoneOpen(s: State, k: nat, reply: Reply)
    requires OneOpen(s.requests, s.generation, s.loading, s.loadingMore)
    requires k < |s.requests| && Open(s.requests[k], s.generation)
    ensures forall j: nat | j < |s.requests| :: !Open(Settled(s, k, reply).requests[j], s.generation)
  {
    forall j: nat | j < |s.requests| ensures !Open(Settled(s, k, reply).requests[j], s.generation) {
      assert Open(s.requests[j], s.generation) ==> j == k;
    }
  }

  lemma FirstPage(s: State, k: nat, reply: Reply)
    requires Faithful(s) && s.loading && k < |s.requests| && s.requests[k].generation == s.generation
    requires s.requests[k].asked == "" && s.requests[k].listing == s.generation
    requires forall j: nat | j < |s.requests| :: !Open(Settled(s, k, reply).requests[j], s.generation)
    ensures Faithful(ResumeLoad(s, k, reply))
  {
    if reply.Answer? {
      var r := ReceiptOf(s, k, reply.page);
      OfPush(s.history.log, r, s.generation);
      ShowsFirst(r, true);
      assert [] + [r] == [r];
    }
  }

  lemma NextPage(s: State, k: nat, reply: Reply)
    requires Faithful(s) && !s.loading && k < |s.requests| && s.requests[k].generation == s.generation
    requires s.requests[k].asked == s.scroll && s.requests[k].listing == s.history.shown
    requires forall j: nat | j < |s.requests| :: !Open(Settled(s, k, reply).requests[j], s.generation)
    ensures Faithful(ResumeMore(s, k, reply))
  {
    if reply.Answer? {
      var r := ReceiptOf(s, k, reply.page);
      OfPush(s.history.log, r, s.history.shown);
      ShowsPush(s.documents, s.scroll, s.history.applied, r, true);
    }
  }

  function Run(events: seq<Event>): Option<State> {
    if events == [] then Some(START)
    else match Run(events[..|events| - 1])
      case None => None
      case Some(s) => if Possible(s, events[|events| - 1]) then Some(Next(s, events[|events| - 1])) else None
  }

  lemma NextInv(s: State, e: Event)
    requires Inv(s) && Possible(s, e)
    ensures Inv(Next(s, e))
  {
    match e
    case Loads =>
      OldRows(s.documents, s.loading, s.scroll, s.generation, s.history);
      LoadInv(s);
    case LoadsMore => LoadMoreInv(s);
    case Refreshes =>
      NoRows(s.history.log, s.generation);
      LoadInv(Emptied(s));
    case Replies(k, reply) => ResumeInv(s, k, reply);
  }

  lemma {:induction false} RunInv(events: seq<Event>)
    requires Run(events).Some?
    ensures Inv(Run(events).value)
  {
    if events != [] {
      RunInv(events[..|events| - 1]);
      NextInv(Run(events[..|events| - 1]).value, events[|events| - 1]);
    }
  }

  /** The rows never mix two listings: they are the pages of one listing, each asked for with the scroll
      ID the page before it returned, whatever reloads fail or overtake each other; and no page of it
      that arrived in time is missing. */
  lemma RowsOfOneListing(events: seq<Event>)
    requires Run(events).Some?
    ensures var s := Run(events).value; var h := s.history;
            && s.documents == AllRows(h.applied) && Chain(h.applied, true) && h.applied == Of(h.log, h.shown)
            && (forall r <- h.applied :: r.generation == h.shown)
            && (forall k: nat, l: nat | k < |s.requests| && l < |s.requests| && Open(s.requests[k], s.generation)
                                        && Open(s.requests[l], s.generation) :: k == l)
  {
    RunInv(events);
  }

  // ---------------------------------------------------------------- exactly when the rows are the latest

  predicate Starts(e: Event) { e.Loads? || e.Refreshes? }

  /** Request k is answered, in time or not. */
  ghost predicate Answered(events: seq<Event>, k: nat) {
    exists e <- events :: e.Replies? && e.request == k && e.reply.Answer?
  }

  /** Since the start of generation g with request k, from rows that were empty or not: the rows are of g
      from a refresh or from the answer on, and until then they are the old ones with further pages. */
  ghost predicate Since(s: State, g: nat, k: nat, refreshed: bool, was: History, answered: bool) {
    && s.generation == g && k < |s.requests| && s.requests[k].generation == g && s.requests[k].asked == ""
    && (forall j: nat | j < |s.requests| && s.requests[j].generation == g && s.requests[j].asked == "" :: j == k)
    && if answered then s.history.shown == g
       else if refreshed then s.history.shown == g && s.history.applied == []
       else s.history.shown == was.shown < g && (s.history.applied == [] <==> was.applied == [])
  }

  lemma SinceStart(s: State, start: Event)
    requires Inv(s) && Starts(start)
    ensures Since(Next(s, start), s.generation + 1, |s.requests|, start.Refreshes?, s.history, false)
  {
    var t := Next(s, start);
    forall j: nat | j < |s.requests| ensures t.requests[j].generation <= s.generation {
      assert s.requests[j] in s.requests;
    }
  }

  lemma SinceNext(s: State, e: Event, g: nat, k: nat, refreshed: bool, was: History, answered: bool)
    requires Inv(s) && Possible(s, e) && !Starts(e) && Since(s, g, k, refreshed, was, answered)
    ensures Since(Next(s, e), g, k, refreshed, was, answered || Answered([e], k))
  {
    if e.Replies? {
      assert [e][0] == e;
      assert Answered([e], k) <==> e.request == k && e.reply.Answer?;
      if s.requests[e.request].generation == g {
        assert Open(s.requests[e.request], g);
        assert Continues(s.requests[e.request], s.scroll, s.history.shown);
      }
      SinceReply(s, e.request, e.reply, g, k, refreshed, was, answered);
    }
  }

  /** Only the answer to request k replaces the rows; a further page only comes where there are rows. */
  lemma SinceReply(s: State, j: nat, reply: Reply, g: nat, k: nat, refreshed: bool, was: History, answered: bool)
    requires j < |s.requests| && Since(s, g, k, refreshed, was, answered)
    requires s.requests[j].generation == g ==> Continues(s.requests[j], s.scroll, s.history.shown)
    requires s.history.applied == [] ==> s.scroll == ""
    ensures Since(Resume(s, j, reply), g, k, refreshed, was, answered || (j == k && reply.Answer?))
  {}

  lemma {:induction false} SinceRun(before: seq<Event>, start: Event, later: seq<Event>)
    requires Starts(start) && (forall e <- later :: !Starts(e)) && Run(before + [start] + later).Some?
    ensures Run(before).Some?
    ensures var s0 := Run(before).value;
            Since(Run(before + [start] + later).value, s0.generation + 1, |s0.requests|, start.Refreshes?, s0.history,
                  Answered(later, |s0.requests|))
  {
    var events := before + [start] + later;
    if later == [] {
      assert events[..|events| - 1] == before && events[|events| - 1] == start;
      RunInv(before);
      SinceStart(Run(before).value, start);
    } else {
      var front, e := later[..|later| - 1], later[|later| - 1];
      assert events[..|events| - 1] == before + [start] + front && events[|events| - 1] == e;
      assert later == front + [e];
      SinceRun(before, start, front);
      var s0 := Run(before).value;
      SinceOne(before + [start] + front, e, front, s0.generation + 1, |s0.requests|, start.Refreshes?, s0.history);
    }
  }

  lemma SinceOne(events: seq<Event>, e: Event, front: seq<Event>, g: nat, k: nat, refreshed: bool, was: History)
    requires Run(events).Some? && Possible(Run(events).value, e) && !Starts(e)
    requires Since(Run(events).value, g, k, refreshed, was, Answered(front, k))
    ensures Since(Next(Run(events).value, e), g, k, refreshed, was, Answered(front + [e], k))
  {
    RunInv(events);
    SinceNext(Run(events).value, e, g, k, refreshed, was, Answered(front, k));
    AnsweredPush(front, e, k);
  }

  lemma AnsweredPush(events: seq<Event>, e: Event, k: nat)
    ensures Answered(events + [e], k) <==> Answered(events, k) || Answered([e], k)
  {
    assert (events + [e])[|events|] == e && [e][0] == e;
    assert forall x <- events :: x in events + [e];
  }

  /** Since the latest reload or refresh the rows are those of its listing if and only if it was a refresh,
      or it was answered, or there was no row to begin with. */
  lemma LatestExactly(before: seq<Event>, start: Event, later: seq<Event>)
    requires Starts(start) && (forall e <- later :: !Starts(e)) && Run(before + [start] + later).Some?
    ensures Run(before).Some?
    ensures var s0, s := Run(before).value, Run(before + [start] + later).value;
            (forall r <- s.history.applied :: r.generation == s.generation)
            <==> start.Refreshes? || Answered(later, |s0.requests|) || s0.history.applied == []
  {
    SinceRun(before, start, later);
    RunInv(before + [start] + later);
    var s := Run(before + [start] + later).value;
    if s.history.applied != [] {
      assert s.history.applied[0] in s.history.applied;
    }
  }

  lemma Play(events: seq<Event>, s: State, e: Event) returns (t: State)
    requires Run(events) == Some(s) && Possible(s, e)
    ensures t == Next(s, e) && Run(events + [e]) == Some(t)
  {
    assert (events + [e])[..|events|] == events;
    t := Next(s, e);
  }

  function Hit(doc: Doc): Reply { Answer(Page(Some([doc]), 2, "more")) }

  /** A listing is loaded, its reload fails, and the next page that is asked for continues the old one. */
  lemma OldPagesFollow() returns (events: seq<Event>)
    ensures Run(events).Some?
    ensures var s := Run(events).value;
            && s.generation == 2 && s.history.shown == 1 && !s.loading && !s.loadingMore
            && s.documents == ["a", "b"] && forall r <- s.history.applied :: r.generation == 1
  {
    var s := Play([], START, Loads);
    s := Play([Loads], s, Replies(0, Hit("a")));
    var loaded := [Loads] + [Replies(0, Hit("a"))];
    s := Play(loaded, s, Loads);
    s := Play(loaded + [Loads], s, Replies(1, Fault));
    var failed := loaded + [Loads] + [Replies(1, Fault)];
    s := Play(failed, s, LoadsMore);
    s := Play(failed + [LoadsMore], s, Replies(2, Hit("b")));
    events := failed + [LoadsMore] + [Replies(2, Hit("b"))];
  }

  // ---------------------------------------------------------------- what is shown beside the rows

  /** The requests whose reply was a failure. */
  function Faults(events: seq<Event>): set<nat> {
    if events == [] then {}
    else
      var e := events[|events| - 1];
      Faults(events[..|events| - 1]) + if e.Replies? && e.reply.Fault? then {e.request} else {}
  }

  ghost predicate Display(s: State, failed: set<nat>) {
    && FailedSettled(s.requests, failed) && OpenIsLast(s.requests, s.generation)
    && (s.error <==> AnyFailed(s.requests, s.generation, failed))
    && s.total == FirstTotal(s.history.applied)
  }

  lemma DisplayLoad(s: State, failed: set<nat>)
    requires Known(s.requests, s.history.log, s.generation) && FailedSettled(s.requests, failed)
    requires s.total == FirstTotal(s.history.applied)
    ensures Display(Load(s), failed)
  {
    var g := s.generation + 1;
    FailedNew(s.requests, failed, g);
    OpenNewGeneration(s.requests, g);
    FailedSend(s.requests, failed, Request(g, "", g, false), g);
  }

  lemma DisplayMore(s: State, failed: set<nat>)
    requires Inv(s) && Display(s, failed)
    ensures Display(LoadMore(s), failed)
  {
    if s.scroll != "" && !s.loading && !s.loadingMore {
      FailedSend(s.requests, failed, Request(s.generation, s.scroll, s.history.shown, false), s.generation);
    }
  }

  lemma DisplayReply(s: State, k: nat, reply: Reply, failed: set<nat>)
    requires Inv(s) && Display(s, failed) && Possible(s, Replies(k, reply))
    ensures Display(Resume(s, k, reply), if reply.Fault? then failed + {k} else failed)
  {
    var r := s.requests[k];
    FailedSettle(s.requests, failed, k, reply.Fault?, s.generation);
    if r.generation == s.generation {
      assert Open(r, s.generation);
      if r.asked != "" {
        MoreHasRows(s, k);
      }
    }
  }

  /** A further page is only on its way where there are rows it follows. */
  lemma MoreHasRows(s: State, k: nat)
    requires Inv(s) && k < |s.requests| && Open(s.requests[k], s.generation) && s.requests[k].asked != ""
    ensures s.history.applied != []
  {
    assert Continues(s.requests[k], s.scroll, s.history.shown);
  }

  lemma {:induction false} RunDisplay(events: seq<Event>)
    requires Run(events).Some?
    ensures Display(Run(events).value, Faults(events))
  {
    if events != [] {
      var front := events[..|events| - 1];
      RunDisplay(front);
      RunInv(front);
      DisplayNext(Run(front).value, events[|events| - 1], Faults(front));
    }
  }

  lemma DisplayNext(s: State, e: Event, failed: set<nat>)
    requires Inv(s) && Display(s, failed) && Possible(s, e)
    ensures Display(Next(s, e), failed + if e.Replies? && e.reply.Fault? then {e.request} else {})
  {
    assert failed + {} == failed;
    match e
    case Loads => DisplayLoad(s, failed);
    case LoadsMore => DisplayMore(s, failed);
    case Refreshes => DisplayLoad(Emptied(s), failed);
    case Replies(k, reply) => DisplayReply(s, k, reply, failed);
  }

  lemma {:induction false} FaultsAre(events: seq<Event>, k: nat)
    ensures k in Faults(events) <==> Replies(k, Fault) in events
  {
    if events != [] {
      var front, e := events[..|events| - 1], events[|events| - 1];
      FaultsAre(front, k);
      assert events == front + [e];
    }
  }

  ghost predicate SomeFailed(s: State, events: seq<Event>) {
    exists k: nat :: k < |s.requests| && s.requests[k].generation == s.generation && Replies(k, Fault) in events
  }

  /** The error is shown exactly if a request has failed since the last reload began, and the total is that
      of the first page of the rows. */
  lemma ShownExactly(events: seq<Event>)
    requires Run(events).Some?
    ensures var s := Run(events).value;
            (s.error <==> SomeFailed(s, events)) && s.total == FirstTotal(s.history.applied)
  {
    RunDisplay(events);
    var s := Run(events).value;
    forall k: nat ensures k in Faults(events) <==> Replies(k, Fault) in events {
      FaultsAre(events, k);
    }
    if SomeFailed(s, events) {
      var k: nat :| k < |s.requests| && s.requests[k].generation == s.generation && Replies(k, Fault) in events;
      assert k in Faults(events);
    }
  }

  lemma Extend(events: seq<Event>, e: Event)
    requires Run(events).Some? && Possible(Run(events).value, e)
    ensures Run(events + [e]) == Some(Next(Run(events).value, e))
  {
    assert (events + [e])[..|events|] == events;
  }

  /** From any state a reload can be answered, and its page is then what is shown; while it is under way a
      reload keeps the rows and a refresh drops them. */
  lemma LoadArrives(events: seq<Event>, start: Event, page: Page)
    requires Run(events).Some? && Starts(start)
    ensures var sent := events + [start];
            var s, t := Run(events).value, Run(sent + [Replies(|Run(events).value.requests|, Answer(page))]);
            && Run(sent).Some? && Run(sent).value.loading && !Run(sent).value.error
            && Run(sent).value.documents == (if start.Loads? then s.documents else [])
            && t.Some? && t.value.documents == Rows(page) && t.value.total == Total(page)
            && t.value.scroll == (if page.hits.Some? then page.scroll else "")
            && !t.value.loading && !t.value.loadingMore && !t.value.error
  {
    Extend(events, start);
    Extend(events + [start], Replies(|Run(events).value.requests|, Answer(page)));
  }

  /** Where there is a next page and nothing is loading, it can be asked for, and it then follows the rows. */
  lemma MoreArrives(events: seq<Event>, page: Page)
    requires Run(events).Some?
    requires Run(events).value.scroll != "" && !Run(events).value.loading && !Run(events).value.loadingMore
    ensures var sent := events + [LoadsMore];
            var s, t := Run(events).value, Run(sent + [Replies(|Run(events).value.requests|, Answer(page))]);
            && Run(sent).Some? && Run(sent).value.loadingMore
            && t.Some? && t.value.documents == s.documents + Rows(page) && t.value.total == s.total
            && !t.value.loadingMore && t.value.scroll == if page.hits.Some? then page.scroll else s.scroll
  {
    Extend(events, LoadsMore);
    Extend(events + [LoadsMore], Replies(|Run(events).value.requests|, Answer(page)));
  }
}
