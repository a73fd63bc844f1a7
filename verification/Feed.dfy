/** What the paged searches of the front end share: requests tagged with the generation that sent
    them, replies that arrive in any order, and the log of all replies received. */
module Feed {
  import opened Common

  type Doc = string

  /** A reply body: the rows, if the reply has any, and the scroll ID for the next page ("" when absent). */
  datatype Page = Page(hits: Option<seq<Doc>>, total: nat, scroll: string)

  datatype Reply = Answer(page: Page) | Fault

  /** `asked` is the scroll ID sent, "" for a new search; `listing` is history, the generation of
      the search that scroll ID goes back to. */
  datatype Request = Request(generation: nat, asked: string, listing: nat, settled: bool)

  datatype Receipt = Receipt(generation: nat, asked: string, page: Page)

  function Rows(page: Page): seq<Doc> { if page.hits.Some? then page.hits.value else [] }

  /** The number of hits a reply speaks of: none without hits. */
  function Total(page: Page): nat { if page.hits.Some? then page.total else 0 }

  /** The total that belongs to some receipts is that of the first. */
  function FirstTotal(receipts: seq<Receipt>): nat { if receipts == [] then 0 else Total(receipts[0].page) }

  /** The receipts of one generation, in the order they arrived. */
  function Of(log: seq<Receipt>, generation: nat): seq<Receipt> {
    if log == [] then []
    else
      var n := |log| - 1;
      Of(log[..n], generation) + if log[n].generation == generation then [log[n]] else []
  }

  function AllRows(receipts: seq<Receipt>): seq<Doc> {
    if receipts == [] then [] else AllRows(receipts[..|receipts| - 1]) + Rows(receipts[|receipts| - 1].page)
  }

  /** The scroll ID a further request continues with after this receipt. A reply without rows is
      either taken at its word or, when `patient`, leaves the scroll ID as it was. */
  function Continue(r: Receipt, patient: bool): string {
    if patient && r.page.hits.None? then r.asked else r.page.scroll
  }

  /** One listing read page by page: a new search first, then each request with the scroll ID that the
      receipt before it left. */
  predicate Chain(receipts: seq<Receipt>, patient: bool) {
    forall i: nat | i < |receipts| :: Linked(receipts, i, patient)
  }

  predicate Linked(receipts: seq<Receipt>, i: nat, patient: bool)
    requires i < |receipts|
  {
    receipts[i].asked == if i == 0 then "" else Continue(receipts[i - 1], patient)
  }

  lemma OfPush(log: seq<Receipt>, r: Receipt, generation: nat)
    ensures Of(log + [r], generation) == if r.generation == generation then Of(log, generation) + [r] else Of(log, generation)
  {
    assert (log + [r])[..|log|] == log;
  }

  lemma AllRowsPush(receipts: seq<Receipt>, r: Receipt)
    ensures AllRows(receipts + [r]) == AllRows(receipts) + Rows(r.page)
  {
    assert (receipts + [r])[..|receipts|] == receipts;
  }

  lemma {:induction false} OfFresh(log: seq<Receipt>, generation: nat)
    requires forall r <- log :: r.generation < generation
    ensures Of(log, generation) == []
  {
    if log != [] {
      OfFresh(log[..|log| - 1], generation);
    }
  }

  /** The unsettled requests of a generation. */
  predicate Open(r: Request, generation: nat) { !r.settled && r.generation == generation }

  ghost predicate Known(requests: seq<Request>, log: seq<Receipt>, generation: nat) {
    (forall r <- requests :: r.generation <= generation) && (forall r <- log :: r.generation <= generation)
  }

  /** At most one request of the generation is unsettled: a new search while `loading`, a further page
      while `loadingMore`, none otherwise. */
  ghost predicate OneOpen(requests: seq<Request>, generation: nat, loading: bool, loadingMore: bool) {
    && !(loading && loadingMore)
    && (forall k: nat, l: nat | k < |requests| && l < |requests| && Open(requests[k], generation)
                                && Open(requests[l], generation) :: k == l)
    && (forall k: nat | k < |requests| && Open(requests[k], generation) ::
          if requests[k].asked == "" then loading else loadingMore)
    && (loading || loadingMore ==> exists k: nat :: k < |requests| && Open(requests[k], generation))
  }

  lemma OpenSend(requests: seq<Request>, r: Request, generation: nat)
    requires forall q <- requests :: q.generation <= generation
    requires forall k: nat | k < |requests| :: !Open(requests[k], r.generation)
    requires !r.settled && r.generation >= generation
    ensures OneOpen(requests + [r], r.generation, r.asked == "", r.asked != "")
  {
    assert Open((requests + [r])[|requests|], r.generation);
  }

  /** A first request of a new generation is its only open one. */
  lemma AskFirst(requests: seq<Request>, log: seq<Receipt>, generation: nat)
    requires Known(requests, log, generation)
    ensures var g := generation + 1;
            var longer := requests + [Request(g, "", g, false)];
            Known(longer, log, g) && OneOpen(longer, g, true, false)
  {
    var g := generation + 1;
    OpenNewGeneration(requests, g);
    OpenSend(requests, Request(g, "", g, false), g);
    assert forall q <- requests + [Request(g, "", g, false)] :: q in requests || q.generation == g;
  }

  /** A further request is sent when none is open. */
  lemma AskNext(requests: seq<Request>, generation: nat, scroll: string, listing: nat)
    requires (forall q <- requests :: q.generation <= generation) && OneOpen(requests, generation, false, false)
    requires scroll != ""
    ensures OneOpen(requests + [Request(generation, scroll, listing, false)], generation, false, true)
  {
    OpenSend(requests, Request(generation, scroll, listing, false), generation);
  }

  lemma OpenSettle(requests: seq<Request>, k: nat, generation: nat, loading: bool, loadingMore: bool)
    requires OneOpen(requests, generation, loading, loadingMore) && k < |requests| && !requests[k].settled
    ensures var settled := requests[k := requests[k].(settled := true)];
            if requests[k].generation == generation then OneOpen(settled, generation, false, false)
            else OneOpen(settled, generation, loading, loadingMore)
  {
    var settled := requests[k := requests[k].(settled := true)];
    if requests[k].generation != generation && (loading || loadingMore) {
      var l: nat :| l < |requests| && Open(requests[l], generation);
      assert Open(settled[l], generation);
    }
  }

  lemma OpenNewGeneration(requests: seq<Request>, generation: nat)
    requires forall q <- requests :: q.generation < generation
    ensures OneOpen(requests, generation, false, false)
  {
    forall k: nat | k < |requests| ensures !Open(requests[k], generation) {
      assert requests[k] in requests;
    }
  }

  /** The rows shown are those of the receipts, which form one chain ending at the current scroll ID. */
  ghost predicate Shows(rows: seq<Doc>, scroll: string, receipts: seq<Receipt>, patient: bool) {
    && rows == AllRows(receipts) && Chain(receipts, patient)
    && scroll == if receipts == [] then "" else Continue(receipts[|receipts| - 1], patient)
  }

  lemma ShowsPush(rows: seq<Doc>, scroll: string, receipts: seq<Receipt>, r: Receipt, patient: bool)
    requires Shows(rows, scroll, receipts, patient) && r.asked == scroll
    ensures Shows(rows + Rows(r.page), Continue(r, patient), receipts + [r], patient)
  {
    AllRowsPush(receipts, r);
    var longer := receipts + [r];
    forall i: nat | i < |longer| ensures Linked(longer, i, patient) {
      assert i < |receipts| ==> Linked(receipts, i, patient);
    }
  }

  lemma ShowsFirst(r: Receipt, patient: bool)
    requires r.asked == ""
    ensures Shows(Rows(r.page), Continue(r, patient), [r], patient)
  {
    AllRowsPush([], r);
    assert [] + [r] == [r];
  }

  /** Every unsettled request of the generation asks for the given scroll ID. */
  ghost predicate Asks(requests: seq<Request>, generation: nat, scroll: string) {
    forall k: nat | k < |requests| && Open(requests[k], generation) :: requests[k].asked == scroll
  }

  lemma AsksSettle(requests: seq<Request>, k: nat, generation: nat, scroll: string)
    requires Asks(requests, generation, scroll) && k < |requests|
    ensures Asks(requests[k := requests[k].(settled := true)], generation, scroll)
  {}

  // ---------------------------------------------------------------- failed requests

  /** Only requests that are settled have failed. */
  ghost predicate FailedSettled(requests: seq<Request>, failed: set<nat>) {
    forall k <- failed :: k < |requests| && requests[k].settled
  }

  /** The request sent last is one of this generation and has failed. */
  predicate LastFailed(requests: seq<Request>, generation: nat, failed: set<nat>) {
    requests != [] && requests[|requests| - 1].generation == generation && |requests| - 1 in failed
  }

  /** Some request of this generation has failed. */
  predicate AnyFailed(requests: seq<Request>, generation: nat, failed: set<nat>) {
    exists k <- failed :: k < |requests| && requests[k].generation == generation
  }

  /** An open request of the generation is the one sent last. */
  ghost predicate OpenIsLast(requests: seq<Request>, generation: nat) {
    forall k: nat | k < |requests| && Open(requests[k], generation) :: k == |requests| - 1
  }

  lemma FailedNew(requests: seq<Request>, failed: set<nat>, generation: nat)
    requires FailedSettled(requests, failed) && forall q <- requests :: q.generation < generation
    ensures !LastFailed(requests, generation, failed) && !AnyFailed(requests, generation, failed)
    ensures OpenIsLast(requests, generation)
  {
    forall k: nat | k < |requests| ensures requests[k].generation < generation {
      assert requests[k] in requests;
    }
  }

  lemma FailedSend(requests: seq<Request>, failed: set<nat>, r: Request, generation: nat)
    requires FailedSettled(requests, failed) && r.generation == generation && !r.settled
    requires forall k: nat | k < |requests| :: !Open(requests[k], generation)
    ensures FailedSettled(requests + [r], failed) && !LastFailed(requests + [r], generation, failed)
    ensures AnyFailed(requests + [r], generation, failed) <==> AnyFailed(requests, generation, failed)
    ensures OpenIsLast(requests + [r], generation)
  {
    if k :| k in failed && k < |requests| && requests[k].generation == generation {
      assert (requests + [r])[k] == requests[k];
    }
  }

  lemma FailedSettle(requests: seq<Request>, failed: set<nat>, k: nat, fault: bool, generation: nat)
    requires FailedSettled(requests, failed) && OpenIsLast(requests, generation) && k < |requests| && !requests[k].settled
    ensures var settled, failed' := requests[k := requests[k].(settled := true)], if fault then failed + {k} else failed;
            && FailedSettled(settled, failed') && OpenIsLast(settled, generation)
            && (LastFailed(settled, generation, failed') <==>
                  LastFailed(requests, generation, failed) || (fault && requests[k].generation == generation))
            && (AnyFailed(settled, generation, failed') <==>
                  AnyFailed(requests, generation, failed) || (fault && requests[k].generation == generation))
  {
    var settled, failed' := requests[k := requests[k].(settled := true)], if fault then failed + {k} else failed;
    if requests[k].generation == generation {
      assert Open(requests[k], generation);
    }
    if j :| j in failed && j < |requests| && requests[j].generation == generation {
      assert j in failed' && settled[j].generation == generation;
    }
    if fault && requests[k].generation == generation {
      assert k in failed' && settled[k].generation == generation;
    }
  }
}
