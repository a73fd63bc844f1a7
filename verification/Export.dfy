/** export.go: collecting the pages of an export from a scrolled search. */
module Export {
  /** One search hit, with what retrieving it and writing it into the archive comes to in this run. */
  datatype Hit = Hit(entry: string, retrieved: bool, created: bool, written: bool)

  datatype Retrieved = Missing | Page(entry: string)

  function Retrieve(h: Hit): Retrieved { if h.retrieved then Page(h.entry) else Missing }

  /** The manifest entries of the pages that made it into the archive, in hit order. */
  function Manifest(hits: seq<Hit>): seq<string> {
    if hits == [] then []
    else
      var h := hits[|hits| - 1];
      Manifest(hits[..|hits| - 1]) + if h.retrieved && h.created && h.written then [h.entry] else []
  }

  /** The files in the archive: a file whose contents could not be written is there all the same. */
  function Files(hits: seq<Hit>): seq<string> {
    if hits == [] then []
    else
      var h := hits[|hits| - 1];
      Files(hits[..|hits| - 1]) + if h.retrieved && h.created then [h.entry] else []
  }

  /** An order in which `n` retrievals complete. */
  predicate Completes(completion: seq<nat>, n: nat) {
    (forall i | 0 <= i < |completion| :: completion[i] < n) && forall i: nat | i < n :: i in completion
  }

  /** Retrieves the hits of one page concurrently, in any order of completion, then writes them into
      the archive one after the other. */
  method ArchiveScrollPage(hits: seq<Hit>, completion: seq<nat>) returns (entries: seq<string>, files: seq<string>)
    requires Completes(completion, |hits|)
    ensures entries == Manifest(hits)
    ensures files == Files(hits)
  {
    var results := new Retrieved[|hits|](_ => Missing);
    for n := 0 to |completion|
      invariant forall k | 0 <= k < n :: results[completion[k]] == Retrieve(hits[completion[k]])
    {
      results[completion[n]] := Retrieve(hits[completion[n]]);
    }
    assert forall i: nat | i < |hits| :: results[i] == Retrieve(hits[i]) by {
      forall i: nat | i < |hits| ensures results[i] == Retrieve(hits[i]) {
        assert i in completion;
        var k :| 0 <= k < |completion| && completion[k] == i;
      }
    }
    entries, files := [], [];
    for i := 0 to |hits|
      invariant entries == Manifest(hits[..i]) && files == Files(hits[..i])
    {
      assert hits[..i + 1][..i] == hits[..i];
      if results[i].Missing? || !hits[i].created {
        continue;
      }
      files := files + [results[i].entry];
      if !hits[i].written {
        continue;
      }
      entries := entries + [results[i].entry];
    }
    assert hits[..|hits|] == hits;
  }

  predicate AllWritten(hits: seq<Hit>) {
    forall i | 0 <= i < |hits| :: hits[i].retrieved && hits[i].created ==> hits[i].written
  }

  lemma SameLast(xs: seq<string>, ys: seq<string>, x: string)
    ensures xs + [x] == ys + [x] <==> xs == ys
  {
    assert (xs + [x])[..|xs|] == xs && (ys + [x])[..|ys|] == ys;
  }

  /** The archive holds exactly the files of the manifest unless a created file could not be written. */
  lemma {:induction false} ManifestMatchesExactly(hits: seq<Hit>)
    ensures |Manifest(hits)| <= |Files(hits)|
    ensures Manifest(hits) == Files(hits) <==> AllWritten(hits)
  {
    if hits != [] {
      var front, h := hits[..|hits| - 1], hits[|hits| - 1];
      ManifestMatchesExactly(front);
      assert AllWritten(hits) <==> AllWritten(front) && (h.retrieved && h.created ==> h.written);
      SameLast(Manifest(front), Files(front), h.entry);
      assert Manifest(front) + [] == Manifest(front) && Files(front) + [] == Files(front);
    }
  }

  lemma {:induction false} ArchiveAppend(a: seq<Hit>, b: seq<Hit>)
    ensures Manifest(a + b) == Manifest(a) + Manifest(b) && Files(a + b) == Files(a) + Files(b)
  {
    if b == [] {
      assert a + b == a;
    } else {
      assert (a + b)[..|a + b| - 1] == a + b[..|b| - 1];
      ArchiveAppend(a, b[..|b| - 1]);
    }
  }

  // ---------------------------------------------------------------- the scroll

  const MAX_DOCUMENTS := 5000

  /** What the search and then each scroll request returns, for ever. */
  datatype Response = Broken | Hits(hits: seq<Hit>)

  datatype Result = Failed | TooLarge | Entries(entries: seq<string>)

  /** The hits of the first `n` responses. */
  function Found(scroll: nat -> Response, n: nat): seq<Hit>
    requires forall i: nat | i < n :: scroll(i).Hits?
  {
    if n == 0 then [] else Found(scroll, n - 1) + scroll(n - 1).hits
  }

  /** The first `n` responses bring hits. */
  predicate Running(scroll: nat -> Response, n: nat) {
    forall i: nat | i < n :: scroll(i).Hits? && scroll(i).hits != []
  }

  predicate EndsAt(scroll: nat -> Response, n: nat) {
    Running(scroll, n) && |Found(scroll, n)| <= MAX_DOCUMENTS && scroll(n) == Hits([])
  }

  predicate BreaksAt(scroll: nat -> Response, n: nat) {
    Running(scroll, n) && |Found(scroll, n)| <= MAX_DOCUMENTS && scroll(n).Broken?
  }

  predicate OverflowsAt(scroll: nat -> Response, n: nat) {
    Running(scroll, n + 1) && |Found(scroll, n)| <= MAX_DOCUMENTS && |Found(scroll, n + 1)| > MAX_DOCUMENTS
  }

  lemma {:induction false} FoundGrows(scroll: nat -> Response, m: nat, n: nat)
    requires m <= n && Running(scroll, n)
    ensures |Found(scroll, n)| >= |Found(scroll, m)| + (n - m)
    decreases n
  {
    if m < n {
      FoundGrows(scroll, m, n - 1);
    }
  }

  datatype End = AtEnd | AtBreak | AtOverflow

  predicate StopsAt(scroll: nat -> Response, end: End, n: nat) {
    match end
    case AtEnd => EndsAt(scroll, n)
    case AtBreak => BreaksAt(scroll, n)
    case AtOverflow => OverflowsAt(scroll, n)
  }

  /** A scroll stops in one way and at one request, so the outcomes below are exact. */
  lemma StopsOnce(scroll: nat -> Response, e: End, m: nat, f: End, n: nat)
    requires StopsAt(scroll, e, m) && StopsAt(scroll, f, n)
    ensures e == f && m == n
  {
    if m < n {
      LaterStop(scroll, e, m, f, n);
    } else if n < m {
      LaterStop(scroll, f, n, e, m);
    }
  }

  lemma LaterStop(scroll: nat -> Response, e: End, m: nat, f: End, n: nat)
    requires StopsAt(scroll, f, n) && m < n
    ensures !StopsAt(scroll, e, m)
  {
    FoundGrows(scroll, m + 1, n);
  }

  lemma NextPage(scroll: nat -> Response, n: nat)
    requires Running(scroll, n) && scroll(n).Hits? && scroll(n).hits != []
    ensures Running(scroll, n + 1) && |Found(scroll, n + 1)| == |Found(scroll, n)| + |scroll(n).hits|
    ensures Manifest(Found(scroll, n + 1)) == Manifest(Found(scroll, n)) + Manifest(scroll(n).hits)
    ensures Files(Found(scroll, n + 1)) == Files(Found(scroll, n)) + Files(scroll(n).hits)
  {
    ArchiveAppend(Found(scroll, n), scroll(n).hits);
  }

  ghost predicate Scheduled(scroll: nat -> Response, schedule: nat -> seq<nat>) {
    forall n: nat :: scroll(n).Hits? ==> Completes(schedule(n), |scroll(n).hits|)
  }

  /** `schedule` gives the order in which the retrievals of each page complete; `files` is the archive. */
  method CollectExportEntries(scroll: nat -> Response, schedule: nat -> seq<nat>)
    returns (r: Result, pages: nat, files: seq<string>)
    requires Scheduled(scroll, schedule)
    ensures pages <= MAX_DOCUMENTS
    ensures r.Entries? ==> EndsAt(scroll, pages) && r.entries == Manifest(Found(scroll, pages))
    ensures Running(scroll, pages) && files == Files(Found(scroll, pages))
    ensures r.Entries? ==> (files == r.entries <==> AllWritten(Found(scroll, pages)))
    ensures r.Failed? ==> BreaksAt(scroll, pages)
    ensures r.TooLarge? ==> OverflowsAt(scroll, pages)
  {
    pages, files := 0, [];
    var parsed := scroll(0);
    if parsed.Broken? {
      return Failed, 0, [];
    }
    var entries: seq<string> := [];
    var total := 0;
    while |parsed.hits| > 0
      invariant Running(scroll, pages) && parsed == scroll(pages) && parsed.Hits?
      invariant pages <= total == |Found(scroll, pages)| <= MAX_DOCUMENTS
      invariant entries == Manifest(Found(scroll, pages)) && files == Files(Found(scroll, pages))
      decreases MAX_DOCUMENTS - total
    {
      NextPage(scroll, pages);
      total := total + |parsed.hits|;
      if total > MAX_DOCUMENTS {
        return TooLarge, pages, files;
      }
      var pageEntries, pageFiles := ArchiveScrollPage(parsed.hits, schedule(pages));
      entries, files := entries + pageEntries, files + pageFiles;
      pages := pages + 1;
      var next := scroll(pages);
      if next.Broken? {
        return Failed, pages, files;
      }
      parsed := next;
    }
    r := Entries(entries);
    ManifestMatchesExactly(Found(scroll, pages));
  }
}
