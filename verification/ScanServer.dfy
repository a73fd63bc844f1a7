/** A ScanPages run together with the server that takes its requests: what a nil result says about the
    digest index, and why scanning the same pages again ends in an error. */
module ScanServer {
  import opened Common
  import opened RemoteBackend
  import opened UploadSystem
  import opened UploadSafety
  import opened ScanPool
  import D = DigestIndex
  import P = DigestProtocol
  import R = UploadRequest
  import U = Uploads
  import Amount
  import ScanRequests

  /** What the server computes from the bytes of a page: their hash, and whether it can read them. */
  datatype Server = Server(hash: seq<byte> -> string, readable: seq<byte> -> bool)

  function ContentOf(server: Server, page: Page): string { P.Sum(server.hash(page.data)) }

  /** The file the server sees of a page in a request. */
  function FileOf(server: Server, page: Page): R.File {
    R.File(P.PageID(page.scanID, U.IntText(page.sequenceID)), server.hash(page.data), server.readable(page.data))
  }

  function FilesOf(server: Server, pages: seq<Page>): seq<R.File> {
    seq(|pages|, i requires 0 <= i < |pages| => FileOf(server, pages[i]))
  }

  datatype Site = Site(pool: Pool, index: D.Index)

  /** `Sends` is the answer to the upload a thread is waiting for: what the workers of the request did, and
      whether the answer arrived. Without one they may have stopped anywhere, or never begun. */
  datatype Event = Local(event: ScanPool.Event) | Sends(thread: nat, work: seq<P.Event>, delivered: bool)

  predicate IsUploading(p: Pool, t: nat) { t < |p.sys.threads| && p.sys.threads[t].pc.Uploading? }

  predicate Answers(p: Pool, e: ScanPool.Event) { e.Inner? && e.event.Step? && IsUploading(p, e.event.thread) }

  function Request(server: Server, p: Pool, t: nat): seq<R.File>
    requires IsUploading(p, t)
  {
    FilesOf(server, p.sys.threads[t].pc.upload.pages)
  }

  predicate Possible(server: Server, s: Site, e: Event) {
    match e
    case Local(local) => ScanPool.Possible(s.pool, local) && !Answers(s.pool, local)
    case Sends(t, work, delivered) =>
      IsUploading(s.pool, t) &&
      match R.Serve(s.index, Request(server, s.pool, t), work)
      case Some(w) => delivered ==> R.Served(w)
      case None => false
  }

  /** An upload is accepted if the answer arrives and says so. */
  function Reply(w: P.World, delivered: bool): bool { delivered && R.Takes(R.Results(w)) }

  function Next(server: Server, s: Site, e: Event): Site
    requires Possible(server, s, e)
  {
    match e
    case Local(local) => s.(pool := Advance(s.pool, local))
    case Sends(t, work, delivered) =>
      var w := R.Serve(s.index, Request(server, s.pool, t), work).value;
      Site(Advance(s.pool, Inner(Step(t, Reply(w, delivered)))), w.index)
  }

  /** A run from the start of ScanPages over an index that other scans have filled. */
  function Run(server: Server, start: Site, events: seq<Event>): Option<Site> {
    if events == [] then Some(start)
    else match Run(server, start, events[..|events| - 1])
      case None => None
      case Some(s) =>
        var e := events[|events| - 1];
        if Possible(server, s, e) then Some(Next(server, s, e)) else None
  }

  ghost predicate Begins(start: Site) {
    exists config: Config, scanID, workers :: config.Valid() && start.pool == Start(config, scanID, workers)
  }

  // ---------------------------------------------------------------- the pool's side

  lemma ReachedNext(p: Pool, e: ScanPool.Event)
    requires Reached(p) && ScanPool.Possible(p, e)
    ensures Reached(Advance(p, e))
  {
    var config: Config, scanID, workers, events :|
      config.Valid() && Play(Start(config, scanID, workers), events) == Some(p);
    assert (events + [e])[..|events|] == events;
    assert Play(Start(config, scanID, workers), events + [e]) == Some(Advance(p, e));
  }

  lemma {:induction false} RunReached(server: Server, start: Site, events: seq<Event>)
    requires Begins(start) && Run(server, start, events).Some?
    ensures Reached(Run(server, start, events).value.pool)
  {
    if events == [] {
      var config: Config, scanID, workers :| config.Valid() && start.pool == Start(config, scanID, workers);
      assert Play(Start(config, scanID, workers), []) == Some(start.pool);
    } else {
      var s, e := Run(server, start, events[..|events| - 1]).value, events[|events| - 1];
      RunReached(server, start, events[..|events| - 1]);
      if e.Local? {
        ReachedNext(s.pool, e.event);
      } else {
        var w := R.Serve(s.index, Request(server, s.pool, e.thread), e.work).value;
        ReachedNext(s.pool, Inner(Step(e.thread, Reply(w, e.delivered))));
      }
    }
  }

  /** Batches and their fates stay; a new batch is held. */
  ghost predicate Extends(was: Log, now: Log) {
    && |was.takes| == |was.fates| <= |now.takes| == |now.fates| && now.takes[..|was.takes|] == was.takes
    && (forall k: nat | k < |was.fates| :: now.fates[k] == was.fates[k])
    && forall k: nat | |was.fates| <= k < |now.fates| :: now.fates[k].Held?
  }

  lemma SectionExtends(s: System, t: nat, section: Section)
    requires t < |s.threads| && |s.log.takes| == |s.log.fates|
    ensures Extends(s.log, RunSection(s, t, section).log)
  {}

  lemma StepExtends(s: System, t: nat, ok: bool)
    requires Ready(s, t) && !s.threads[t].pc.Uploading? && |s.log.takes| == |s.log.fates|
    ensures Extends(s.log, UploadSystem.Run(s, t, ok).log)
  {
    if s.threads[t].pc.InMu? {
      SectionExtends(s, t, s.threads[t].pc.section);
    }
  }

  lemma LocalExtends(p: Pool, e: ScanPool.Event)
    requires ScanPool.Possible(p, e) && !Answers(p, e) && |p.sys.log.takes| == |p.sys.log.fates|
    ensures Extends(p.sys.log, Advance(p, e).sys.log)
  {
    if e.Inner? && e.event.Step? {
      StepExtends(p.sys, e.event.thread, e.event.ok);
    }
  }

  lemma HoldsBatch(p: Pool, t: nat)
    requires Reached(p) && IsUploading(p, t)
    ensures var b := p.sys.threads[t].pc.upload;
            b.serial < |p.sys.log.takes| == |p.sys.log.fates| && p.sys.log.takes[b.serial] == b.pages
  {
    ReachedInv(p);
    assert Keeps(p.sys.threads[t].pc, t, p.sys.log);
  }

  /** The answer decides the batch of the thread, and nothing else. */
  lemma AnswerDecides(p: Pool, t: nat, ok: bool)
    requires IsUploading(p, t) && p.sys.threads[t].pc.upload.serial < |p.sys.log.fates|
    ensures var k, q := p.sys.threads[t].pc.upload.serial, Advance(p, Inner(Step(t, ok)));
            q.sys.log == p.sys.log.(fates := p.sys.log.fates[k := if ok then Accepted else Rejected(t)])
  {}

  lemma YieldedGrows(server: Server, s: Site, e: Event)
    requires Possible(server, s, e)
    ensures s.pool.yielded <= Next(server, s, e).pool.yielded
  {}

  /** Every page of a batch is one that was yielded. */
  lemma BatchYielded(p: Pool, k: nat)
    requires Reached(p) && k < |p.sys.log.takes|
    ensures forall x <- p.sys.log.takes[k] :: x in p.yielded
  {
    ScanRequests.ReachedNumbered(p);
    ScanRequests.BatchNumbered(p, k);
    forall x <- p.sys.log.takes[k] ensures x in p.yielded {
      var i: nat :| i < |p.sys.log.takes[k]| && p.sys.log.takes[k][i] == x;
      assert ScanRequests.Labelled(p, p.sys.log.takes[k][i]);
    }
  }

  // ---------------------------------------------------------------- the server's side

  lemma SameNumber(scanID: string, m: int, n: int)
    requires m > 0 && n > 0 && P.PageID(scanID, U.IntText(m)) == P.PageID(scanID, U.IntText(n))
    ensures m == n
  {
    assert P.PageID(scanID, U.IntText(m))[|scanID| + 1..] == U.IntText(m);
    assert P.PageID(scanID, U.IntText(n))[|scanID| + 1..] == U.IntText(n);
    Amount.ValueOfNumerals(m);
    Amount.ValueOfNumerals(n);
  }

  /** No two files of a request are for the same page. */
  lemma RequestDistinct(server: Server, p: Pool, k: nat)
    requires Reached(p) && k < |p.sys.log.takes|
    ensures R.DistinctPages(FilesOf(server, p.sys.log.takes[k])) && p.sys.log.takes[k] != []
  {
    ScanRequests.ReachedNumbered(p);
    ScanRequests.BatchNumbered(p, k);
    var pages := p.sys.log.takes[k];
    assert Sized(p.sys.config, pages);
    var ids := ScanRequests.SequenceIDs(pages);
    forall i: nat, j: nat | i < j < |pages|
      ensures FileOf(server, pages[i]).page != FileOf(server, pages[j]).page
    {
      assert ScanRequests.Labelled(p, pages[i]) && ScanRequests.Labelled(p, pages[j]);
      assert ids[i] != ids[j];
      if FileOf(server, pages[i]).page == FileOf(server, pages[j]).page {
        SameNumber(p.scanID, ids[i], ids[j]);
      }
    }
  }

  ghost predicate Contains(index: D.Index, server: Server, pages: seq<Page>) {
    forall x <- pages :: ContentOf(server, x) in index.entries
  }

  lemma IndexGrows(server: Server, s: Site, e: Event)
    requires Possible(server, s, e)
    ensures forall d <- s.index.entries :: d in Next(server, s, e).index.entries
  {
    if e.Sends? {
      R.ReservedIsLeftAlone(s.index, Request(server, s.pool, e.thread), e.work);
    }
  }

  /** The content of a batch that is accepted is in the index. */
  lemma AcceptedIsContained(server: Server, s: Site, e: Event)
    requires Possible(server, s, e) && e.Sends? && Reached(s.pool)
    requires Reply(R.Serve(s.index, Request(server, s.pool, e.thread), e.work).value, e.delivered)
    ensures Contains(Next(server, s, e).index, server, s.pool.sys.threads[e.thread].pc.upload.pages)
  {
    var b := s.pool.sys.threads[e.thread].pc.upload;
    HoldsBatch(s.pool, e.thread);
    RequestDistinct(server, s.pool, b.serial);
    forall x <- b.pages ensures ContentOf(server, x) in Next(server, s, e).index.entries {
      var i: nat :| i < |b.pages| && b.pages[i] == x;
      R.TakenIsReserved(s.index, FilesOf(server, b.pages), e.work, i);
    }
  }

  /** A batch of which all content is there already is not accepted. */
  lemma ContainedIsRefused(server: Server, s: Site, e: Event)
    requires Possible(server, s, e) && e.Sends? && Reached(s.pool)
    requires Contains(s.index, server, s.pool.sys.threads[e.thread].pc.upload.pages)
    ensures !Reply(R.Serve(s.index, Request(server, s.pool, e.thread), e.work).value, e.delivered)
  {
    var b := s.pool.sys.threads[e.thread].pc.upload;
    HoldsBatch(s.pool, e.thread);
    RequestDistinct(server, s.pool, b.serial);
    if e.delivered {
      var files := FilesOf(server, b.pages);
      forall i | 0 <= i < |files| ensures P.Sum(files[i].hex) in s.index.entries {
        assert b.pages[i] in b.pages;
      }
      R.TakesExactly(s.index, files, e.work);
    }
  }

  // ---------------------------------------------------------------- a nil result

  /** What has been accepted is in the index. */
  ghost predicate Stored(server: Server, s: Site) {
    forall k: nat | k < |s.pool.sys.log.fates| && k < |s.pool.sys.log.takes| && s.pool.sys.log.fates[k] == Accepted ::
      Contains(s.index, server, s.pool.sys.log.takes[k])
  }

  lemma StoredNext(server: Server, s: Site, e: Event)
    requires Stored(server, s) && Possible(server, s, e) && Reached(s.pool)
    ensures Stored(server, Next(server, s, e))
  {
    ReachedInv(s.pool);
    IndexGrows(server, s, e);
    if e.Local? {
      LocalExtends(s.pool, e.event);
      StillStored(server, s, Next(server, s, e));
    } else {
      var ok := Reply(R.Serve(s.index, Request(server, s.pool, e.thread), e.work).value, e.delivered);
      HoldsBatch(s.pool, e.thread);
      AnswerDecides(s.pool, e.thread, ok);
      if ok {
        AcceptedIsContained(server, s, e);
      }
    }
  }

  lemma StillStored(server: Server, s: Site, q: Site)
    requires Stored(server, s) && Extends(s.pool.sys.log, q.pool.sys.log) && q.index == s.index
    ensures Stored(server, q)
  {
    forall k: nat | k < |q.pool.sys.log.fates| && q.pool.sys.log.fates[k] == Accepted
      ensures Contains(q.index, server, q.pool.sys.log.takes[k])
    {
      assert q.pool.sys.log.takes[k] == q.pool.sys.log.takes[..|s.pool.sys.log.takes|][k];
    }
  }

  lemma {:induction false} RunStored(server: Server, start: Site, events: seq<Event>)
    requires Begins(start) && Run(server, start, events).Some?
    ensures Stored(server, Run(server, start, events).value)
  {
    if events != [] {
      var front := events[..|events| - 1];
      RunStored(server, start, front);
      RunReached(server, start, front);
      StoredNext(server, Run(server, start, front).value, events[|events| - 1]);
    }
  }

  lemma {:induction false} KeptHasBatch(takes: seq<seq<Page>>, fates: seq<Fate>, x: Page)
    requires |takes| == |fates| && x in PagesWith(takes, fates, Kept)
    ensures exists k: nat :: k < |takes| && fates[k] == Accepted && x in takes[k]
  {
    var n := |takes| - 1;
    if x in PagesWith(takes[..n], fates[..n], Kept) {
      KeptHasBatch(takes[..n], fates[..n], x);
    } else {
      assert fates[n] == Accepted && x in takes[n];
    }
  }

  /** If ScanPages returns nil, the content of every page the scanner yielded is in the digest index,
      whatever got lost or failed on the way. */
  lemma NilMeansIndexed(server: Server, start: Site, events: seq<Event>)
    requires Begins(start) && Run(server, start, events).Some?
    requires var p := Run(server, start, events).value.pool; p.phase.Finished? && p.scanErr == []
    ensures var s := Run(server, start, events).value; Contains(s.index, server, s.pool.yielded)
  {
    var s := Run(server, start, events).value;
    RunReached(server, start, events);
    RunStored(server, start, events);
    NoSilentLoss(s.pool);
    var kept := PagesWith(s.pool.sys.log.takes, s.pool.sys.log.fates, Kept);
    forall x <- s.pool.yielded ensures ContentOf(server, x) in s.index.entries {
      assert x in multiset(s.pool.yielded) && x in multiset(kept);
      KeptHasBatch(s.pool.sys.log.takes, s.pool.sys.log.fates, x);
    }
  }

  // ---------------------------------------------------------------- scanning the same pages again

  ghost predicate NoneAccepted(s: Site) {
    forall k: nat | k < |s.pool.sys.log.fates| :: s.pool.sys.log.fates[k] != Accepted
  }

  lemma RefusedNext(server: Server, s: Site, e: Event)
    requires NoneAccepted(s) && Possible(server, s, e) && Reached(s.pool) && Contains(s.index, server, s.pool.yielded)
    ensures NoneAccepted(Next(server, s, e))
  {
    ReachedInv(s.pool);
    if e.Local? {
      LocalExtends(s.pool, e.event);
    } else {
      var b := s.pool.sys.threads[e.thread].pc.upload;
      var ok := Reply(R.Serve(s.index, Request(server, s.pool, e.thread), e.work).value, e.delivered);
      HoldsBatch(s.pool, e.thread);
      AnswerDecides(s.pool, e.thread, ok);
      BatchYielded(s.pool, b.serial);
      ContainedIsRefused(server, s, e);
    }
  }

  lemma {:induction false} RunRefused(server: Server, start: Site, events: seq<Event>)
    requires Begins(start) && Run(server, start, events).Some?
    requires Contains(start.index, server, Run(server, start, events).value.pool.yielded)
    ensures var s := Run(server, start, events).value;
            NoneAccepted(s) && forall d <- start.index.entries :: d in s.index.entries
  {
    if events != [] {
      var front, e := events[..|events| - 1], events[|events| - 1];
      var s := Run(server, start, front).value;
      YieldedGrows(server, s, e);
      RunRefused(server, start, front);
      RunReached(server, start, front);
      IndexGrows(server, s, e);
      RefusedNext(server, s, e);
    }
  }

  /** A scan that yields only content that is indexed already, and at least one page of it, ends in an
      error, in every run, although nothing is missing: each of its batches counts as refused. */
  lemma DuplicatesFail(server: Server, start: Site, events: seq<Event>)
    requires Begins(start) && Run(server, start, events).Some?
    requires var p := Run(server, start, events).value.pool;
             p.phase.Finished? && p.yielded != [] && Contains(start.index, server, p.yielded)
    ensures var s := Run(server, start, events).value;
            s.pool.scanErr != [] && Contains(s.index, server, s.pool.yielded)
  {
    var s := Run(server, start, events).value;
    RunReached(server, start, events);
    RunRefused(server, start, events);
    if s.pool.scanErr == [] {
      NilHasBatch(s.pool);
    }
  }

  lemma NilHasBatch(p: Pool)
    requires Reached(p) && p.phase.Finished? && p.scanErr == [] && p.yielded != []
    ensures exists k: nat :: k < |p.sys.log.fates| && p.sys.log.fates[k] == Accepted
  {
    NoSilentLoss(p);
    assert p.yielded[0] in multiset(p.yielded);
    KeptHasBatch(p.sys.log.takes, p.sys.log.fates, p.yielded[0]);
  }

  /** So a scan that went well cannot be repeated: the same pages in a second scan, however it is run,
      end in an error. */
  lemma RescanFails(server: Server, start: Site, first: seq<Event>, again: Site, second: seq<Event>)
    requires Begins(start) && Run(server, start, first).Some?
    requires var p := Run(server, start, first).value.pool; p.phase.Finished? && p.scanErr == []
    requires Begins(again) && again.index == Run(server, start, first).value.index && Run(server, again, second).Some?
    requires var p, q := Run(server, start, first).value.pool, Run(server, again, second).value.pool;
             q.phase.Finished? && q.yielded != [] && forall y <- q.yielded :: exists x <- p.yielded :: x.data == y.data
    ensures Run(server, again, second).value.pool.scanErr != []
  {
    NilMeansIndexed(server, start, first);
    DuplicatesFail(server, again, second);
  }

  // ---------------------------------------------------------------- a run

  ghost predicate Closed(server: Server, sites: iset<Site>) {
    forall s, e | s in sites && Possible(server, s, e) :: Next(server, s, e) in sites
  }

  ghost predicate Arises(server: Server, start: Site, s: Site) {
    exists events :: Run(server, start, events) == Some(s)
  }

  ghost function Reach(server: Server, start: Site): (sites: iset<Site>)
    ensures forall s :: s in sites <==> Arises(server, start, s)
  {
    iset s | Arises(server, start, s)
  }

  lemma ReachIsClosed(server: Server, start: Site)
    ensures Closed(server, Reach(server, start)) && start in Reach(server, start)
  {
    assert Run(server, start, []) == Some(start);
    forall s, e | Arises(server, start, s) && Possible(server, s, e) ensures Arises(server, start, Next(server, s, e)) {
      var events :| Run(server, start, events) == Some(s);
      assert (events + [e])[..|events|] == events;
      assert Run(server, start, events + [e]) == Some(Next(server, s, e));
    }
  }

  lemma Go(server: Server, sites: iset<Site>, s: Site, e: ScanPool.Event) returns (q: Site)
    requires Closed(server, sites) && s in sites && ScanPool.Possible(s.pool, e) && !Answers(s.pool, e)
    ensures q in sites && q == Site(Advance(s.pool, e), s.index)
  {
    q := Next(server, s, Local(e));
  }

  const BLANK := Page("s", 1, [])

  /** One page is scanned, and a worker has received it. */
  lemma YieldPlay(server: Server, sites: iset<Site>, start: Site, config: Config) returns (s: Site)
    requires Closed(server, sites) && start in sites && start.pool == Start(config, "s", 1)
    ensures s in sites && s.index == start.index && s.pool.yielded == [BLANK] && s.pool.channel == []
    ensures s.pool.phase.Scanning? && s.pool.scanErr == [] && s.pool.failed == 0 && s.pool.workers == [Busy(0)]
    ensures s.pool.sys == Spawn(Init(config), Process(BLANK))
  {
    s := Go(server, sites, start, Yield([], true, Never));
    s := Go(server, sites, s, Receive(0, true));
    assert s.pool.workers == [Busy(0)] && s.pool.channel == [];
  }

  /** It is appended, and the worker has its result. */
  lemma ScanPlay(server: Server, sites: iset<Site>, start: Site, config: Config) returns (s: Site)
    requires Closed(server, sites) && start in sites && config.Valid() && config.maxPages >= 2
    requires start.pool.sys == Spawn(Init(config), Process(BLANK))
    ensures s in sites && s.index == start.index && s.pool == start.pool.(sys := s.pool.sys) && Appended(s.pool.sys)
  {
    s := Go(server, sites, start, Inner(Step(0, true)));
    s := Go(server, sites, s, Inner(Step(0, true)));
    s := Go(server, sites, s, Inner(Step(0, true)));
  }

  ghost predicate Appended(sys: System) {
    && sys.mu == None && sys.flushMu == None && sys.fields.buf == [BLANK] && sys.fields.flushErr == None
    && sys.log.takes == [] && sys.log.fates == [] && |sys.threads| == 1 && sys.threads[0].pc == Done([])
  }

  /** The scanner stops, the worker leaves, and the last Flush is about to hear from the server. */
  lemma StopPlay(server: Server, sites: iset<Site>, start: Site) returns (s: Site)
    requires Closed(server, sites) && start in sites && start.pool.yielded == [BLANK] && start.pool.channel == []
    requires start.pool.phase.Scanning? && start.pool.scanErr == [] && start.pool.failed == 0 && start.pool.workers == [Busy(0)]
    requires Appended(start.pool.sys)
    ensures s in sites && s.index == start.index && s.pool.yielded == [BLANK]
    ensures s.pool.sys == start.pool.sys.(threads := s.pool.sys.threads)
    ensures s.pool.phase == Flushing(1) && s.pool.scanErr == [] && s.pool.failed == 0
    ensures s.pool.sys.threads == start.pool.sys.threads + [Thread(UploadSystem.Flush, AwaitFlushMu(None, None), None)]
  {
    s := Go(server, sites, start, Return(0));
    assert s.pool.workers == [Free];
    s := Go(server, sites, s, Stop(None));
    s := Go(server, sites, s, Exit(0));
    assert s.pool.workers == [Exited];
    s := Go(server, sites, s, StartFlush);
  }

  lemma FlushPlay(server: Server, sites: iset<Site>, start: Site) returns (s: Site)
    requires Closed(server, sites) && start in sites && start.pool.phase == Flushing(1) && start.pool.scanErr == []
    requires var sys := start.pool.sys;
             && sys.mu == None && sys.flushMu == None && sys.fields.buf == [BLANK] && sys.fields.flushErr == None
             && sys.log.takes == [] && sys.log.fates == [] && |sys.threads| == 2
             && sys.threads[1] == Thread(UploadSystem.Flush, AwaitFlushMu(None, None), None)
    ensures s in sites && s.index == start.index && s.pool == start.pool.(sys := s.pool.sys)
    ensures Waits(s.pool)
  {
    s := Go(server, sites, start, Inner(Step(1, true)));
    s := Go(server, sites, s, Inner(Step(1, true)));
    s := Go(server, sites, s, Inner(Step(1, true)));
  }

  /** The Flush waits for the answer to its only page. */
  ghost predicate Waits(p: Pool) {
    && |p.sys.threads| == 2 && p.sys.threads[1].call == UploadSystem.Flush
    && p.sys.threads[1].pc == Uploading(Batch(0, [BLANK]), [], None)
  }

  /** The server indexes the page, or answers with a conflict if it knows it. */
  lemma AnswerPlay(server: Server, sites: iset<Site>, start: Site) returns (s: Site)
    requires Closed(server, sites) && start in sites && Waits(start.pool) && server.readable([])
    ensures s in sites && s.pool == start.pool.(sys := s.pool.sys) && |s.pool.sys.threads| == 2
    ensures ContentOf(server, BLANK) in s.index.entries
    ensures s.pool.sys.threads[1].pc
            == Unlocking(if ContentOf(server, BLANK) in start.index.entries then [UploadFailed(0)] else [], None)
  {
    assert Request(server, start.pool, 1) == [FileOf(server, BLANK)];
    if ContentOf(server, BLANK) in start.index.entries {
      s := RefusePlay(server, sites, start);
    } else {
      s := IndexPlay(server, sites, start);
    }
  }

  lemma SendPlay(server: Server, sites: iset<Site>, start: Site, work: seq<P.Event>, w: P.World) returns (s: Site)
    requires Closed(server, sites) && start in sites && Waits(start.pool)
    requires R.Serve(start.index, Request(server, start.pool, 1), work) == Some(w) && R.Served(w)
    ensures s in sites && s.pool == start.pool.(sys := s.pool.sys) && |s.pool.sys.threads| == 2 && s.index == w.index
    ensures s.pool.sys.threads[1].pc == Unlocking(if R.Takes(R.Results(w)) then [] else [UploadFailed(0)], None)
  {
    s := Next(server, start, Sends(1, work, true));
    assert [] + [UploadFailed(0)] == [UploadFailed(0)];
  }

  lemma RefusePlay(server: Server, sites: iset<Site>, start: Site) returns (s: Site)
    requires Closed(server, sites) && start in sites && Waits(start.pool) && server.readable([])
    requires Request(server, start.pool, 1) == [FileOf(server, BLANK)] && ContentOf(server, BLANK) in start.index.entries
    ensures s in sites && s.pool == start.pool.(sys := s.pool.sys) && |s.pool.sys.threads| == 2
    ensures s.pool.sys.threads[1].pc == Unlocking([UploadFailed(0)], None) && ContentOf(server, BLANK) in s.index.entries
  {
    var files, work := [FileOf(server, BLANK)], [R.GO, R.GO];
    R.SecondPlay(start.index, files[0]);
    var w := R.Serve(start.index, files, work).value;
    assert R.Results(w) == [R.StatusOf(w.attempts[0].stage)];
    R.ReservedIsLeftAlone(start.index, files, work);
    s := SendPlay(server, sites, start, work, w);
  }

  lemma IndexPlay(server: Server, sites: iset<Site>, start: Site) returns (s: Site)
    requires Closed(server, sites) && start in sites && Waits(start.pool) && server.readable([])
    requires Request(server, start.pool, 1) == [FileOf(server, BLANK)] && ContentOf(server, BLANK) !in start.index.entries
    ensures s in sites && s.pool == start.pool.(sys := s.pool.sys) && |s.pool.sys.threads| == 2
    ensures s.pool.sys.threads[1].pc == Unlocking([], None) && ContentOf(server, BLANK) in s.index.entries
  {
    var files, work := [FileOf(server, BLANK)], [R.GO, R.GO, R.GO];
    R.FirstPlay(start.index, files[0]);
    var w := R.Serve(start.index, files, work).value;
    assert R.Results(w) == [U.Indexed] && !R.Results(w)[0].Duplicate?;
    s := SendPlay(server, sites, start, work, w);
  }

  /** The Flush hands what it got to ScanPages. */
  lemma FinishPlay(server: Server, sites: iset<Site>, start: Site, errors: seq<Error>) returns (s: Site)
    requires Closed(server, sites) && start in sites && start.pool.phase == Flushing(1)
    requires |start.pool.sys.threads| == 2 && start.pool.scanErr == [] && start.pool.failed == 0
    requires start.pool.sys.threads[1].pc == Unlocking(errors, None)
    ensures s in sites && s.pool.phase == Finished(1) && s.pool.yielded == start.pool.yielded && s.index == start.index
    ensures s.pool.scanErr == if errors == [] then [] else [FlushFailed(errors)]
  {
    s := Go(server, sites, start, Inner(Step(1, true)));
    assert s.pool.sys.threads[1].pc == Done(errors);
    s := Go(server, sites, s, Finish);
  }

  /** Over any index there is a run in which one page is scanned, received, uploaded and answered without any
      trouble. If its content is new ScanPages returns nil, and if it is known the very same run of the scan
      reports that its upload failed; either way the content is in the index at the end. */
  lemma OnePageScan(server: Server, config: Config, index: D.Index) returns (events: seq<Event>)
    requires config.Valid() && config.maxPages >= 2 && server.readable([])
    ensures var s := Run(server, Site(Start(config, "s", 1), index), events);
            && s.Some? && s.value.pool.phase.Finished? && s.value.pool.yielded == [BLANK]
            && ContentOf(server, BLANK) in s.value.index.entries
            && s.value.pool.scanErr == if ContentOf(server, BLANK) in index.entries then [FlushFailed([UploadFailed(0)])] else []
  {
    var start := Site(Start(config, "s", 1), index);
    ReachIsClosed(server, start);
    var s := YieldPlay(server, Reach(server, start), start, config);
    s := ScanPlay(server, Reach(server, start), s, config);
    s := StopPlay(server, Reach(server, start), s);
    s := FlushPlay(server, Reach(server, start), s);
    s := AnswerPlay(server, Reach(server, start), s);
    s := FinishPlay(server, Reach(server, start), s, s.pool.sys.threads[1].pc.errors);
    assert Arises(server, start, s);
    events :| Run(server, start, events) == Some(s);
  }

  /** So a scan that went well and cannot be repeated does exist. */
  lemma RescanPlay(server: Server, config: Config) returns (first: seq<Event>, second: seq<Event>)
    requires config.Valid() && config.maxPages >= 2 && server.readable([])
    ensures var s := Run(server, Site(Start(config, "s", 1), R.EMPTY), first);
            && s.Some? && s.value.pool.phase.Finished? && s.value.pool.scanErr == []
            && var t := Run(server, Site(Start(config, "s", 1), s.value.index), second);
            && t.Some? && t.value.pool.phase.Finished? && t.value.pool.scanErr != []
            && t.value.pool.yielded == s.value.pool.yielded
  {
    first := OnePageScan(server, config, R.EMPTY);
    second := OnePageScan(server, config, Run(server, Site(Start(config, "s", 1), R.EMPTY), first).value.index);
  }
}
