/** One ScanPages run of pkg/ingestor/ingest.go over a RemoteBackend: the scan loop, the bounded
    channel, the workers and the final Flush, interleaved with idle timers and Close calls. */
module ScanPool {
  import opened Common
  import opened RemoteBackend
  import opened UploadSystem
  import opened UploadSafety

  const DEFAULT_WORKERS := 10
  const MAX_PAGE_BYTES := 100 * 1024 * 1024

  datatype Worker = Free | Busy(thread: nat) | Exited

  datatype Phase = Scanning | Closed | Flushing(flush: nat) | Finished(flush: nat)

  datatype ScanError =
    | Cancelled | ScannerFailed | Unreadable(sequenceID: nat) | TooLarge(sequenceID: nat)
    | FlushFailed(errors: seq<Error>) | PagesFailed(failed: nat, total: nat)

  /** `yielded`, `starts` and `returned` are history: the pages the scanner yielded, the threads that
      run ProcessPage in the order their pages were received, and those whose result was counted. */
  datatype Pool = Pool(
    sys: System, scanID: string, workers: seq<Worker>, channel: seq<Page>, phase: Phase,
    scanErr: seq<ScanError>, failed: nat, yielded: seq<Page>, starts: seq<nat>, returned: set<nat>)

  function Start(config: Config, scanID: string, workers: int): Pool {
    var n := if workers <= 0 then DEFAULT_WORKERS else workers;
    Pool(UploadSystem.Init(config), scanID, seq(n, _ => Free), [], Scanning, [], 0, [], [], {})
  }

  datatype Cancel = Never | BeforeSend | AfterSend

  datatype Event =
    | Yield(data: seq<byte>, readable: bool, cancel: Cancel)
    | Stop(error: Option<ScanError>)
    | Receive(worker: nat, live: bool)
    | Return(worker: nat)
    | Exit(worker: nat)
    | StartFlush
    | Finish
    | Inner(event: UploadSystem.Event)

  predicate Sends(data: seq<byte>, readable: bool, cancel: Cancel) {
    readable && |data| <= MAX_PAGE_BYTES && !cancel.BeforeSend?
  }

  /** The scanner yields a page: read it, check its size, send it, wait for the next. */
  function Scan(p: Pool, data: seq<byte>, readable: bool, cancel: Cancel): Pool {
    var n := |p.yielded| + 1;
    var page := Page(p.scanID, n, data);
    var q := p.(yielded := p.yielded + [page]);
    if !readable then q.(scanErr := [Unreadable(n)], phase := Closed)
    else if |data| > MAX_PAGE_BYTES then q.(scanErr := [TooLarge(n)], phase := Closed)
    else match cancel
      case BeforeSend => q.(scanErr := [Cancelled], phase := Closed)
      case AfterSend => q.(channel := p.channel + [page], scanErr := [Cancelled], phase := Closed)
      case Never => q.(channel := p.channel + [page])
  }

  predicate IsFree(p: Pool, w: nat) { w < |p.workers| && p.workers[w] == Free }

  predicate HasResult(p: Pool, w: nat) {
    w < |p.workers| && p.workers[w].Busy? && p.workers[w].thread < |p.sys.threads|
    && p.sys.threads[p.workers[w].thread].pc.Done?
  }

  predicate AllExited(p: Pool) { forall w <- p.workers :: w == Exited }

  predicate Possible(p: Pool, e: Event) {
    match e
    case Yield(data, readable, cancel) => p.phase.Scanning? && (Sends(data, readable, cancel) ==> |p.channel| < |p.workers|)
    case Stop(error) => p.phase.Scanning? && (error.Some? ==> error.value.Cancelled? || error.value.ScannerFailed?)
    case Receive(w, _) => IsFree(p, w) && p.channel != []
    case Return(w) => HasResult(p, w)
    case Exit(w) => IsFree(p, w) && p.channel == [] && !p.phase.Scanning?
    case StartFlush => p.phase.Closed? && AllExited(p)
    case Finish => p.phase.Flushing? && p.phase.flush < |p.sys.threads| && p.sys.threads[p.phase.flush].pc.Done?
    case Inner(inner) => Enabled(p.sys, inner) && (inner.Invoke? ==> inner.call.Close?)
  }

  function Advance(p: Pool, e: Event): Pool
    requires Possible(p, e)
  {
    match e
    case Yield(data, readable, cancel) => Scan(p, data, readable, cancel)
    case Stop(error) => p.(phase := Closed, scanErr := if error.Some? then [error.value] else [])
    case Receive(w, live) =>
      var q := p.(channel := p.channel[1..]);
      if !live then q.(failed := p.failed + 1)
      else q.(sys := Spawn(p.sys, Process(p.channel[0])), workers := p.workers[w := Busy(|p.sys.threads|)],
              starts := p.starts + [|p.sys.threads|])
    case Return(w) =>
      var t := p.workers[w].thread;
      p.(workers := p.workers[w := Free], returned := p.returned + {t},
         failed := if p.sys.threads[t].pc.errors == [] then p.failed else p.failed + 1)
    case Exit(w) => p.(workers := p.workers[w := Exited])
    case StartFlush => p.(sys := Spawn(p.sys, Flush), phase := Flushing(|p.sys.threads|))
    case Finish =>
      var errors := p.sys.threads[p.phase.flush].pc.errors;
      p.(phase := Finished(p.phase.flush),
         scanErr := p.scanErr + (if errors == [] then [] else [FlushFailed(errors)])
                    + (if p.failed == 0 then [] else [PagesFailed(p.failed, |p.yielded|)]))
    case Inner(inner) => p.(sys := Next(p.sys, inner))
  }

  // ---------------------------------------------------------------- invariants

  /** The page of the i-th call is the i-th page; what is neither failed nor received is in the channel. */
  ghost predicate Pages(p: Pool) {
    && (p.phase.Scanning? ==> p.scanErr == [])
    && (forall i | 0 <= i < |p.yielded| :: p.yielded[i].sequenceID == i + 1)
    && (p.scanErr == [] && p.failed == 0 ==>
          && |p.starts| + |p.channel| == |p.yielded| && p.channel == p.yielded[|p.starts|..]
          && forall i: nat | i < |p.starts| && p.starts[i] < |p.sys.threads| ::
               p.sys.threads[p.starts[i]].call == Process(p.yielded[i]))
  }

  /** The ProcessPage calls are exactly the ones the workers started. */
  ghost predicate Calls(p: Pool) {
    && (forall i: nat | i < |p.starts| :: p.starts[i] < |p.sys.threads|)
    && (forall i: nat, j: nat | i < j < |p.starts| :: p.starts[i] < p.starts[j])
    && (forall t: nat | t < |p.sys.threads| && p.sys.threads[t].call.Process? :: t in p.starts)
  }

  /** A call that was started is with a worker until its result has been counted. */
  ghost predicate Staff(p: Pool) {
    && 0 < |p.workers| && |p.channel| <= |p.workers|
    && (forall t <- p.starts :: t in p.returned || Busy(t) in p.workers)
    && (forall t <- p.returned :: t < |p.sys.threads| && p.sys.threads[t].pc.Done?
                                  && (p.failed == 0 ==> p.sys.threads[t].pc.errors == []))
    && (forall w <- p.workers :: w.Busy? ==> w.thread < |p.sys.threads|)
    && (Exited in p.workers ==> !p.phase.Scanning? && p.channel == [])
    && (p.phase.Flushing? || p.phase.Finished? ==> AllExited(p))
  }

  /** There is no Flush but the last one. */
  ghost predicate LastFlush(p: Pool) {
    && (p.phase.Flushing? || p.phase.Finished? ==>
          p.phase.flush < |p.sys.threads| && p.sys.threads[p.phase.flush].call == Flush)
    && (forall t: nat | t < |p.sys.threads| && p.sys.threads[t].call.Flush? ::
          (p.phase.Flushing? || p.phase.Finished?) && p.phase.flush == t)
    && (p.phase.Finished? ==> p.sys.threads[p.phase.flush].pc.Done?)
    && (p.phase.Finished? && p.scanErr == [] ==> p.failed == 0 && p.sys.threads[p.phase.flush].pc == Done([]))
  }

  /** After the last Flush has drained the buffer only its own batch is left, and if it has seen no
      error then no upload has failed. */
  ghost predicate Settled(sys: System, f: nat, failed: nat) {
    f < |sys.threads| && HasDrained(sys.threads[f].pc) ==>
      && sys.fields.buf == []
      && (forall t: nat | t < |sys.threads| && t != f ::
            HeldBatch(sys.threads[t].pc).None? && !IsRecording(sys.threads[t].pc))
      && (failed == 0 && ErrorsSoFar(sys.threads[f].pc) == [] ==>
            sys.fields.flushErr.None? && forall k: nat | k < |sys.log.fates| :: !sys.log.fates[k].Rejected?)
  }

  ghost predicate Ledger(p: Pool) { Pages(p) && Calls(p) && Staff(p) && LastFlush(p) }

  ghost predicate PoolInv(p: Pool) {
    && Inv(p.sys) && Ledger(p)
    && (p.phase.Flushing? || p.phase.Finished? ==> Settled(p.sys, p.phase.flush, p.failed))
  }

  lemma StartInv(config: Config, scanID: string, workers: int)
    requires config.Valid()
    ensures PoolInv(Start(config, scanID, workers))
  {
    InitInv(config);
    StartLedger(config, scanID, workers);
  }

  lemma StartLedger(config: Config, scanID: string, workers: int)
    ensures Ledger(Start(config, scanID, workers))
  {}

  lemma YieldLedger(p: Pool, data: seq<byte>, readable: bool, cancel: Cancel)
    requires Ledger(p) && Possible(p, Yield(data, readable, cancel))
    ensures Ledger(Scan(p, data, readable, cancel))
  {}

  lemma StopLedger(p: Pool, error: Option<ScanError>)
    requires Ledger(p) && Possible(p, Stop(error))
    ensures Ledger(Advance(p, Stop(error)))
  {}

  lemma NotAllExited(p: Pool, w: nat)
    requires w < |p.workers| && p.workers[w] != Exited && Staff(p)
    ensures !p.phase.Flushing? && !p.phase.Finished?
  {
    assert p.workers[w] in p.workers;
  }

  lemma ReceiveLedger(p: Pool, w: nat, live: bool)
    requires Ledger(p) && Possible(p, Receive(w, live))
    ensures Ledger(Advance(p, Receive(w, live)))
  {
    NotAllExited(p, w);
    var q := Advance(p, Receive(w, live));
    if live {
      forall t <- q.starts ensures t in q.returned || Busy(t) in q.workers {
        if t in p.starts && Busy(t) in p.workers {
          var v :| 0 <= v < |p.workers| && p.workers[v] == Busy(t);
          assert q.workers[v] == Busy(t);
        } else {
          assert t in p.starts || q.workers[w] == Busy(t);
        }
      }
    }
  }

  lemma ReturnLedger(p: Pool, w: nat)
    requires Ledger(p) && Possible(p, Return(w))
    ensures Ledger(Advance(p, Return(w)))
  {
    NotAllExited(p, w);
    var q := Advance(p, Return(w));
    forall t <- q.starts ensures t in q.returned || Busy(t) in q.workers {
      if Busy(t) in p.workers {
        var v :| 0 <= v < |p.workers| && p.workers[v] == Busy(t);
        assert v == w || q.workers[v] == Busy(t);
      }
    }
  }

  lemma ExitLedger(p: Pool, w: nat)
    requires Ledger(p) && Possible(p, Exit(w))
    ensures Ledger(Advance(p, Exit(w)))
  {
    NotAllExited(p, w);
    var q := Advance(p, Exit(w));
    forall t <- q.starts ensures t in q.returned || Busy(t) in q.workers {
      if Busy(t) in p.workers {
        var v :| 0 <= v < |p.workers| && p.workers[v] == Busy(t);
        assert q.workers[v] == Busy(t);
      }
    }
  }

  lemma StartFlushLedger(p: Pool)
    requires Ledger(p) && Possible(p, StartFlush)
    ensures Ledger(Advance(p, StartFlush))
  {}

  lemma FinishLedger(p: Pool)
    requires Ledger(p) && Possible(p, Finish)
    ensures Ledger(Advance(p, Finish))
  {}

  /** The calls stay what they are, a finished one keeps its result, and new threads bring no pages. */
  ghost predicate Onward(was: seq<Thread>, now: seq<Thread>) {
    && |was| <= |now|
    && (forall t: nat | t < |was| :: now[t].call == was[t].call && (was[t].pc.Done? ==> now[t] == was[t]))
    && (forall t: nat | |was| <= t < |now| :: now[t].call.Close? || now[t].call.Idle?)
  }

  lemma InnerOnward(p: Pool, inner: UploadSystem.Event)
    requires Possible(p, Inner(inner))
    ensures Onward(p.sys.threads, UploadSystem.Next(p.sys, inner).threads)
  {
    if inner.Step? {
      StepFrame(p.sys, inner.thread, inner.ok);
    }
  }

  /** Steps of the backend change neither what calls there are nor the result of a finished one. */
  lemma InnerLedger(p: Pool, inner: UploadSystem.Event)
    requires Ledger(p) && Possible(p, Inner(inner))
    ensures Ledger(Advance(p, Inner(inner)))
  {
    InnerOnward(p, inner);
    var q := Advance(p, Inner(inner));
    OnwardPages(p, q);
    OnwardStaff(p, q);
  }

  lemma OnwardPages(p: Pool, q: Pool)
    requires Pages(p) && Calls(p) && LastFlush(p) && q == p.(sys := q.sys) && Onward(p.sys.threads, q.sys.threads)
    ensures Pages(q) && Calls(q) && LastFlush(q)
  {}

  lemma OnwardStaff(p: Pool, q: Pool)
    requires Staff(p) && q == p.(sys := q.sys) && Onward(p.sys.threads, q.sys.threads)
    ensures Staff(q)
  {}

  // ---------------------------------------------------------------- after the last drain

  /** Once the workers are gone every ProcessPage call has returned. */
  lemma WorkersGone(p: Pool)
    requires Ledger(p) && AllExited(p)
    ensures forall t: nat | t < |p.sys.threads| && p.sys.threads[t].call.Process? ::
              p.sys.threads[t].pc.Done? && (p.failed == 0 ==> p.sys.threads[t].pc.errors == [])
  {
    forall t: nat | t < |p.sys.threads| && p.sys.threads[t].call.Process? ensures t in p.returned {
      assert t in p.starts;
    }
  }

  ghost predicate AllReturned(s: System, failed: nat) {
    forall t: nat | t < |s.threads| && s.threads[t].call.Process? ::
      s.threads[t].pc.Done? && (failed == 0 ==> s.threads[t].pc.errors == [])
  }

  ghost predicate OnlyFlush(s: System, f: nat) {
    f < |s.threads| && s.threads[f].call == Flush
    && forall t: nat | t < |s.threads| && s.threads[t].call.Flush? :: t == f
  }

  /** At the moment of the last drain `flushMu` is held by the Flush and all other calls have returned,
      so no other thread has a batch or an error on its way. */
  lemma DrainSettles(s: System, f: nat, failed: nat)
    requires Inv(s) && AllReturned(s, failed) && OnlyFlush(s, f) && s.threads[f].pc == InMu(Draining)
    ensures Settled(RunDrain(s, f), f, failed)
  {
    var r := RunDrain(s, f);
    forall t: nat | t < |r.threads| && t != f
      ensures HeldBatch(r.threads[t].pc).None? && !IsRecording(r.threads[t].pc)
    {
      OthersIdle(s, f, t, failed);
      assert r.threads[t] == s.threads[t];
    }
    if failed == 0 && s.fields.flushErr.None? {
      forall k: nat | k < |s.log.fates| ensures !s.log.fates[k].Rejected? {
        NoRejection(s, f, k);
      }
    }
    assert ErrorsSoFar(r.threads[f].pc) == Previous(s.fields);
  }

  lemma OthersIdle(s: System, f: nat, t: nat, failed: nat)
    requires Inv(s) && AllReturned(s, failed) && OnlyFlush(s, f) && s.threads[f].pc == InMu(Draining)
    requires t < |s.threads| && t != f
    ensures HeldBatch(s.threads[t].pc).None? && !IsRecording(s.threads[t].pc)
  {
    assert HoldsFlushMu(s.threads[f].pc) && !HoldsFlushMu(s.threads[t].pc);
    assert Shape(s.threads[t].call, s.threads[t].pc);
  }

  lemma NoRejection(s: System, f: nat, k: nat)
    requires Inv(s) && AllReturned(s, 0) && OnlyFlush(s, f) && s.threads[f].pc == InMu(Draining)
    requires s.fields.flushErr.None? && k < |s.log.fates|
    ensures !s.log.fates[k].Rejected?
  {
    assert Accounted(s.threads, s.log.notes, s.log.fates[k], k);
    if s.log.fates[k].Rejected? {
      var t := s.log.fates[k].thread;
      if t != f {
        OthersIdle(s, f, t, 0);
      }
      NothingRecorded(s, f);
    }
  }

  /** Before the only Flush has drained, a recorded failure is still in `flushErr`. */
  lemma NothingRecorded(s: System, f: nat)
    requires Inv(s) && OnlyFlush(s, f) && s.threads[f].pc == InMu(Draining) && s.fields.flushErr.None?
    ensures s.log.notes == []
  {
    if s.log.notes != [] {
      var n: nat := |s.log.notes| - 1;
      assert Reports(s.threads, s.log.notes, n);
      FirstOfRun(s.log.notes, 0);
    }
  }

  /** What is settled stays settled. */
  lemma SettledStep(s: System, f: nat, failed: nat, t: nat, ok: bool)
    requires Inv(s) && AllReturned(s, failed) && OnlyFlush(s, f) && Settled(s, f, failed) && Ready(s, t)
    ensures Settled(Run(s, t, ok), f, failed)
  {
    assert Shape(s.threads[t].call, s.threads[t].pc);
    StepFrame(s, t, ok);
    if t == f {
      FlushStep(s, f, failed, ok);
    } else if HasDrained(s.threads[f].pc) {
      OtherStep(s, t, ok);
    }
  }

  lemma FlushStep(s: System, f: nat, failed: nat, ok: bool)
    requires Inv(s) && AllReturned(s, failed) && OnlyFlush(s, f) && Settled(s, f, failed) && Ready(s, f)
    ensures Settled(Run(s, f, ok), f, failed)
  {
    assert Shape(s.threads[f].call, s.threads[f].pc);
    if s.threads[f].pc.InMu? {
      DrainSettles(s, f, failed);
    } else if HasDrained(s.threads[f].pc) {
      DrainedFlushStep(s, f, failed, ok);
    }
  }

  lemma DrainedFlushStep(s: System, f: nat, failed: nat, ok: bool)
    requires Custody(s.threads, s.log) && f < |s.threads| && s.threads[f].call == Flush
    requires s.threads[f].pc.Uploading? || s.threads[f].pc.Unlocking?
    requires Shape(s.threads[f].call, s.threads[f].pc) && Settled(s, f, failed)
    ensures Settled(Run(s, f, ok), f, failed)
  {
    assert Keeps(s.threads[f].pc, f, s.log);
  }

  /** With an empty buffer and nothing in hand, a Close or an idle callback only passes through. */
  lemma OtherStep(s: System, t: nat, ok: bool)
    requires Ready(s, t) && Shape(s.threads[t].call, s.threads[t].pc) && s.fields.buf == []
    requires s.threads[t].call.Close? || s.threads[t].call.Idle?
    requires HeldBatch(s.threads[t].pc).None? && !IsRecording(s.threads[t].pc)
    ensures var r := Run(s, t, ok);
            && r.fields.buf == [] && r.fields.flushErr == s.fields.flushErr && r.log == s.log
            && HeldBatch(r.threads[t].pc).None? && !IsRecording(r.threads[t].pc)
  {}

  lemma LedgerNext(p: Pool, e: Event)
    requires Ledger(p) && Possible(p, e)
    ensures Ledger(Advance(p, e))
  {
    match e
    case Yield(data, readable, cancel) => YieldLedger(p, data, readable, cancel);
    case Stop(error) => StopLedger(p, error);
    case Receive(w, live) => ReceiveLedger(p, w, live);
    case Return(w) => ReturnLedger(p, w);
    case Exit(w) => ExitLedger(p, w);
    case StartFlush => StartFlushLedger(p);
    case Finish => FinishLedger(p);
    case Inner(inner) => InnerLedger(p, inner);
  }

  lemma BackendNext(p: Pool, e: Event)
    requires Inv(p.sys) && Possible(p, e)
    ensures Inv(Advance(p, e).sys)
  {
    match e
    case Receive(w, live) => if live { SpawnInv(p.sys, Process(p.channel[0])); }
    case StartFlush => SpawnInv(p.sys, Flush);
    case Inner(inner) => NextInv(p.sys, inner);
    case _ =>
  }

  predicate Ending(phase: Phase) { phase.Flushing? || phase.Finished? }

  lemma SettledNext(p: Pool, e: Event)
    requires PoolInv(p) && Possible(p, e)
    ensures var q := Advance(p, e); Ending(q.phase) ==> Settled(q.sys, q.phase.flush, q.failed)
  {
    if Ending(p.phase) {
      match e
      case Receive(w, _) => NotAllExited(p, w);
      case Return(w) => NotAllExited(p, w);
      case Exit(w) => NotAllExited(p, w);
      case Inner(inner) => SettledInner(p, inner);
      case _ =>
    }
  }

  lemma SettledInner(p: Pool, inner: UploadSystem.Event)
    requires Inv(p.sys) && Ledger(p) && Ending(p.phase) && Settled(p.sys, p.phase.flush, p.failed) && Possible(p, Inner(inner))
    ensures var q := Advance(p, Inner(inner)); Settled(q.sys, p.phase.flush, p.failed)
  {
    if inner.Step? {
      WorkersGone(p);
      SettledStep(p.sys, p.phase.flush, p.failed, inner.thread, inner.ok);
    }
  }

  lemma PoolNext(p: Pool, e: Event)
    requires PoolInv(p) && Possible(p, e)
    ensures PoolInv(Advance(p, e))
  {
    LedgerNext(p, e);
    BackendNext(p, e);
    SettledNext(p, e);
  }

  /** A whole run of ScanPages: from its start, through the events, to a state. */
  function Play(p: Pool, events: seq<Event>): Option<Pool> {
    if events == [] then Some(p)
    else match Play(p, events[..|events| - 1])
      case None => None
      case Some(m) => if Possible(m, events[|events| - 1]) then Some(Advance(m, events[|events| - 1])) else None
  }

  lemma {:induction false} PlayInv(p: Pool, events: seq<Event>)
    requires PoolInv(p) && Play(p, events).Some?
    ensures PoolInv(Play(p, events).value)
  {
    if events != [] {
      PlayInv(p, events[..|events| - 1]);
      PoolNext(Play(p, events[..|events| - 1]).value, events[|events| - 1]);
    }
  }

  /** The state is reached by a ScanPages call over a new backend with some limits and workers. */
  ghost predicate Reached(p: Pool) {
    exists config: Config, scanID, workers, events ::
      config.Valid() && Play(Start(config, scanID, workers), events) == Some(p)
  }

  lemma ReachedInv(p: Pool)
    requires Reached(p)
    ensures PoolInv(p)
  {
    var config: Config, scanID, workers, events :|
      config.Valid() && Play(Start(config, scanID, workers), events) == Some(p);
    StartInv(config, scanID, workers);
    PlayInv(Start(config, scanID, workers), events);
  }

  // ---------------------------------------------------------------- what a run guarantees

  /** However a scan ends, nothing stays behind in the buffer or in a batch that was not attempted. */
  lemma NothingLeftBehind(p: Pool)
    requires Reached(p) && p.phase.Finished?
    ensures p.sys.fields.buf == [] && p.channel == [] && p.sys.log.accepted == Flatten(p.sys.log.takes)
    ensures forall k: nat | k < |p.sys.log.fates| :: !p.sys.log.fates[k].Held?
  {
    ReachedInv(p);
    FinishedClean(p);
  }

  lemma FinishedClean(p: Pool)
    requires PoolInv(p) && p.phase.Finished?
    ensures p.sys.fields.buf == [] && p.channel == [] && p.sys.log.accepted == Flatten(p.sys.log.takes)
    ensures forall k: nat | k < |p.sys.log.fates| :: !p.sys.log.fates[k].Held?
    ensures p.scanErr == [] ==> forall k: nat | k < |p.sys.log.fates| :: p.sys.log.fates[k] == Accepted
  {
    assert p.workers[0] in p.workers;
    forall k: nat | k < |p.sys.log.fates| ensures !p.sys.log.fates[k].Held? {}
  }

  /** If ScanPages returns nil, the batches the server accepted hold every page the scanner yielded
      exactly once and nothing else, and no batch was refused or left over. */
  lemma NoSilentLoss(p: Pool)
    requires Reached(p) && p.phase.Finished? && p.scanErr == []
    ensures |p.sys.log.fates| == |p.sys.log.takes|
    ensures forall k: nat | k < |p.sys.log.fates| :: p.sys.log.fates[k] == Accepted
    ensures Distinct(p.yielded)
    ensures multiset(PagesWith(p.sys.log.takes, p.sys.log.fates, Kept)) == multiset(p.yielded)
  {
    ReachedInv(p);
    FinishedClean(p);
    AllKept(p.sys.log.takes, p.sys.log.fates);
    AcceptedAreYielded(p);
    YieldedAreAccepted(p);
    AcceptedDistinct(p);
    SameElements(p.sys.log.accepted, p.yielded);
  }

  lemma {:induction false} AllKept(takes: seq<seq<Page>>, fates: seq<Fate>)
    requires |takes| == |fates| && forall k: nat | k < |fates| :: fates[k] == Accepted
    ensures PagesWith(takes, fates, Kept) == Flatten(takes)
  {
    if takes != [] {
      AllKept(takes[..|takes| - 1], fates[..|fates| - 1]);
    }
  }

  /** The thread that appended page i is a started call, for the page of the same position. */
  lemma OriginStarted(p: Pool, i: nat) returns (j: nat)
    requires PoolInv(p) && p.phase.Finished? && p.scanErr == [] && i < |p.sys.log.accepted|
    ensures j < |p.starts| && j < |p.yielded| && p.starts[j] == p.sys.log.origins[i] && p.sys.log.accepted[i] == p.yielded[j]
  {
    var t := p.sys.log.origins[i];
    assert Ticketed(p.sys.threads[t], t, p.sys.log);
    j :| 0 <= j < |p.starts| && p.starts[j] == t;
  }

  lemma AcceptedAreYielded(p: Pool)
    requires PoolInv(p) && p.phase.Finished? && p.scanErr == []
    ensures forall x <- p.sys.log.accepted :: x in p.yielded
  {
    forall i: nat | i < |p.sys.log.accepted| ensures p.sys.log.accepted[i] in p.yielded {
      var j := OriginStarted(p, i);
    }
  }

  lemma AcceptedDistinct(p: Pool)
    requires PoolInv(p) && p.phase.Finished? && p.scanErr == []
    ensures Distinct(p.sys.log.accepted)
  {
    forall i: nat, k: nat | i < k < |p.sys.log.accepted| ensures p.sys.log.accepted[i] != p.sys.log.accepted[k] {
      var j := OriginStarted(p, i);
      var l := OriginStarted(p, k);
      assert p.sys.threads[p.sys.log.origins[i]].ticket == Some(i);
      assert p.sys.threads[p.sys.log.origins[k]].ticket == Some(k);
      assert j != l && p.yielded[j].sequenceID == j + 1 && p.yielded[l].sequenceID == l + 1;
    }
  }

  lemma YieldedAreAccepted(p: Pool)
    requires PoolInv(p) && p.phase.Finished? && p.scanErr == []
    ensures forall x <- p.yielded :: x in p.sys.log.accepted
  {
    WorkersGone(p);
    assert p.workers[0] in p.workers;
    forall i: nat | i < |p.yielded| ensures p.yielded[i] in p.sys.log.accepted {
      var t := p.starts[i];
      assert p.sys.threads[t].call == Process(p.yielded[i]);
      TicketOf(p.sys, t, p.yielded[i]);
    }
  }

  lemma TicketOf(s: System, t: nat, page: Page)
    requires Tickets(s.threads, s.log) && t < |s.threads|
    requires s.threads[t].call == Process(page) && s.threads[t].pc == Done([])
    ensures page in s.log.accepted
  {
    assert Ticketed(s.threads[t], t, s.log);
  }

  // ---------------------------------------------------------------- exactly when a scan returns nil

  /** The scanner yields a page that can be read, is not too large and is sent in time, or it stops without
      an error. */
  predicate ScansWell(e: Event) {
    && (e.Yield? ==> e.readable && |e.data| <= MAX_PAGE_BYTES && e.cancel.Never?)
    && (e.Stop? ==> e.error.None?)
  }

  /** A page is received after the context has ended. */
  predicate Drops(e: Event) { e.Receive? && !e.live }

  function DropCount(events: seq<Event>): nat {
    if events == [] then 0
    else DropCount(events[..|events| - 1]) + if Drops(events[|events| - 1]) then 1 else 0
  }

  predicate Erred(threads: seq<Thread>, t: nat) { t < |threads| && threads[t].pc.Done? && threads[t].pc.errors != [] }

  /** The ProcessPage calls whose result was counted as a failure. */
  ghost function Failures(p: Pool): set<nat> { set t | t in p.returned && Erred(p.sys.threads, t) }

  /** No two workers have the same call, and none has one that was counted. */
  ghost predicate OnePlace(p: Pool) {
    && (forall t <- p.starts :: t < |p.sys.threads| && p.sys.threads[t].call.Process?)
    && (forall t <- p.returned :: t < |p.sys.threads| && p.sys.threads[t].pc.Done? && t in p.starts)
    && (forall w: nat | w < |p.workers| && p.workers[w].Busy? ::
          p.workers[w].thread < |p.sys.threads| && p.workers[w].thread !in p.returned && p.workers[w].thread in p.starts)
    && forall v: nat, w: nat | v < w < |p.workers| && p.workers[v].Busy? :: p.workers[v] != p.workers[w]
  }

  ghost predicate FlushClean(p: Pool) {
    p.phase.Finished? && p.phase.flush < |p.sys.threads| && p.sys.threads[p.phase.flush].pc == Done([])
  }

  /** The count of failed pages by what happened. */
  ghost predicate Counts(p: Pool, drops: nat) { OnePlace(p) && p.failed == drops + |Failures(p)| }

  predicate Mentions(errors: seq<ScanError>, failed: nat, total: nat) { PagesFailed(failed, total) in errors }

  /** The error so far. */
  ghost predicate Verdict(p: Pool, well: bool) {
    if p.phase.Finished? then
      && (p.scanErr == [] <==> well && p.failed == 0 && FlushClean(p))
      && (forall n, m :: Mentions(p.scanErr, n, m) <==> n == p.failed && n > 0 && m == |p.yielded|)
    else (p.scanErr == [] <==> well) && forall n, m :: !Mentions(p.scanErr, n, m)
  }

  ghost predicate Well(events: seq<Event>) { forall e <- events :: ScansWell(e) }

  lemma ScannerVerdict(p: Pool, e: Event, well: bool)
    requires Pages(p) && Verdict(p, well) && Possible(p, e) && (e.Yield? || e.Stop?)
    ensures Verdict(Advance(p, e), well && ScansWell(e))
  {}

  lemma FinishVerdict(p: Pool, well: bool)
    requires Verdict(p, well) && Possible(p, Finish)
    ensures Verdict(Advance(p, Finish), well)
  {
    var q, errors := Advance(p, Finish), p.sys.threads[p.phase.flush].pc.errors;
    assert FlushClean(q) <==> errors == [];
    forall n, m ensures Mentions(q.scanErr, n, m) <==> n == p.failed && n > 0 && m == |p.yielded| {
      assert !Mentions(p.scanErr, n, m);
    }
  }

  lemma OtherVerdict(p: Pool, e: Event, well: bool)
    requires Staff(p) && LastFlush(p) && Verdict(p, well) && Possible(p, e) && !e.Yield? && !e.Stop? && !e.Finish?
    ensures Verdict(Advance(p, e), well)
  {
    match e
    case Receive(w, _) => NotAllExited(p, w);
    case Return(w) => NotAllExited(p, w);
    case Exit(w) => NotAllExited(p, w);
    case Inner(inner) => InnerOnward(p, inner);
    case _ =>
  }

  lemma VerdictNext(p: Pool, e: Event, well: bool)
    requires Ledger(p) && Verdict(p, well) && Possible(p, e)
    ensures Verdict(Advance(p, e), well && ScansWell(e))
  {
    if e.Yield? || e.Stop? {
      ScannerVerdict(p, e, well);
    } else if e.Finish? {
      FinishVerdict(p, well);
    } else {
      OtherVerdict(p, e, well);
    }
  }

  lemma WellPush(events: seq<Event>, e: Event)
    ensures Well(events + [e]) <==> Well(events) && ScansWell(e)
    ensures DropCount(events + [e]) == DropCount(events) + if Drops(e) then 1 else 0
  {
    assert (events + [e])[..|events|] == events && e in events + [e];
    assert forall x <- events :: x in events + [e];
    assert forall x <- events + [e] :: x in events || x == e;
  }

  lemma CountReceive(p: Pool, w: nat, live: bool)
    requires OnePlace(p) && Possible(p, Receive(w, live))
    ensures var q := Advance(p, Receive(w, live));
            OnePlace(q) && Failures(q) == Failures(p) && q.failed == p.failed + (if live then 0 else 1)
  {
    var q := Advance(p, Receive(w, live));
    assert Failures(q) == Failures(p);
  }

  lemma CountReturn(p: Pool, w: nat)
    requires OnePlace(p) && Possible(p, Return(w))
    ensures var q := Advance(p, Return(w));
            OnePlace(q) && q.failed - |Failures(q)| == p.failed - |Failures(p)|
  {
    ReturnPlaces(p, w);
    var q, t := Advance(p, Return(w)), p.workers[w].thread;
    if p.sys.threads[t].pc.errors == [] {
      assert Failures(q) == Failures(p);
    } else {
      assert Failures(q) == Failures(p) + {t} && t !in Failures(p);
    }
  }

  lemma ReturnPlaces(p: Pool, w: nat)
    requires OnePlace(p) && Possible(p, Return(w))
    ensures OnePlace(Advance(p, Return(w)))
  {}

  /** Whatever else happens, no call is counted and none that was counted changes. */
  lemma CountOther(p: Pool, e: Event)
    requires OnePlace(p) && Possible(p, e) && !e.Receive? && !e.Return?
    ensures var q := Advance(p, e); OnePlace(q) && Failures(q) == Failures(p) && q.failed == p.failed
  {
    if e.Inner? {
      InnerOnward(p, e.event);
    }
    assert Failures(Advance(p, e)) == Failures(p);
  }

  lemma CountsNext(p: Pool, e: Event, drops: nat)
    requires Counts(p, drops) && Possible(p, e)
    ensures Counts(Advance(p, e), drops + if Drops(e) then 1 else 0)
  {
    match e
    case Receive(w, live) => CountReceive(p, w, live);
    case Return(w) => CountReturn(p, w);
    case _ => CountOther(p, e);
  }

  lemma {:induction false} PlayCounts(p: Pool, events: seq<Event>)
    requires Counts(p, 0) && Play(p, events).Some?
    ensures Counts(Play(p, events).value, DropCount(events))
  {
    if events != [] {
      var front, e := events[..|events| - 1], events[|events| - 1];
      PlayCounts(p, front);
      CountsNext(Play(p, front).value, e, DropCount(front));
      WellPush(front, e);
      assert events == front + [e];
    }
  }

  lemma {:induction false} PlayVerdict(p: Pool, events: seq<Event>)
    requires PoolInv(p) && Verdict(p, true) && Play(p, events).Some?
    ensures Verdict(Play(p, events).value, Well(events))
  {
    if events != [] {
      var front, e := events[..|events| - 1], events[|events| - 1];
      PlayVerdict(p, front);
      PlayInv(p, front);
      VerdictNext(Play(p, front).value, e, Well(front));
      WellPush(front, e);
      assert events == front + [e];
    }
  }

  predicate Relays(errors: seq<ScanError>, returned: seq<Error>) { FlushFailed(returned) in errors }

  predicate FlushReturned(p: Pool, returned: seq<Error>) {
    p.phase.Finished? && p.phase.flush < |p.sys.threads| && p.sys.threads[p.phase.flush].pc == Done(returned)
  }

  /** What the last Flush returned is handed on. */
  ghost predicate FlushTold(p: Pool) {
    forall returned :: Relays(p.scanErr, returned) <==> FlushReturned(p, returned) && returned != []
  }

  lemma FlushToldNext(p: Pool, e: Event)
    requires Ledger(p) && FlushTold(p) && Possible(p, e)
    ensures FlushTold(Advance(p, e))
  {
    var q := Advance(p, e);
    match e
    case Receive(w, _) => NotAllExited(p, w);
    case Return(w) => NotAllExited(p, w);
    case Exit(w) => NotAllExited(p, w);
    case Inner(inner) =>
      InnerOnward(p, inner);
      forall returned ensures FlushReturned(q, returned) <==> FlushReturned(p, returned) {}
    case Finish =>
      forall returned ensures Relays(q.scanErr, returned) <==> FlushReturned(q, returned) && returned != [] {
        assert !Relays(p.scanErr, returned);
      }
    case _ =>
      forall returned ensures !Relays(q.scanErr, returned) {
        assert !Relays(p.scanErr, returned);
      }
  }

  lemma {:induction false} PlayFlushTold(p: Pool, events: seq<Event>)
    requires PoolInv(p) && FlushTold(p) && Play(p, events).Some?
    ensures FlushTold(Play(p, events).value)
  {
    if events != [] {
      var front := events[..|events| - 1];
      PlayFlushTold(p, front);
      PlayInv(p, front);
      FlushToldNext(Play(p, front).value, events[|events| - 1]);
    }
  }

  /** Nothing of what the last Flush returns is lost, and nothing is reported in its name otherwise. */
  lemma FlushErrorsExactly(p: Pool, returned: seq<Error>)
    requires Reached(p) && p.phase.Finished?
    ensures FlushFailed(returned) in p.scanErr <==> FlushReturned(p, returned) && returned != []
  {
    ReachedInv(p);
    var config: Config, scanID, workers, events :|
      config.Valid() && Play(Start(config, scanID, workers), events) == Some(p);
    StartInv(config, scanID, workers);
    PlayFlushTold(Start(config, scanID, workers), events);
    assert Relays(p.scanErr, returned) <==> FlushReturned(p, returned) && returned != [];
  }

  lemma StartCounts(config: Config, scanID: string, workers: int)
    ensures Counts(Start(config, scanID, workers), 0) && Verdict(Start(config, scanID, workers), true)
  {
    assert Failures(Start(config, scanID, workers)) == {};
  }

  lemma BackendReachable(p: Pool, e: Event)
    requires Reachable(p.sys) && Possible(p, e)
    ensures Reachable(Advance(p, e).sys)
  {
    match e
    case Receive(w, live) => if live { ReachableNext(p.sys, Invoke(Process(p.channel[0]))); }
    case StartFlush => ReachableNext(p.sys, Invoke(Flush));
    case Inner(inner) => ReachableNext(p.sys, inner);
    case _ =>
  }

  /** The backend of a scan is in a state that its calls reach, so all that is proved of those holds. */
  lemma {:induction false} PlayReachable(p: Pool, events: seq<Event>)
    requires Reachable(p.sys) && Play(p, events).Some?
    ensures Reachable(Play(p, events).value.sys)
  {
    if events != [] {
      PlayReachable(p, events[..|events| - 1]);
      BackendReachable(Play(p, events[..|events| - 1]).value, events[|events| - 1]);
    }
  }

  ghost predicate AllAccepted(s: System) { forall k: nat | k < |s.log.fates| :: s.log.fates[k] == Accepted }

  ghost predicate CallsSucceed(s: System) {
    forall t: nat | t < |s.threads| && s.threads[t].call.Process? :: s.threads[t].pc == Done([])
  }

  /** If every batch was accepted no Flush has an error to return. */
  lemma FlushSucceeds(s: System, f: nat)
    requires Reachable(s) && AllAccepted(s) && f < |s.threads| && s.threads[f].call.Flush? && s.threads[f].pc.Done?
    ensures s.threads[f].pc == Done([])
  {
    if s.threads[f].pc.errors != [] {
      ErrorsAreGenuine(s, f, s.threads[f].pc.errors[0]);
    }
  }

  /** In the end every call has been counted. */
  lemma AllCounted(p: Pool)
    requires Ledger(p) && OnePlace(p) && p.phase.Finished?
    ensures forall t :: t in p.returned <==> t in p.starts
    ensures Failures(p) == {} <==> CallsSucceed(p.sys)
  {
    assert forall t <- p.starts :: t in p.returned;
    if Failures(p) == {} {
      forall t: nat | t < |p.sys.threads| && p.sys.threads[t].call.Process? ensures p.sys.threads[t].pc == Done([]) {
        assert t in p.starts && t !in Failures(p);
      }
    } else {
      var t :| t in Failures(p);
      assert t in p.starts && p.sys.threads[t].call.Process?;
    }
  }

  lemma {:induction false} NoDrops(events: seq<Event>)
    ensures DropCount(events) == 0 <==> forall e <- events :: !Drops(e)
  {
    if events != [] {
      var front, e := events[..|events| - 1], events[|events| - 1];
      NoDrops(front);
      assert events == front + [e] && e in events;
      assert forall x <- front :: x in events;
    }
  }

  lemma FinishedFacts(config: Config, scanID: string, workers: int, events: seq<Event>)
    requires config.Valid() && Play(Start(config, scanID, workers), events).Some?
    ensures var p := Play(Start(config, scanID, workers), events).value;
            PoolInv(p) && Counts(p, DropCount(events)) && Verdict(p, Well(events)) && Reachable(p.sys)
  {
    var start := Start(config, scanID, workers);
    StartInv(config, scanID, workers);
    StartCounts(config, scanID, workers);
    PlayInv(start, events);
    PlayCounts(start, events);
    PlayVerdict(start, events);
    assert Execute(Init(config), []) == Some(start.sys);
    PlayReachable(start, events);
  }

  /** ScanPages returns nil exactly if the scanner stopped by itself, without an error and without a page
      that was unreadable, too large or cancelled, every page was received before the context ended, every
      ProcessPage call ended without an error, and every batch was accepted. */
  lemma NilExactly(config: Config, scanID: string, workers: int, events: seq<Event>)
    requires config.Valid() && Play(Start(config, scanID, workers), events).Some?
    requires Play(Start(config, scanID, workers), events).value.phase.Finished?
    ensures var p := Play(Start(config, scanID, workers), events).value;
            p.scanErr == [] <==> Well(events) && (forall e <- events :: !Drops(e)) && CallsSucceed(p.sys) && AllAccepted(p.sys)
  {
    var p := Play(Start(config, scanID, workers), events).value;
    FinishedFacts(config, scanID, workers, events);
    NoDrops(events);
    AllCounted(p);
    if p.scanErr == [] {
      FinishedClean(p);
    } else if AllAccepted(p.sys) {
      FlushSucceeds(p.sys, p.phase.flush);
    }
  }

  /** And the error says how many pages failed: those received too late and the calls that ended in an error,
      out of all that were yielded. */
  lemma FailedPagesExactly(config: Config, scanID: string, workers: int, events: seq<Event>, failed: nat, total: nat)
    requires config.Valid() && Play(Start(config, scanID, workers), events).Some?
    requires Play(Start(config, scanID, workers), events).value.phase.Finished?
    ensures var p := Play(Start(config, scanID, workers), events).value;
            PagesFailed(failed, total) in p.scanErr <==>
              && failed == DropCount(events) + |set t | t in p.starts && Erred(p.sys.threads, t)|
              && failed > 0 && total == |p.yielded|
  {
    var p := Play(Start(config, scanID, workers), events).value;
    FinishedFacts(config, scanID, workers, events);
    AllCounted(p);
    assert Failures(p) == set t | t in p.starts && Erred(p.sys.threads, t);
    assert Mentions(p.scanErr, failed, total) <==> PagesFailed(failed, total) in p.scanErr;
  }

  /** Something other than the outside world can happen: the scan loop can send, a worker or the
      final Flush can go on, or some backend call can. */
  ghost predicate CanGoOn(p: Pool) {
    || (p.phase.Scanning? && |p.channel| < |p.workers|)
    || Possible(p, StartFlush) || Possible(p, Finish)
    || (exists w: nat :: Possible(p, Receive(w, true)) || Possible(p, Return(w)) || Possible(p, Exit(w)))
    || exists t: nat :: Possible(p, Inner(Step(t, true)))
  }

  /** The pool is never stuck before ScanPages returns: a full channel always has a worker to empty it. */
  lemma PoolNeverStuck(p: Pool)
    requires Reached(p) && !p.phase.Finished?
    ensures CanGoOn(p)
  {
    ReachedInv(p);
    NeverStuck(p);
  }

  lemma NeverStuck(p: Pool)
    requires PoolInv(p) && !p.phase.Finished?
    ensures CanGoOn(p)
  {
    if p.phase.Flushing? {
      CallGoesOn(p, p.phase.flush);
      assert p.sys.threads[p.phase.flush].pc.Done? ==> Possible(p, Finish);
    } else if !Possible(p, StartFlush) {
      var w := SomeoneOnDuty(p);
      WorkerGoesOn(p, w);
    }
  }

  lemma WorkerGoesOn(p: Pool, w: nat)
    requires Inv(p.sys) && Staff(p) && w < |p.workers| && p.workers[w] != Exited
    ensures CanGoOn(p)
  {
    assert p.workers[w] in p.workers;
    if p.workers[w].Busy? {
      CallGoesOn(p, p.workers[w].thread);
      assert p.sys.threads[p.workers[w].thread].pc.Done? ==> Possible(p, Return(w));
    } else {
      assert p.channel != [] ==> Possible(p, Receive(w, true));
      assert p.channel == [] && !p.phase.Scanning? ==> Possible(p, Exit(w));
    }
  }

  lemma CallGoesOn(p: Pool, t: nat)
    requires Inv(p.sys) && t < |p.sys.threads|
    ensures p.sys.threads[t].pc.Done? || exists u: nat :: Possible(p, Inner(Step(u, true)))
  {
    if !p.sys.threads[t].pc.Done? {
      NoDeadlock(p.sys, t);
      var u: nat :| u < |p.sys.threads| && Ready(p.sys, u);
      assert Possible(p, Inner(Step(u, true)));
    }
  }

  lemma SomeoneOnDuty(p: Pool) returns (w: nat)
    requires Staff(p) && !Ending(p.phase) && !Possible(p, StartFlush)
    ensures w < |p.workers| && p.workers[w] != Exited
  {
    if p.phase.Scanning? {
      w := 0;
    } else {
      var x :| x in p.workers && x != Exited;
      w :| 0 <= w < |p.workers| && p.workers[w] == x;
    }
  }

  // ---------------------------------------------------------------- the run ends

  /** Steps of the run itself: no new Close call and no timer firing. */
  predicate Own(e: Event) { e.Inner? ==> e.event.Step? }

  function Duty(workers: seq<Worker>): nat {
    if workers == [] then 0
    else
      var w := workers[|workers| - 1];
      Duty(workers[..|workers| - 1]) + if w.Exited? then 0 else if w.Free? then 1 else 2
  }

  function Ahead(phase: Phase): nat {
    match phase
    case Scanning => 11
    case Closed => 10
    case Flushing(_) => 1
    case Finished(_) => 0
  }

  /** An upper bound on the steps still to come once the scanner has stopped. */
  function ToDo(p: Pool): nat {
    Work(p.sys.threads) + 20 * |p.channel| + Duty(p.workers) + Ahead(p.phase)
  }

  lemma {:induction false} DutyUpdate(workers: seq<Worker>, w: nat, worker: Worker)
    requires w < |workers|
    ensures Duty(workers[w := worker]) == Duty(workers) - Duty([workers[w]]) + Duty([worker])
  {
    var n := |workers| - 1;
    assert [workers[w]][..0] == [] && [worker][..0] == [];
    if w < n {
      DutyUpdate(workers[..n], w, worker);
      assert workers[w := worker][..n] == workers[..n][w := worker];
    } else {
      assert workers[w := worker][..n] == workers[..n];
    }
  }

  lemma SpawnWork(s: System, call: Call)
    ensures Work(Spawn(s, call).threads) == Work(s.threads) + if call.Process? then 13 else 7
  {
    assert Spawn(s, call).threads[..|s.threads|] == s.threads;
  }

  lemma ReceiveWorks(p: Pool, w: nat, live: bool)
    requires Possible(p, Receive(w, live))
    ensures ToDo(Advance(p, Receive(w, live))) < ToDo(p)
  {
    if live {
      SpawnWork(p.sys, Process(p.channel[0]));
      DutyUpdate(p.workers, w, Busy(|p.sys.threads|));
    }
  }

  lemma WorkerWorks(p: Pool, e: Event)
    requires Possible(p, e) && (e.Return? || e.Exit?)
    ensures ToDo(Advance(p, e)) < ToDo(p)
  {
    DutyUpdate(p.workers, e.worker, if e.Return? then Free else Exited);
  }

  lemma FlushWorks(p: Pool, e: Event)
    requires Possible(p, e) && (e.StartFlush? || e.Finish?)
    ensures ToDo(Advance(p, e)) < ToDo(p)
  {
    SpawnWork(p.sys, Flush);
  }

  /** Every step of a stopped run leaves less to do. */
  lemma AdvanceWorks(p: Pool, e: Event)
    requires PoolInv(p) && !p.phase.Scanning? && Possible(p, e) && Own(e)
    ensures ToDo(Advance(p, e)) < ToDo(p) && !Advance(p, e).phase.Scanning?
  {
    match e
    case Receive(w, live) => ReceiveWorks(p, w, live);
    case Return(_) => WorkerWorks(p, e);
    case Exit(_) => WorkerWorks(p, e);
    case StartFlush => FlushWorks(p, e);
    case Finish => FlushWorks(p, e);
    case Inner(inner) => StepWorks(p.sys, inner.thread, inner.ok);
    case _ =>
  }

  /** Once the scanner has stopped, no schedule of the run itself is longer than the work there was. */
  lemma {:induction false} RunsAreBounded(p: Pool, events: seq<Event>)
    requires PoolInv(p) && !p.phase.Scanning? && Play(p, events).Some? && forall e <- events :: Own(e)
    ensures !Play(p, events).value.phase.Scanning? && |events| + ToDo(Play(p, events).value) <= ToDo(p)
  {
    if events != [] {
      var front, last := events[..|events| - 1], events[|events| - 1];
      RunsAreBounded(p, front);
      PlayInv(p, front);
      assert last in events;
      AdvanceWorks(Play(p, front).value, last);
    }
  }

  /** And a stopped run only stops when ScanPages has returned. */
  lemma StuckMeansFinished(p: Pool)
    requires Reached(p) && !p.phase.Scanning? && forall e :: Possible(p, e) ==> !Own(e)
    ensures p.phase.Finished?
  {
    ReachedInv(p);
    if !p.phase.Finished? {
      NeverStuck(p);
      OwnStep(p);
    }
  }

  lemma OwnStep(p: Pool)
    requires CanGoOn(p) && !p.phase.Scanning?
    ensures exists e :: Possible(p, e) && Own(e)
  {
    if w: nat :| Possible(p, Receive(w, true)) || Possible(p, Return(w)) || Possible(p, Exit(w)) {
      assert Own(Receive(w, true)) && Own(Return(w)) && Own(Exit(w));
    } else if t: nat :| Possible(p, Inner(Step(t, true))) {
      assert Own(Inner(Step(t, true)));
    } else {
      assert Own(StartFlush) && Own(Finish);
    }
  }

  // ---------------------------------------------------------------- errors of the scan

  /** What the scan loop has reported stays reported. */
  lemma {:induction false} ReportStays(p: Pool, events: seq<Event>)
    requires !p.phase.Scanning? && Play(p, events).Some?
    ensures !Play(p, events).value.phase.Scanning? && p.scanErr <= Play(p, events).value.scanErr
  {
    if events != [] {
      ReportStays(p, events[..|events| - 1]);
    }
  }

  /** While the scanner is at work it can stop at any moment, without an error, with its own, or with that of
      the context, and however the scan goes on from there the result begins with that error. */
  lemma StopIsReported(p: Pool, error: ScanError, events: seq<Event>)
    requires p.phase.Scanning? && (error.Cancelled? || error.ScannerFailed?)
    ensures Possible(p, Stop(None)) && Possible(p, Stop(Some(error)))
    ensures Play(Advance(p, Stop(Some(error))), events).Some? ==>
              [error] <= Play(Advance(p, Stop(Some(error))), events).value.scanErr
  {
    if Play(Advance(p, Stop(Some(error))), events).Some? {
      ReportStays(Advance(p, Stop(Some(error))), events);
    }
  }

  /** So does a page that cannot be read or is too large: the result begins with its number. */
  lemma BadPageIsReported(p: Pool, data: seq<byte>, readable: bool, cancel: Cancel, events: seq<Event>)
    requires p.phase.Scanning? && (!readable || |data| > MAX_PAGE_BYTES)
    ensures Possible(p, Yield(data, readable, cancel))
    ensures Advance(p, Yield(data, readable, cancel)).channel == p.channel
    ensures var q, n := Advance(p, Yield(data, readable, cancel)), |p.yielded| + 1;
            Play(q, events).Some? ==>
              [if readable then TooLarge(n) else Unreadable(n)] <= Play(q, events).value.scanErr
  {
    var q := Advance(p, Yield(data, readable, cancel));
    if Play(q, events).Some? {
      ReportStays(q, events);
    }
  }

  /** A scan that is cancelled while it sends or waits ends with that error first; the page was sent exactly if
      that came after. */
  lemma CancelIsReported(p: Pool, data: seq<byte>, cancel: Cancel, events: seq<Event>)
    requires p.phase.Scanning? && |data| <= MAX_PAGE_BYTES && !cancel.Never? && |p.channel| < |p.workers|
    ensures Possible(p, Yield(data, true, cancel))
    ensures var q := Advance(p, Yield(data, true, cancel));
            && q.channel == p.channel + (if cancel.AfterSend? then [Page(p.scanID, |p.yielded| + 1, data)] else [])
            && (Play(q, events).Some? ==> [Cancelled] <= Play(q, events).value.scanErr)
  {
    var q := Advance(p, Yield(data, true, cancel));
    if Play(q, events).Some? {
      ReportStays(q, events);
    }
  }
}
