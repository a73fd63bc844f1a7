/** What the invariants of UploadSystem say about every run, for any callers and any schedule. */
module UploadSafety {
  import opened Common
  import opened RemoteBackend
  import opened UploadSystem

  /** The state after the events, or None when one of them could not happen. */
  function Execute(s: System, events: seq<Event>): Option<System> {
    if events == [] then Some(s)
    else match Execute(s, events[..|events| - 1])
      case None => None
      case Some(m) => if Enabled(m, events[|events| - 1]) then Some(Next(m, events[|events| - 1])) else None
  }

  ghost predicate Reachable(s: System) {
    exists config: Config, events :: config.Valid() && Execute(Init(config), events) == Some(s)
  }

  lemma {:induction false} ExecuteInv(s: System, events: seq<Event>)
    requires Inv(s) && Execute(s, events).Some?
    ensures Inv(Execute(s, events).value)
  {
    if events != [] {
      var front := events[..|events| - 1];
      ExecuteInv(s, front);
      NextInv(Execute(s, front).value, events[|events| - 1]);
    }
  }

  lemma ReachableInv(s: System)
    requires Reachable(s)
    ensures Inv(s)
  {
    var config: Config, events :| config.Valid() && Execute(Init(config), events) == Some(s);
    InitInv(config);
    ExecuteInv(Init(config), events);
  }

  lemma ReachableNext(s: System, e: Event)
    requires Reachable(s) && Enabled(s, e)
    ensures Reachable(Next(s, e))
  {
    var config: Config, events :| config.Valid() && Execute(Init(config), events) == Some(s);
    assert (events + [e])[..|events|] == events;
    assert Execute(Init(config), events + [e]) == Some(Next(s, e));
  }

  // ---------------------------------------------------------------- conservation and bounds

  datatype Status = InHand | Kept | Lost

  function StatusOf(fate: Fate): Status {
    match fate
    case Held(_) => InHand
    case Accepted => Kept
    case Rejected(_) => Lost
  }

  /** The pages of the batches with the given status, in the order they were taken. */
  function PagesWith(takes: seq<seq<Page>>, fates: seq<Fate>, status: Status): seq<Page>
    requires |takes| == |fates|
  {
    if takes == [] then []
    else
      var n := |takes| - 1;
      PagesWith(takes[..n], fates[..n], status) + if StatusOf(fates[n]) == status then takes[n] else []
  }

  lemma {:induction false} SplitByStatus(takes: seq<seq<Page>>, fates: seq<Fate>)
    requires |takes| == |fates|
    ensures multiset(Flatten(takes))
            == multiset(PagesWith(takes, fates, InHand)) + multiset(PagesWith(takes, fates, Kept))
               + multiset(PagesWith(takes, fates, Lost))
  {
    if takes != [] {
      SplitByStatus(takes[..|takes| - 1], fates[..|takes| - 1]);
    }
  }

  /** Every page a call has put into the buffer is, counted as often as it was put there, in the
      buffer, in a batch some thread holds, in an uploaded batch, or in a batch that failed. */
  lemma PageConservation(s: System)
    requires Reachable(s)
    ensures |s.log.fates| == |s.log.takes|
    ensures multiset(s.log.accepted)
            == multiset(s.fields.buf) + multiset(PagesWith(s.log.takes, s.log.fates, InHand))
               + multiset(PagesWith(s.log.takes, s.log.fates, Kept)) + multiset(PagesWith(s.log.takes, s.log.fates, Lost))
  {
    ReachableInv(s);
    SplitByStatus(s.log.takes, s.log.fates);
  }

  /** A batch that is neither uploaded nor failed is held by one thread and by no other. */
  lemma OneHolder(s: System, k: nat)
    requires Reachable(s) && k < |s.log.takes|
    ensures |s.log.fates| == |s.log.takes|
    ensures StatusOf(s.log.fates[k]) == InHand <==>
            exists t: nat :: t < |s.threads| && HeldBatch(s.threads[t].pc) == Some(Batch(k, s.log.takes[k]))
    ensures forall t: nat, u: nat | t < |s.threads| && u < |s.threads| ::
              (&& HeldBatch(s.threads[t].pc).Some? && HeldBatch(s.threads[t].pc).value.serial == k
               && HeldBatch(s.threads[u].pc).Some? && HeldBatch(s.threads[u].pc).value.serial == k) ==> t == u
  {
    ReachableInv(s);
    forall t: nat | t < |s.threads| ensures Keeps(s.threads[t].pc, t, s.log) {}
  }

  /** Both limits are kept at every point of every run, and by every batch ever formed. */
  lemma BufferBounds(s: System)
    requires Reachable(s)
    ensures s.fields.bufBytes == TotalBytes(s.fields.buf)
    ensures |s.fields.buf| < s.config.maxPages && s.fields.bufBytes < s.config.maxBytes
    ensures forall k: nat | k < |s.log.takes| ::
              0 < |s.log.takes[k]| <= s.config.maxPages
              && TotalBytes(s.log.takes[k][..|s.log.takes[k]| - 1]) < s.config.maxBytes
  {
    ReachableInv(s);
    forall k: nat | k < |s.log.takes| ensures Sized(s.config, s.log.takes[k]) {}
  }

  /** A call puts its page into the buffer at most once, and never without being told of. */
  lemma AppendedOnce(s: System, i: nat, j: nat)
    requires Reachable(s) && i < |s.log.accepted| && j < |s.log.accepted| && i != j
    ensures |s.log.origins| == |s.log.accepted| && s.log.origins[i] != s.log.origins[j]
    ensures s.log.origins[i] < |s.threads| && s.threads[s.log.origins[i]].call == Process(s.log.accepted[i])
  {
    ReachableInv(s);
    var t := s.log.origins[i];
    assert s.threads[t].ticket == Some(i) && Ticketed(s.threads[t], t, s.log);
    assert s.threads[s.log.origins[j]].ticket == Some(j);
  }

  /** A ProcessPage that returned nil has itself put its page into the buffer, once. */
  lemma NilMeansAppended(s: System, t: nat, page: Page)
    requires Reachable(s) && t < |s.threads| && s.threads[t].call == Process(page) && s.threads[t].pc == Done([])
    ensures |s.log.origins| == |s.log.accepted|
    ensures exists i: nat :: i < |s.log.accepted| && s.log.accepted[i] == page && s.log.origins[i] == t
                             && forall j: nat | j < |s.log.origins| && s.log.origins[j] == t :: j == i
  {
    ReachableInv(s);
    assert Ticketed(s.threads[t], t, s.log);
    var i := s.threads[t].ticket.value;
    forall j: nat | j < |s.log.origins| && s.log.origins[j] == t ensures j == i {
      assert s.threads[s.log.origins[j]].ticket == Some(j);
    }
  }

  // ---------------------------------------------------------------- failures

  predicate NoDrain(notes: seq<Note>, i: nat, j: nat)
    requires i <= j <= |notes|
  {
    forall x | i <= x < j :: notes[x].Recorded?
  }

  /** The i-th note is the first of its run of idle failures, which no Flush has read since. */
  predicate Opens(notes: seq<Note>, i: nat, serial: nat)
    requires i < |notes|
  {
    notes[i] == Recorded(serial) && (i == 0 || notes[i - 1].Drained?) && NoDrain(notes, i, |notes|)
  }

  lemma {:induction false} FirstOfRun(notes: seq<Note>, serial: nat)
    ensures Pending(notes) == Some(serial) <==> exists i: nat :: i < |notes| && Opens(notes, i, serial)
    ensures Pending(notes).None? <==> notes == [] || notes[|notes| - 1].Drained?
  {
    if notes != [] {
      var front, last := notes[..|notes| - 1], |notes| - 1;
      FirstOfRun(front, serial);
      if i: nat :| i < |front| && Opens(front, i, serial) {
        assert notes[last].Recorded? ==> Opens(notes, i, serial);
      }
      if i: nat :| i < |notes| && Opens(notes, i, serial) {
        assert i < last ==> Opens(front, i, serial);
      }
      assert notes[last] == Recorded(serial) && Pending(front).None? ==> Opens(notes, last, serial);
    }
  }

  /** At every moment `flushErr` is the first idle failure recorded since the last Flush drained, and nil
      exactly if none was. */
  lemma PendingIsFirst(s: System, serial: nat)
    requires Reachable(s)
    ensures s.fields.flushErr == Some(UploadFailed(serial)) <==>
            exists i: nat :: i < |s.log.notes| && Opens(s.log.notes, i, serial)
    ensures s.fields.flushErr.None? <==> s.log.notes == [] || s.log.notes[|s.log.notes| - 1].Drained?
  {
    ReachableInv(s);
    FirstOfRun(s.log.notes, serial);
  }

  /** The position of the next drain, or the end. */
  function NextDrain(notes: seq<Note>, i: nat): (j: nat)
    requires i <= |notes|
    ensures i <= j <= |notes| && NoDrain(notes, i, j) && (j < |notes| ==> notes[j].Drained?)
    decreases |notes| - i
  {
    if i == |notes| || notes[i].Drained? then i else NextDrain(notes, i + 1)
  }

  lemma {:induction false} StillPending(notes: seq<Note>, i: nat, j: nat)
    requires i < j <= |notes| && NoDrain(notes, i, j)
    ensures Pending(notes[..j]).Some?
  {
    assert notes[..j][..j - 1] == notes[..j - 1];
  }

  /** The failure of the i-th note is in `flushErr`, behind an earlier one if there is one, or the next
      Flush to drain has read it there and returns it, or is about to. */
  ghost predicate SurfacesAt(s: System, i: nat)
    requires i < |s.log.notes|
  {
    var j := NextDrain(s.log.notes, i + 1);
    var first := Pending(s.log.notes[..j]);
    && first.Some?
    && if j == |s.log.notes| then s.fields.flushErr == Some(UploadFailed(first.value))
       else ReturnedBy(s, j, first.value)
  }

  predicate ReturnedBy(s: System, j: nat, first: nat)
    requires j < |s.log.notes|
  {
    && s.log.notes[j].Drained? && s.log.notes[j].thread < |s.threads|
    && var thread := s.threads[s.log.notes[j].thread];
       thread.call.Flush? && HasDrained(thread.pc) && Reported(thread.pc) == Some(UploadFailed(first))
  }

  lemma NoteSurfaces(s: System, i: nat)
    requires Notes(s.fields.flushErr, s.threads, s.log.notes) && i < |s.log.notes| && s.log.notes[i].Recorded?
    ensures SurfacesAt(s, i)
  {
    var j := NextDrain(s.log.notes, i + 1);
    StillPending(s.log.notes, i, j);
    if j < |s.log.notes| {
      assert Reports(s.threads, s.log.notes, j);
    } else {
      assert s.log.notes[..j] == s.log.notes;
    }
  }

  /** Every failed idle upload whose callback is past recording it surfaces, however many went before
      it: as the pending error, or in the result of a Flush that drained after it was recorded. */
  lemma IdleFailureSurfaces(s: System, k: nat)
    requires Reachable(s) && RefusedIdle(s.threads, s.log.fates, k)
    requires !Records(s.threads[s.log.fates[k].thread].pc, k)
    ensures exists i: nat :: i < |s.log.notes| && s.log.notes[i] == Recorded(k) && SurfacesAt(s, i)
  {
    ReachableInv(s);
    assert Accounted(s.threads, s.log.notes, s.log.fates[k], k);
    var i: nat :| i < |s.log.notes| && s.log.notes[i] == Recorded(k);
    NoteSurfaces(s, i);
  }

  /** Only failed idle uploads are reported as such. */
  lemma ReportsAreGenuine(s: System, i: nat)
    requires Reachable(s) && i < |s.log.notes| && s.log.notes[i].Recorded?
    ensures RefusedIdle(s.threads, s.log.fates, s.log.notes[i].serial)
  {
    ReachableInv(s);
    assert s.log.notes[i] in s.log.notes;
  }

  /** Once every call has returned, each failed batch is known: to the caller whose call uploaded it
      or, for an idle upload, through `flushErr` or the result of the next Flush after it. */
  lemma FailuresSurface(s: System, k: nat)
    requires Reachable(s) && k < |s.log.fates| && s.log.fates[k].Rejected?
    requires forall t: nat | t < |s.threads| :: s.threads[t].pc.Done?
    ensures var t := s.log.fates[k].thread;
            t < |s.threads| &&
            if s.threads[t].call.Idle? then
              exists i: nat :: i < |s.log.notes| && s.log.notes[i] == Recorded(k) && SurfacesAt(s, i)
            else UploadFailed(k) in s.threads[t].pc.errors
  {
    ReachableInv(s);
    assert Accounted(s.threads, s.log.notes, s.log.fates[k], k);
    if s.threads[s.log.fates[k].thread].call.Idle? {
      IdleFailureSurfaces(s, k);
    }
  }

  /** The first Flush to drain after the i-th note, at the j-th, returns an idle failure it read there. */
  ghost predicate ReadAt(s: System, i: nat, j: nat) {
    i < j < |s.log.notes| && NoDrain(s.log.notes, i, j)
    && exists first: nat :: Pending(s.log.notes[..j]) == Some(first) && ReturnedBy(s, j, first)
  }

  lemma DrainedSince(s: System, i: nat, n: nat)
    requires Notes(s.fields.flushErr, s.threads, s.log.notes)
    requires i < n < |s.log.notes| && s.log.notes[i].Recorded? && s.log.notes[n].Drained?
    ensures exists j: nat :: j <= n && ReadAt(s, i, j)
  {
    NoteSurfaces(s, i);
    var j := NextDrain(s.log.notes, i + 1);
    assert ReturnedBy(s, j, Pending(s.log.notes[..j]).value);
    assert ReadAt(s, i, j);
  }

  /** When a Flush drains the buffer no idle upload is between failing and recording its error, so
      after that step every idle failure so far has been returned by a Flush that drained after it:
      by this one, unless another one drained in between. */
  lemma FlushSeesIdleFailure(s: System, f: nat, k: nat)
    requires Reachable(s) && f < |s.threads| && s.threads[f].pc == InMu(Draining)
    requires RefusedIdle(s.threads, s.log.fates, k)
    ensures var r := Run(s, f, true);
            && r.log.notes == s.log.notes + [Drained(f)]
            && exists i: nat, j: nat ::
                 i < |s.log.notes| && s.log.notes[i] == Recorded(k) && j <= |s.log.notes| && ReadAt(r, i, j)
  {
    ReachableInv(s);
    NobodyRecords(s, f, s.log.fates[k].thread, k);
    assert Accounted(s.threads, s.log.notes, s.log.fates[k], k);
    var i: nat :| i < |s.log.notes| && s.log.notes[i] == Recorded(k);
    NextInv(s, Step(f, true));
    DrainedSince(Run(s, f, true), i, |s.log.notes|);
  }

  lemma NobodyRecords(s: System, f: nat, t: nat, k: nat)
    requires Inv(s) && f < |s.threads| && s.threads[f].pc == InMu(Draining) && t < |s.threads|
    ensures !Records(s.threads[t].pc, k)
  {
    assert HoldsFlushMu(s.threads[f].pc) && HoldsFlushMu(s.threads[t].pc) ==> t == f;
  }

  // ---------------------------------------------------------------- admission

  /** The scan of the last appended page that names one. */
  function LastScan(pages: seq<Page>): string {
    if pages == [] then ""
    else
      var last := pages[|pages| - 1];
      if last.scanID != "" then last.scanID else LastScan(pages[..|pages| - 1])
  }

  lemma ScanStep(s: System, t: nat, ok: bool)
    requires Ready(s, t) && s.fields.currScan == LastScan(s.log.accepted)
    ensures Run(s, t, ok).fields.currScan == LastScan(Run(s, t, ok).log.accepted)
  {
    if s.threads[t].pc.InMu? {
      ScanSection(s, t, s.threads[t].pc.section);
    }
  }

  lemma ScanSection(s: System, t: nat, section: Section)
    requires t < |s.threads| && s.fields.currScan == LastScan(s.log.accepted)
    ensures RunSection(s, t, section).fields.currScan == LastScan(RunSection(s, t, section).log.accepted)
  {
    if section.Appending? || section.Admitting? {
      AppendScan(s, t, section.page);
    }
  }

  lemma AppendScan(s: System, t: nat, page: Page)
    requires t < |s.threads| && s.fields.currScan == LastScan(s.log.accepted)
    ensures RunAppend(s, t, page).fields.currScan == LastScan(RunAppend(s, t, page).log.accepted)
  {
    assert (s.log.accepted + [page])[..|s.log.accepted|] == s.log.accepted;
  }

  lemma {:induction false} ExecuteScan(config: Config, events: seq<Event>)
    requires Execute(Init(config), events).Some?
    ensures var s := Execute(Init(config), events).value; s.fields.currScan == LastScan(s.log.accepted)
  {
    if events != [] {
      var front, e := events[..|events| - 1], events[|events| - 1];
      ExecuteScan(config, front);
      if e.Step? {
        ScanStep(Execute(Init(config), front).value, e.thread, e.ok);
      }
    }
  }

  ghost predicate FirstFailure(s: System, k: nat) {
    exists i: nat :: i < |s.log.notes| && Opens(s.log.notes, i, k)
  }

  /** No idle failure has been recorded since the last Flush drained. */
  predicate NoFailure(s: System) {
    s.log.notes == [] || s.log.notes[|s.log.notes| - 1].Drained?
  }

  /** The page belongs to another scan than the last one that was named. */
  predicate ChangesScan(s: System, page: Page) {
    LastScan(s.log.accepted) != "" && page.scanID != "" && page.scanID != LastScan(s.log.accepted)
  }

  /** What the check does, in the terms of what happened before: a page is refused with the first idle
      failure since the last drain exactly if there is one, and otherwise as closed exactly if the backend
      is; a refused page is not appended and nothing is taken. Any other page is appended at once, unless
      its scan is another one: then the buffer is taken first and the page waits. */
  lemma AdmissionExactly(s: System, t: nat, page: Page, ok: bool)
    requires Reachable(s) && t < |s.threads| && s.threads[t].pc == InMu(Admitting(page))
    ensures var r := Run(s, t, ok);
            && (forall k: nat :: r.threads[t].pc == Done([PreviousAsync(UploadFailed(k))]) <==> FirstFailure(s, k))
            && (r.threads[t].pc == Done([BackendClosed]) <==> NoFailure(s) && s.fields.closed)
            && (!NoFailure(s) || s.fields.closed ==> r.log == s.log && r.fields == s.fields)
            && (NoFailure(s) && !s.fields.closed && ChangesScan(s, page) ==>
                  && r.log.accepted == s.log.accepted && r.fields.buf == [] && r.threads[t].ticket == s.threads[t].ticket
                  && r.log.takes == s.log.takes + (if s.fields.buf == [] then [] else [s.fields.buf])
                  && r.threads[t].pc == if s.fields.buf == [] then AwaitMu(Appending(page))
                                        else AwaitFlushMu(Some(Batch(|s.log.takes|, s.fields.buf)), Some(page)))
            && (NoFailure(s) && !s.fields.closed && !ChangesScan(s, page) ==>
                  && r.log.accepted == s.log.accepted + [page] && r.threads[t].ticket == Some(|s.log.accepted|)
                  && (r.threads[t].pc == Done([]) || r.threads[t].pc.AwaitFlushMu?))
  {
    ReachableInv(s);
    var config: Config, events :| config.Valid() && Execute(Init(config), events) == Some(s);
    ExecuteScan(config, events);
    forall k: nat ensures s.fields.flushErr == Some(UploadFailed(k)) <==> FirstFailure(s, k) {
      PendingIsFirst(s, k);
    }
    PendingIsFirst(s, 0);
    Admitted(s, t, page);
  }

  lemma Admitted(s: System, t: nat, page: Page)
    requires t < |s.threads| && s.fields.currScan == LastScan(s.log.accepted)
    ensures var r, a := RunAdmit(s, t, page), s.fields;
            if a.flushErr.Some? then
              r.log == s.log && r.fields == s.fields && r.threads[t].pc == Done([PreviousAsync(a.flushErr.value)])
            else if a.closed then r.log == s.log && r.fields == s.fields && r.threads[t].pc == Done([BackendClosed])
            else if ChangesScan(s, page) then
              && r.log.accepted == s.log.accepted && r.fields.buf == [] && r.threads[t].ticket == s.threads[t].ticket
              && r.log.takes == s.log.takes + (if a.buf == [] then [] else [a.buf])
              && r.threads[t].pc == if a.buf == [] then AwaitMu(Appending(page))
                                    else AwaitFlushMu(Some(Batch(|s.log.takes|, a.buf)), Some(page))
            else
              && r.log.accepted == s.log.accepted + [page] && r.threads[t].ticket == Some(|s.log.accepted|)
              && (r.threads[t].pc == Done([]) || r.threads[t].pc.AwaitFlushMu?)
  {}

  // ---------------------------------------------------------------- errors are genuine

  /** The page could not be read, the backend is closed, the thread's own batch was refused, or an idle
      upload was; in all cases but the third the page of the call was not appended. */
  predicate Genuine(s: System, t: nat, e: Error)
    requires t < |s.threads|
  {
    match e
    case ReadFailed => s.threads[t].call.Process? && Turned(s.threads[t])
    case BackendClosed => s.threads[t].call.Process? && Turned(s.threads[t]) && s.fields.closed
    case UploadFailed(k) => k < |s.log.fates| && s.log.fates[k] == Rejected(t)
    case PreviousAsync(cause) =>
      cause.UploadFailed? && RefusedIdle(s.threads, s.log.fates, cause.serial)
      && (s.threads[t].call.Process? ==> Turned(s.threads[t]))
  }

  /** The call has returned without having appended its page. */
  predicate Turned(thread: Thread) { thread.pc.Done? && thread.ticket.None? }

  ghost predicate AllGenuine(s: System) {
    forall t: nat, e | t < |s.threads| && e in ErrorsSoFar(s.threads[t].pc) :: Genuine(s, t, e)
  }

  /** Calls, refusals and the closing of the backend are for good. */
  ghost predicate Lasts(s: System, r: System) {
    && |s.threads| <= |r.threads|
    && (forall t: nat | t < |s.threads| :: r.threads[t].call == s.threads[t].call
                                           && (Turned(s.threads[t]) ==> r.threads[t] == s.threads[t]))
    && |s.log.fates| <= |r.log.fates|
    && (forall k: nat | k < |s.log.fates| && s.log.fates[k].Rejected? :: r.log.fates[k] == s.log.fates[k])
    && (s.fields.closed ==> r.fields.closed)
  }

  lemma SectionLasts(s: System, t: nat, section: Section)
    requires t < |s.threads| && !s.threads[t].pc.Done?
    ensures Lasts(s, RunSection(s, t, section))
  {}

  lemma StepLasts(s: System, t: nat, ok: bool)
    requires Ready(s, t) && Keeps(s.threads[t].pc, t, s.log)
    ensures Lasts(s, Run(s, t, ok))
  {
    match s.threads[t].pc
    case InMu(section) => SectionLasts(s, t, section);
    case Uploading(batch, prior, next) => UploadLasts(s, t, batch, prior, next, ok);
    case _ =>
  }

  lemma UploadLasts(s: System, t: nat, batch: Batch, prior: seq<Error>, next: Option<Page>, ok: bool)
    requires t < |s.threads| && !s.threads[t].pc.Done? && batch.serial < |s.log.fates| && s.log.fates[batch.serial].Held?
    ensures Lasts(s, RunUpload(s, t, batch, prior, next, ok))
  {}

  /** What a step adds to the errors of its thread. */
  lemma StepGenuine(s: System, t: nat, ok: bool, e: Error)
    requires Inv(s) && Ready(s, t) && t < |Run(s, t, ok).threads| && e in ErrorsSoFar(Run(s, t, ok).threads[t].pc)
    ensures e in ErrorsSoFar(s.threads[t].pc) || Genuine(Run(s, t, ok), t, e)
  {
    var thread := s.threads[t];
    assert Shape(thread.call, thread.pc) && Keeps(thread.pc, t, s.log);
    match thread.pc
    case InMu(section) => SectionGenuine(s, t, section, e);
    case Uploading(batch, prior, next) => UploadGenuine(s, t, batch, prior, next, ok, e);
    case _ =>
  }

  lemma UploadGenuine(s: System, t: nat, batch: Batch, prior: seq<Error>, next: Option<Page>, ok: bool, e: Error)
    requires t < |s.threads| && batch.serial < |s.log.fates|
    requires e in ErrorsSoFar(RunUpload(s, t, batch, prior, next, ok).threads[t].pc)
    ensures e in prior || Genuine(RunUpload(s, t, batch, prior, next, ok), t, e)
  {}

  lemma SectionErrors(s: System, t: nat, section: Section, e: Error)
    requires t < |s.threads| && e in ErrorsSoFar(RunSection(s, t, section).threads[t].pc)
    ensures || (s.fields.flushErr.Some? && e == PreviousAsync(s.fields.flushErr.value))
            || (e == BackendClosed && s.fields.closed && section.Admitting?)
    ensures section.Admitting? ==> RunSection(s, t, section).threads[t] == s.threads[t].(pc := Done([e]))
    ensures section.Admitting? || section.Draining?
  {}

  lemma SectionGenuine(s: System, t: nat, section: Section, e: Error)
    requires Inv(s) && t < |s.threads| && s.threads[t].pc == InMu(section)
    requires e in ErrorsSoFar(RunSection(s, t, section).threads[t].pc)
    ensures Genuine(RunSection(s, t, section), t, e)
  {
    assert Shape(s.threads[t].call, s.threads[t].pc) && Ticketed(s.threads[t], t, s.log);
    SectionErrors(s, t, section, e);
    SectionLasts(s, t, section);
    if s.fields.flushErr.Some? {
      PendingIsGenuine(s);
    }
  }

  lemma PendingIsGenuine(s: System)
    requires Inv(s) && s.fields.flushErr.Some?
    ensures s.fields.flushErr.value.UploadFailed? && RefusedIdle(s.threads, s.log.fates, s.fields.flushErr.value.serial)
  {
    var k := s.fields.flushErr.value.serial;
    FirstOfRun(s.log.notes, k);
    var i: nat :| i < |s.log.notes| && Opens(s.log.notes, i, k);
    assert s.log.notes[i] in s.log.notes;
  }

  lemma StepFrame(s: System, t: nat, ok: bool)
    requires Ready(s, t)
    ensures var r := Run(s, t, ok);
            && |r.threads| == |s.threads| && r.threads[t].call == s.threads[t].call
            && r.threads == s.threads[t := r.threads[t]] && !s.threads[t].pc.Done?
  {}

  lemma GenuineNext(s: System, e: Event)
    requires Inv(s) && AllGenuine(s) && Enabled(s, e)
    ensures AllGenuine(Next(s, e))
  {
    var r := Next(s, e);
    if e.Step? {
      assert Keeps(s.threads[e.thread].pc, e.thread, s.log);
      StepLasts(s, e.thread, e.ok);
      StepFrame(s, e.thread, e.ok);
      forall t: nat, x | t < |r.threads| && x in ErrorsSoFar(r.threads[t].pc) ensures Genuine(r, t, x) {
        if t == e.thread {
          StepGenuine(s, t, e.ok, x);
        }
        if x in ErrorsSoFar(s.threads[t].pc) {
          assert Genuine(s, t, x);
          StillGenuine(s, r, t, x);
        }
      }
    } else {
      forall t: nat, x | t < |r.threads| && x in ErrorsSoFar(r.threads[t].pc) ensures Genuine(r, t, x) {
        assert Genuine(s, t, x);
        StillGenuine(s, r, t, x);
      }
    }
  }

  lemma StillGenuine(s: System, r: System, t: nat, x: Error)
    requires Lasts(s, r) && t < |s.threads| && Genuine(s, t, x)
    ensures Genuine(r, t, x)
  {}

  lemma {:induction false} ExecuteGenuine(config: Config, events: seq<Event>)
    requires config.Valid() && Execute(Init(config), events).Some?
    ensures AllGenuine(Execute(Init(config), events).value)
  {
    if events != [] {
      var front := events[..|events| - 1];
      ExecuteGenuine(config, front);
      InitInv(config);
      ExecuteInv(Init(config), front);
      GenuineNext(Execute(Init(config), front).value, events[|events| - 1]);
    }
  }

  /** No call returns an error without its cause: a page that could not be read, a closed backend, a batch
      of its own that was refused, or a refused idle upload. */
  lemma ErrorsAreGenuine(s: System, t: nat, e: Error)
    requires Reachable(s) && t < |s.threads| && s.threads[t].pc.Done? && e in s.threads[t].pc.errors
    ensures Genuine(s, t, e)
  {
    var config: Config, events :| config.Valid() && Execute(Init(config), events) == Some(s);
    ExecuteGenuine(config, events);
  }

  ghost predicate SentRefused(s: System, t: nat) {
    exists k: nat :: k < |s.log.fates| && s.log.fates[k] == Rejected(t)
  }

  /** ProcessPage returns nil exactly if it appended its page and no batch it sent was refused, and returns
      the failure of a batch exactly if it is one it sent; otherwise its page was not appended and it sent
      nothing that was refused. */
  lemma ResultExactly(s: System, t: nat)
    requires Reachable(s) && t < |s.threads| && s.threads[t].call.Process? && s.threads[t].pc.Done?
    ensures s.threads[t].pc == Done([]) <==> s.threads[t].ticket.Some? && !SentRefused(s, t)
    ensures forall k: nat :: UploadFailed(k) in s.threads[t].pc.errors <==>
                             k < |s.log.fates| && s.log.fates[k] == Rejected(t)
    ensures ReadFailed in s.threads[t].pc.errors || BackendClosed in s.threads[t].pc.errors
            ==> s.threads[t].ticket.None?
  {
    ReachableInv(s);
    assert Ticketed(s.threads[t], t, s.log);
    forall k: nat | k < |s.log.fates| && s.log.fates[k] == Rejected(t) ensures UploadFailed(k) in s.threads[t].pc.errors {
      assert Accounted(s.threads, s.log.notes, s.log.fates[k], k);
    }
    forall e | e in s.threads[t].pc.errors ensures Genuine(s, t, e) {
      ErrorsAreGenuine(s, t, e);
    }
    if s.threads[t].pc.errors != [] {
      assert s.threads[t].pc.errors[0] in s.threads[t].pc.errors;
    }
  }

  /** A call whose page cannot be read returns that error, for good, and never appends it. */
  lemma {:induction false} UnreadableIsRefused(s: System, t: nat, events: seq<Event>)
    requires t < |s.threads| && s.threads[t].pc.Reading? && s.threads[t].ticket.None?
    requires Execute(Run(s, t, false), events).Some?
    ensures var r := Execute(Run(s, t, false), events).value;
            t < |r.threads| && r.threads[t].pc == Done([ReadFailed]) && r.threads[t].ticket.None?
  {
    if events != [] {
      var front, e := events[..|events| - 1], events[|events| - 1];
      UnreadableIsRefused(s, t, front);
      if e.Step? {
        StepFrame(Execute(Run(s, t, false), front).value, e.thread, e.ok);
      }
    }
  }

  /** One whose page was read never returns it. */
  lemma {:induction false} ReadableIsTried(s: System, t: nat, events: seq<Event>)
    requires t < |s.threads| && s.threads[t].pc.Reading? && Execute(Run(s, t, true), events).Some?
    ensures var r := Execute(Run(s, t, true), events).value;
            t < |r.threads| && !r.threads[t].pc.Reading? && ReadFailed !in ErrorsSoFar(r.threads[t].pc)
  {
    if events != [] {
      var front, e := events[..|events| - 1], events[|events| - 1];
      ReadableIsTried(s, t, front);
      ReadableNext(Execute(Run(s, t, true), front).value, t, e);
    }
  }

  lemma ReadableNext(s: System, t: nat, e: Event)
    requires t < |s.threads| && !s.threads[t].pc.Reading? && ReadFailed !in ErrorsSoFar(s.threads[t].pc) && Enabled(s, e)
    ensures var r := Next(s, e);
            t < |r.threads| && !r.threads[t].pc.Reading? && ReadFailed !in ErrorsSoFar(r.threads[t].pc)
  {
    if e.Step? {
      StepFrame(s, e.thread, e.ok);
      if e.thread == t {
        NoReadFailure(s, t, e.ok);
      }
    }
  }

  lemma NoReadFailure(s: System, t: nat, ok: bool)
    requires Ready(s, t) && !s.threads[t].pc.Reading? && ReadFailed !in ErrorsSoFar(s.threads[t].pc)
    ensures !Run(s, t, ok).threads[t].pc.Reading? && ReadFailed !in ErrorsSoFar(Run(s, t, ok).threads[t].pc)
  {
    if s.threads[t].pc.InMu? {
      if ReadFailed in ErrorsSoFar(Run(s, t, ok).threads[t].pc) {
        SectionErrors(s, t, s.threads[t].pc.section, ReadFailed);
      }
    }
  }

  // ---------------------------------------------------------------- locks

  predicate IsUploading(pc: PC) { pc.Uploading? }

  lemma OneUploadAtATime(s: System, t: nat, u: nat)
    requires Reachable(s) && t < |s.threads| && u < |s.threads|
    requires IsUploading(s.threads[t].pc) && IsUploading(s.threads[u].pc)
    ensures t == u
  {
    ReachableInv(s);
    assert HoldsFlushMu(s.threads[t].pc) && HoldsFlushMu(s.threads[u].pc);
  }

  /** Whatever the threads are doing, an unfinished call means that some thread can go on. */
  lemma NoDeadlock(s: System, t: nat)
    requires Inv(s) && t < |s.threads| && !s.threads[t].pc.Done?
    ensures exists u: nat :: u < |s.threads| && !s.threads[u].pc.Done? && Ready(s, u)
  {
    if s.mu.Some? {
      assert HoldsMu(s.threads[s.mu.value].pc);
      assert Ready(s, s.mu.value);
    } else if s.threads[t].pc.AwaitFlushMu? && s.flushMu.Some? {
      assert HoldsFlushMu(s.threads[s.flushMu.value].pc);
      assert Ready(s, s.flushMu.value);
    } else {
      assert Ready(s, t);
    }
  }

  /** An upper bound on the steps a thread still has to take. */
  function Remaining(thread: Thread): nat {
    match thread.pc
    case Done(_) => 0
    case Unlocking(_, next) => if next.None? then 1 else 8
    case InMu(section) => SectionSteps(section)
    case AwaitMu(section) => SectionSteps(section) + 1
    case Uploading(_, _, next) => if next.None? then 4 else 9
    case AwaitFlushMu(batch, next) => if batch.None? then 7 else if next.None? then 5 else 10
    case Reading(_) => 13
  }

  function SectionSteps(section: Section): nat {
    match section
    case Recording(_) => 2
    case Appending(_) => 6
    case Admitting(_) => 11
    case _ => 5
  }

  function Work(threads: seq<Thread>): nat {
    if threads == [] then 0 else Work(threads[..|threads| - 1]) + Remaining(threads[|threads| - 1])
  }

  lemma {:induction false} WorkUpdate(threads: seq<Thread>, t: nat, thread: Thread)
    requires t < |threads|
    ensures Work(threads[t := thread]) == Work(threads) - Remaining(threads[t]) + Remaining(thread)
  {
    var n := |threads| - 1;
    var updated := threads[t := thread];
    if t < n {
      WorkUpdate(threads[..n], t, thread);
      assert updated[..n] == threads[..n][t := thread];
    } else {
      assert updated[..n] == threads[..n];
    }
  }

  /** No step of a thread leaves it as much to do as before. */
  lemma StepWorks(s: System, t: nat, ok: bool)
    requires Inv(s) && Ready(s, t)
    ensures Work(Run(s, t, ok).threads) < Work(s.threads)
  {
    var r := Run(s, t, ok);
    assert Shape(s.threads[t].call, s.threads[t].pc);
    StepRemaining(s, t, ok);
    WorkUpdate(s.threads, t, r.threads[t]);
  }

  lemma StepRemaining(s: System, t: nat, ok: bool)
    requires Ready(s, t) && Shape(s.threads[t].call, s.threads[t].pc)
    ensures var r := Run(s, t, ok);
            |r.threads| == |s.threads| && r.threads == s.threads[t := r.threads[t]]
            && Remaining(r.threads[t]) < Remaining(s.threads[t])
  {
    match s.threads[t].pc
    case InMu(section) => SectionRemaining(s, t, section);
    case AwaitFlushMu(batch, next) => LockRemaining(s, t, batch, next);
    case Uploading(batch, prior, next) => UploadRemaining(s, t, batch, prior, next, ok);
    case _ =>
  }

  lemma LockRemaining(s: System, t: nat, batch: Option<Batch>, next: Option<Page>)
    requires t < |s.threads| && s.threads[t].pc == AwaitFlushMu(batch, next)
    requires Shape(s.threads[t].call, s.threads[t].pc)
    ensures var r := RunLockFlush(s, t, batch, next);
            |r.threads| == |s.threads| && r.threads == s.threads[t := r.threads[t]]
            && Remaining(r.threads[t]) < Remaining(s.threads[t])
  {}

  lemma UploadRemaining(s: System, t: nat, batch: Batch, prior: seq<Error>, next: Option<Page>, ok: bool)
    requires t < |s.threads| && s.threads[t].pc == Uploading(batch, prior, next)
    requires Shape(s.threads[t].call, s.threads[t].pc)
    ensures var r := RunUpload(s, t, batch, prior, next, ok);
            |r.threads| == |s.threads| && r.threads == s.threads[t := r.threads[t]]
            && Remaining(r.threads[t]) < Remaining(s.threads[t])
  {}

  lemma SectionRemaining(s: System, t: nat, section: Section)
    requires t < |s.threads| && s.threads[t].pc == InMu(section) && Shape(s.threads[t].call, s.threads[t].pc)
    ensures var r := RunSection(s, t, section);
            |r.threads| == |s.threads| && r.threads == s.threads[t := r.threads[t]]
            && Remaining(r.threads[t]) < Remaining(s.threads[t])
  {
    if section.Appending? || section.Admitting? {
      AppendRemaining(s, t, section.page);
    }
  }

  lemma AppendRemaining(s: System, t: nat, page: Page)
    requires t < |s.threads|
    ensures var r := RunAppend(s, t, page);
            |r.threads| == |s.threads| && r.threads == s.threads[t := r.threads[t]] && Remaining(r.threads[t]) <= 5
  {}

  /** With no new calls and no timer firing, no schedule is longer than the work there was. */
  lemma {:induction false} SchedulesAreBounded(s: System, events: seq<Event>)
    requires Inv(s) && Execute(s, events).Some?
    requires forall e <- events :: e.Step?
    ensures |events| + Work(Execute(s, events).value.threads) <= Work(s.threads)
  {
    if events != [] {
      var front, last := events[..|events| - 1], events[|events| - 1];
      SchedulesAreBounded(s, front);
      ExecuteInv(s, front);
      assert last in events;
      StepWorks(Execute(s, front).value, last.thread, last.ok);
    }
  }

  /** A schedule stops only when every call has returned. */
  lemma StuckMeansReturned(s: System)
    requires Reachable(s)
    ensures (forall t: nat, ok :: !Enabled(s, Step(t, ok))) <==> (forall t: nat | t < |s.threads| :: s.threads[t].pc.Done?)
  {
    ReachableInv(s);
    if t: nat :| t < |s.threads| && !s.threads[t].pc.Done? {
      NoDeadlock(s, t);
      var u: nat :| u < |s.threads| && Ready(s, u);
      assert Enabled(s, Step(u, true));
    }
  }

  // ---------------------------------------------------------------- idle timer

  /** Buffered pages are never left without a timer; at most one timer is armed. */
  lemma BufferIsWatched(s: System)
    requires Reachable(s)
    ensures s.fields.buf != [] && !s.fields.closed ==>
              || s.fields.timerGeneration in s.fields.armed
              || exists t: nat :: t < |s.threads| && PendingIdle(s.threads[t], s.fields.timerGeneration)
    ensures s.fields.armed <= {s.fields.timerGeneration}
  {
    ReachableInv(s);
  }

  /** A callback of an older generation takes nothing. */
  lemma StaleCallbackTakesNothing(s: System, t: nat, ok: bool)
    requires Reachable(s) && Ready(s, t) && s.threads[t].call.Idle?
    requires Run(s, t, ok).log.takes != s.log.takes
    ensures s.threads[t].call.generation == s.fields.timerGeneration && !s.fields.closed
  {
    ReachableInv(s);
    assert Shape(s.threads[t].call, s.threads[t].pc);
  }

  lemma GenerationGrows(s: System, e: Event)
    requires Enabled(s, e)
    ensures Next(s, e).fields.timerGeneration >= s.fields.timerGeneration
    ensures Next(s, e).fields.timerGeneration == s.fields.timerGeneration ==>
              Next(s, e).log.accepted == s.log.accepted && Next(s, e).fields.closed == s.fields.closed
  {
    if e.Step? && s.threads[e.thread].pc.InMu? {
      SectionGeneration(s, e.thread, s.threads[e.thread].pc.section);
    }
  }

  lemma SectionGeneration(s: System, t: nat, section: Section)
    requires t < |s.threads|
    ensures var r := RunSection(s, t, section);
            r.fields.timerGeneration >= s.fields.timerGeneration
            && (r.fields.timerGeneration == s.fields.timerGeneration ==>
                  r.log.accepted == s.log.accepted && r.fields.closed == s.fields.closed)
  {}

  /** Between two moments with the same generation no page arrived and the backend was not closed: an
      idle callback that takes a batch does so only after its whole interval without a new page. */
  lemma {:induction false} SameGenerationMeansIdle(s: System, events: seq<Event>)
    requires Execute(s, events).Some?
    ensures var r := Execute(s, events).value;
            r.fields.timerGeneration >= s.fields.timerGeneration
            && (r.fields.timerGeneration == s.fields.timerGeneration ==>
                  r.log.accepted == s.log.accepted && r.fields.closed == s.fields.closed)
  {
    if events != [] {
      var front := events[..|events| - 1];
      SameGenerationMeansIdle(s, front);
      GenerationGrows(Execute(s, front).value, events[|events| - 1]);
    }
  }
}
