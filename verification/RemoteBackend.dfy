/** The batching uploader of pkg/ingestor/remote.go: its mutable fields and every stretch of code
    that runs with `mu` held, as a class proved against functions over the fields' values. */
module RemoteBackend {
  import opened Common

  newtype byte = x: int | 0 <= x < 256

  datatype Page = Page(scanID: string, sequenceID: int, data: seq<byte>)

  const DEFAULT_MAX_PAGES := 10
  const DEFAULT_MAX_BYTES := 50 * 1024 * 1024

  datatype Config = Config(maxPages: int, maxBytes: int) {
    predicate Valid() { 0 < maxPages && 0 < maxBytes }
  }

  /** Errors by cause. A failed upload names the batch by its position in the history of takes. */
  datatype Error =
    | ReadFailed
    | BackendClosed
    | UploadFailed(serial: nat)
    | PreviousAsync(cause: Error)

  /** The fields guarded by `mu`. A timer is named by the generation it was armed with, and `armed`
      holds the timers the runtime has neither fired nor been told to stop. */
  datatype Fields = Fields(
    buf: seq<Page>, bufBytes: nat, currScan: string, flushErr: Option<Error>, closed: bool,
    idleTimer: Option<nat>, timerGeneration: nat, armed: set<nat>)

  const EMPTY := Fields([], 0, "", None, false, None, 0, {})

  function TotalBytes(pages: seq<Page>): nat {
    if pages == [] then 0 else TotalBytes(pages[..|pages| - 1]) + |pages[|pages| - 1].data|
  }

  function Take(f: Fields): Fields {
    if f.buf == [] then f else f.(buf := [], bufBytes := 0)
  }

  function StopTimer(f: Fields): Fields {
    if f.idleTimer.Some? then f.(armed := f.armed - {f.idleTimer.value}) else f
  }

  function ResetTimer(f: Fields): Fields {
    var g := f.timerGeneration + 1;
    var stopped := StopTimer(f);
    stopped.(timerGeneration := g, idleTimer := Some(g), armed := stopped.armed + {g})
  }

  datatype Admission = Refused(error: Error) | ScanChanged | Proceed

  function Admit(f: Fields, page: Page): Admission {
    if f.flushErr.Some? then Refused(PreviousAsync(f.flushErr.value))
    else if f.closed then Refused(BackendClosed)
    else if f.currScan != "" && page.scanID != "" && f.currScan != page.scanID then ScanChanged
    else Proceed
  }

  /** The buffer has reached one of its two limits. */
  predicate Full(c: Config, f: Fields) {
    |f.buf| >= c.maxPages || f.bufBytes >= c.maxBytes
  }

  /** The page joins the buffer and the idle timer starts over; nothing is taken yet. */
  function Enqueue(f: Fields, page: Page): Fields {
    ResetTimer(f.(currScan := if page.scanID != "" then page.scanID else f.currScan,
                  buf := f.buf + [page], bufBytes := f.bufBytes + |page.data|))
  }

  function Append(c: Config, f: Fields, page: Page): (r: (Fields, seq<Page>)) {
    var g := Enqueue(f, page);
    if Full(c, g) then (Take(g), g.buf) else (g, [])
  }

  function CancelTimer(f: Fields): Fields {
    StopTimer(f).(timerGeneration := f.timerGeneration + 1, idleTimer := None)
  }

  function Drain(f: Fields): Fields { Take(CancelTimer(f).(flushErr := None)) }

  function Previous(f: Fields): seq<Error> {
    if f.flushErr.Some? then [PreviousAsync(f.flushErr.value)] else []
  }

  function MarkClosed(f: Fields): Fields { CancelTimer(f).(closed := true) }

  predicate Current(f: Fields, generation: nat) { !f.closed && generation == f.timerGeneration }

  function Record(f: Fields, error: Error): Fields {
    if f.flushErr.None? then f.(flushErr := Some(error)) else f
  }

  class RemoteBackend {
    const config: Config
    var buf: seq<Page>
    var bufBytes: nat
    var currScan: string
    var flushErr: Option<Error>
    var closed: bool
    var idleTimer: Option<nat>
    var timerGeneration: nat
    var armed: set<nat>

    ghost function View(): Fields
      reads this
    {
      Fields(buf, bufBytes, currScan, flushErr, closed, idleTimer, timerGeneration, armed)
    }

    /** A limit that is not positive is replaced by its default. */
    constructor (batchMaxPages: int, batchMaxBytes: int)
      ensures View() == EMPTY && config.Valid()
      ensures batchMaxPages > 0 ==> config.maxPages == batchMaxPages
      ensures batchMaxPages <= 0 ==> config.maxPages == DEFAULT_MAX_PAGES
      ensures batchMaxBytes > 0 ==> config.maxBytes == batchMaxBytes
      ensures batchMaxBytes <= 0 ==> config.maxBytes == DEFAULT_MAX_BYTES
    {
      config := Config(if batchMaxPages <= 0 then DEFAULT_MAX_PAGES else batchMaxPages,
                       if batchMaxBytes <= 0 then DEFAULT_MAX_BYTES else batchMaxBytes);
      buf, bufBytes, currScan, flushErr, closed := [], 0, "", None, false;
      idleTimer, timerGeneration, armed := None, 0, {};
    }

    method TakeBufferLocked() returns (out: seq<Page>)
      modifies this
      ensures out == old(buf) && View() == Take(old(View()))
    {
      if |buf| == 0 {
        return [];
      }
      out := buf;
      buf := [];
      bufBytes := 0;
    }

    method ResetIdleTimerLocked()
      modifies this
      ensures View() == ResetTimer(old(View()))
    {
      if idleTimer.Some? {
        armed := armed - {idleTimer.value};
      }
      timerGeneration := timerGeneration + 1;
      idleTimer := Some(timerGeneration);
      armed := armed + {timerGeneration};
    }

    /** ProcessPage after its first lock, up to the decision whether the page may be appended. */
    method AdmitLocked(page: Page) returns (admission: Admission, toFlush: seq<Page>)
      modifies this
      ensures admission == Admit(old(View()), page)
      ensures admission.ScanChanged? ==> toFlush == old(buf) && View() == Take(old(View()))
      ensures !admission.ScanChanged? ==> toFlush == [] && View() == old(View())
    {
      toFlush := [];
      if flushErr.Some? {
        return Refused(PreviousAsync(flushErr.value)), [];
      }
      if closed {
        return Refused(BackendClosed), [];
      }
      if currScan != "" && page.scanID != "" && currScan != page.scanID {
        toFlush := TakeBufferLocked();
        return ScanChanged, toFlush;
      }
      return Proceed, [];
    }

    /** ProcessPage from the assignment of `currScan` to its last unlock. */
    method AppendLocked(page: Page) returns (toFlush: seq<Page>)
      modifies this
      ensures (View(), toFlush) == Append(config, old(View()), page)
    {
      if page.scanID != "" {
        currScan := page.scanID;
      }
      buf := buf + [page];
      bufBytes := bufBytes + |page.data|;
      ResetIdleTimerLocked();
      toFlush := [];
      if |buf| >= config.maxPages || bufBytes >= config.maxBytes {
        toFlush := TakeBufferLocked();
      }
    }

    /** The part of Flush that runs with `mu` held. */
    method DrainLocked() returns (previous: seq<Error>, toFlush: seq<Page>)
      modifies this
      ensures previous == Previous(old(View())) && toFlush == old(buf)
      ensures View() == Drain(old(View()))
    {
      timerGeneration := timerGeneration + 1;
      if idleTimer.Some? {
        armed := armed - {idleTimer.value};
        idleTimer := None;
      }
      previous := [];
      if flushErr.Some? {
        previous := [PreviousAsync(flushErr.value)];
        flushErr := None;
      }
      toFlush := TakeBufferLocked();
    }

    method CloseLocked()
      modifies this
      ensures View() == MarkClosed(old(View()))
    {
      timerGeneration := timerGeneration + 1;
      closed := true;
      if idleTimer.Some? {
        armed := armed - {idleTimer.value};
        idleTimer := None;
      }
    }

    /** The idle callback once it holds both locks. */
    method IdleTakeLocked(generation: nat) returns (toFlush: seq<Page>)
      modifies this
      ensures Current(old(View()), generation) ==> toFlush == old(buf) && View() == Take(old(View()))
      ensures !Current(old(View()), generation) ==> toFlush == [] && View() == old(View())
    {
      if closed || generation != timerGeneration {
        return [];
      }
      toFlush := TakeBufferLocked();
    }

    method RecordLocked(error: Error)
      modifies this
      ensures View() == Record(old(View()), error)
    {
      if flushErr.None? {
        flushErr := Some(error);
      }
    }
  }
}
