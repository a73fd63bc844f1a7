/** Any number of ProcessPage, Flush and Close calls and idle-timer callbacks over one backend.
    A step is the code of one thread between two lock operations; the server's answers and the
    scheduling are arbitrary. */
module UploadSystem {
  import opened Common
  import opened RemoteBackend

  datatype Call = Process(page: Page) | Flush | Close | Idle(generation: nat)

  /** What a thread does with `mu` held. All but the first two also hold `flushMu`. */
  datatype Section =
    | Admitting(page: Page) | Appending(page: Page) | Draining | Closing
    | Checking(generation: nat) | Recording(serial: nat)

  datatype Batch = Batch(serial: nat, pages: seq<Page>)

  /** `then` is the page of another scan that waits to be appended once the upload is over. */
  datatype PC =
    | Reading(page: Page)
    | AwaitMu(section: Section)
    | InMu(section: Section)
    | AwaitFlushMu(batch: Option<Batch>, next: Option<Page>)
    | Uploading(upload: Batch, prior: seq<Error>, next: Option<Page>)
    | Unlocking(errors: seq<Error>, next: Option<Page>)
    | Done(errors: seq<Error>)

  /** `ticket` is history: the position of the call's page among the accepted ones. */
  datatype Thread = Thread(call: Call, pc: PC, ticket: Option<nat>)

  datatype Fate = Held(thread: nat) | Accepted | Rejected(thread: nat)

  /** An idle callback has offered the failure of its batch to `flushErr`; a Flush has read and cleared it. */
  datatype Note = Recorded(serial: nat) | Drained(thread: nat)

  /** History: the pages appended and by which thread, the batches taken out of the buffer and what
      became of each, the order in which uploads began, and that of idle failures and drains. */
  datatype Log = Log(accepted: seq<Page>, origins: seq<nat>, takes: seq<seq<Page>>, fates: seq<Fate>,
                     attempts: seq<nat>, notes: seq<Note>)

  datatype System = System(config: Config, fields: Fields, mu: Option<nat>, flushMu: Option<nat>,
                           threads: seq<Thread>, log: Log)

  function Init(config: Config): System {
    System(config, EMPTY, None, None, [], Log([], [], [], [], [], []))
  }

  // ---------------------------------------------------------------- steps

  function At(s: System, t: nat, pc: PC): System
    requires t < |s.threads|
  {
    s.(threads := s.threads[t := s.threads[t].(pc := pc)])
  }

  function TakeLog(log: Log, t: nat, pages: seq<Page>): Log {
    log.(takes := log.takes + [pages], fates := log.fates + [Held(t)])
  }

  function BeginLog(log: Log, serial: nat): Log {
    log.(attempts := log.attempts + [serial])
  }

  function DecideLog(log: Log, serial: nat, fate: Fate): Log {
    if serial < |log.fates| then log.(fates := log.fates[serial := fate]) else log
  }

  function AppendLog(log: Log, t: nat, page: Page): Log {
    log.(accepted := log.accepted + [page], origins := log.origins + [t])
  }

  function NoteLog(log: Log, note: Note): Log {
    log.(notes := log.notes + [note])
  }

  /** The thread takes the whole buffer and then waits for `flushMu`. */
  function TakeAndWait(s: System, t: nat, next: Option<Page>): System
    requires t < |s.threads|
  {
    At(s.(fields := Take(s.fields), log := TakeLog(s.log, t, s.fields.buf)), t,
       AwaitFlushMu(Some(Batch(|s.log.takes|, s.fields.buf)), next))
  }

  /** The thread, which holds `flushMu`, takes the whole buffer and begins to upload it. */
  function TakeAndUpload(s: System, t: nat, prior: seq<Error>): System
    requires t < |s.threads|
  {
    At(s.(fields := Take(s.fields), log := BeginLog(TakeLog(s.log, t, s.fields.buf), |s.log.takes|)), t,
       Uploading(Batch(|s.log.takes|, s.fields.buf), prior, None))
  }

  /** The page enters the buffer; `mu` is still held. */
  function Enqueued(s: System, t: nat, page: Page): System
    requires t < |s.threads|
  {
    s.(fields := Enqueue(s.fields, page), log := AppendLog(s.log, t, page),
       threads := s.threads[t := s.threads[t].(ticket := Some(|s.log.accepted|))])
  }

  function RunAppend(s: System, t: nat, page: Page): System
    requires t < |s.threads|
  {
    var r := Enqueued(s, t, page).(mu := None);
    if Full(s.config, r.fields) then TakeAndWait(r, t, None) else At(r, t, Done([]))
  }

  function RunAdmit(s: System, t: nat, page: Page): System
    requires t < |s.threads|
  {
    match Admit(s.fields, page)
    case Refused(error) => At(s.(mu := None), t, Done([error]))
    case ScanChanged =>
      if s.fields.buf == [] then At(s.(mu := None), t, AwaitMu(Appending(page)))
      else TakeAndWait(s.(mu := None), t, Some(page))
    case Proceed => RunAppend(s, t, page)
  }

  function RunDrain(s: System, t: nat): System
    requires t < |s.threads|
  {
    var r := s.(mu := None, fields := CancelTimer(s.fields).(flushErr := None), log := NoteLog(s.log, Drained(t)));
    if s.fields.buf == [] then At(r, t, Unlocking(Previous(s.fields), None))
    else TakeAndUpload(r, t, Previous(s.fields))
  }

  function RunCheck(s: System, t: nat, generation: nat): System
    requires t < |s.threads|
  {
    if !Current(s.fields, generation) || s.fields.buf == [] then At(s.(mu := None), t, Unlocking([], None))
    else TakeAndUpload(s.(mu := None), t, [])
  }

  function RunSection(s: System, t: nat, section: Section): System
    requires t < |s.threads|
  {
    match section
    case Admitting(page) => RunAdmit(s, t, page)
    case Appending(page) => RunAppend(s, t, page)
    case Draining => RunDrain(s, t)
    case Closing => At(s.(mu := None, fields := MarkClosed(s.fields)), t, Unlocking([], None))
    case Checking(generation) => RunCheck(s, t, generation)
    case Recording(serial) =>
      At(s.(mu := None, fields := Record(s.fields, UploadFailed(serial)), log := NoteLog(s.log, Recorded(serial))), t,
         Unlocking([], None))
  }

  /** The section each call enters first. */
  function Entry(call: Call): Section {
    match call
    case Process(page) => Admitting(page)
    case Flush => Draining
    case Close => Closing
    case Idle(generation) => Checking(generation)
  }

  function RunLockFlush(s: System, t: nat, batch: Option<Batch>, next: Option<Page>): System
    requires t < |s.threads|
  {
    var r := s.(flushMu := Some(t));
    match batch
    case None => At(r, t, AwaitMu(Entry(s.threads[t].call)))
    case Some(b) => At(r.(log := BeginLog(s.log, b.serial)), t, Uploading(b, [], next))
  }

  function RunUpload(s: System, t: nat, batch: Batch, prior: seq<Error>, next: Option<Page>, ok: bool): System
    requires t < |s.threads|
  {
    var r := s.(log := DecideLog(s.log, batch.serial, if ok then Accepted else Rejected(t)));
    if ok then At(r, t, Unlocking(prior, next))
    else if s.threads[t].call.Idle? then At(r, t, AwaitMu(Recording(batch.serial)))
    else At(r, t, Unlocking(prior + [UploadFailed(batch.serial)], next))
  }

  function RunUnlock(s: System, t: nat, errors: seq<Error>, next: Option<Page>): System
    requires t < |s.threads|
  {
    At(s.(flushMu := None), t, if errors == [] && next.Some? then AwaitMu(Appending(next.value)) else Done(errors))
  }

  /** The thread can take its next step: it is not finished and not waiting for a lock that is held. */
  predicate Ready(s: System, t: nat) {
    t < |s.threads| &&
    match s.threads[t].pc
    case AwaitMu(_) => s.mu == None
    case AwaitFlushMu(_, _) => s.flushMu == None
    case Done(_) => false
    case _ => true
  }

  /** `ok` answers the one question a step may ask: could the page be read, did the server accept. */
  function Run(s: System, t: nat, ok: bool): System
    requires Ready(s, t)
  {
    match s.threads[t].pc
    case Reading(page) => At(s, t, if ok then AwaitMu(Admitting(page)) else Done([ReadFailed]))
    case AwaitMu(section) => At(s.(mu := Some(t)), t, InMu(section))
    case InMu(section) => RunSection(s, t, section)
    case AwaitFlushMu(batch, next) => RunLockFlush(s, t, batch, next)
    case Uploading(batch, prior, next) => RunUpload(s, t, batch, prior, next, ok)
    case Unlocking(errors, next) => RunUnlock(s, t, errors, next)
    case Done(_) => s
  }

  datatype Event = Invoke(call: Call) | Fire(generation: nat) | Step(thread: nat, ok: bool)

  function Spawn(s: System, call: Call): System {
    var pc := if call.Process? then Reading(call.page) else AwaitFlushMu(None, None);
    s.(threads := s.threads + [Thread(call, pc, None)])
  }

  predicate Enabled(s: System, e: Event) {
    match e
    case Invoke(call) => !call.Idle?
    case Fire(generation) => generation in s.fields.armed
    case Step(t, _) => Ready(s, t)
  }

  function Next(s: System, e: Event): System
    requires Enabled(s, e)
  {
    match e
    case Invoke(call) => Spawn(s, call)
    case Fire(g) => Spawn(s.(fields := s.fields.(armed := s.fields.armed - {g})), Idle(g))
    case Step(t, ok) => Run(s, t, ok)
  }

  /** With `mu` held the steps do to the fields what the methods of the class RemoteBackend do, and go
      on with the batch and the errors those return. */
  lemma SectionsAreTheMethods(s: System, t: nat, page: Page, generation: nat, serial: nat)
    requires t < |s.threads|
    ensures var r, (fields, batch) := RunSection(s, t, Appending(page)), Append(s.config, s.fields, page);
            r.fields == fields && r.threads[t].pc
            == if batch == [] then Done([]) else AwaitFlushMu(Some(Batch(|s.log.takes|, batch)), None)
    ensures var r := RunSection(s, t, Admitting(page));
            match Admit(s.fields, page)
            case Refused(error) => r.fields == s.fields && r.threads[t].pc == Done([error])
            case ScanChanged =>
              r.fields == Take(s.fields) && r.threads[t].pc
              == if s.fields.buf == [] then AwaitMu(Appending(page))
                 else AwaitFlushMu(Some(Batch(|s.log.takes|, s.fields.buf)), Some(page))
            case Proceed => r == RunSection(s, t, Appending(page))
    ensures var r := RunSection(s, t, Draining);
            r.fields == Drain(s.fields) && r.threads[t].pc
            == if s.fields.buf == [] then Unlocking(Previous(s.fields), None)
               else Uploading(Batch(|s.log.takes|, s.fields.buf), Previous(s.fields), None)
    ensures var r := RunSection(s, t, Closing);
            r.fields == MarkClosed(s.fields) && r.threads[t].pc == Unlocking([], None)
    ensures var r, taken := RunSection(s, t, Checking(generation)),
                            if Current(s.fields, generation) then s.fields.buf else [];
            r.fields == (if Current(s.fields, generation) then Take(s.fields) else s.fields) && r.threads[t].pc
            == if taken == [] then Unlocking([], None) else Uploading(Batch(|s.log.takes|, taken), [], None)
    ensures var r := RunSection(s, t, Recording(serial));
            r.fields == Record(s.fields, UploadFailed(serial)) && r.threads[t].pc == Unlocking([], None)
  {}

  // ---------------------------------------------------------------- invariants

  predicate HoldsMu(pc: PC) { pc.InMu? }

  predicate HoldsFlushMu(pc: PC) {
    pc.Uploading? || pc.Unlocking? ||
    ((pc.AwaitMu? || pc.InMu?) && !pc.section.Admitting? && !pc.section.Appending?)
  }

  function HeldBatch(pc: PC): Option<Batch> {
    match pc
    case AwaitFlushMu(batch, _) => batch
    case Uploading(batch, _, _) => Some(batch)
    case _ => None
  }

  predicate SectionOf(call: Call, section: Section) {
    match section
    case Appending(page) => call == Process(page)
    case Recording(_) => call.Idle?
    case _ => section == Entry(call)
  }

  /** Each kind of call only reaches its own program points, always with its own page. */
  predicate Shape(call: Call, pc: PC) {
    match pc
    case Reading(page) => call == Process(page)
    case AwaitMu(section) => SectionOf(call, section)
    case InMu(section) => SectionOf(call, section)
    case AwaitFlushMu(batch, next) => batch.Some? == call.Process? && (next.Some? ==> call == Process(next.value))
    case Uploading(_, prior, next) =>
      !call.Close? && (next.Some? ==> call == Process(next.value)) && (prior != [] ==> call.Flush?)
    case Unlocking(errors, next) =>
      (next.Some? ==> call == Process(next.value)) && (call.Close? || call.Idle? ==> errors == [])
    case Done(errors) => call.Close? || call.Idle? ==> errors == []
  }

  ghost predicate Shapes(threads: seq<Thread>) {
    forall t: nat | t < |threads| :: Shape(threads[t].call, threads[t].pc)
  }

  /** Exactly the threads at a lock-holding point hold the lock, so at most one thread each. */
  ghost predicate Locks(mu: Option<nat>, flushMu: Option<nat>, threads: seq<Thread>) {
    && (mu.Some? ==> mu.value < |threads|)
    && (flushMu.Some? ==> flushMu.value < |threads|)
    && forall t: nat | t < |threads| ::
         (HoldsMu(threads[t].pc) <==> mu == Some(t)) && (HoldsFlushMu(threads[t].pc) <==> flushMu == Some(t))
  }

  predicate Keeps(pc: PC, t: nat, log: Log) {
    match HeldBatch(pc)
    case Some(b) => b.serial < |log.takes| == |log.fates| && log.takes[b.serial] == b.pages && log.fates[b.serial] == Held(t)
    case None => true
  }

  /** Every batch that is neither accepted nor rejected is in the hands of exactly one thread. */
  ghost predicate Custody(threads: seq<Thread>, log: Log) {
    && |log.fates| == |log.takes|
    && (forall t: nat | t < |threads| :: Keeps(threads[t].pc, t, log))
    && (forall k: nat | k < |log.fates| && log.fates[k].Held? ::
          log.fates[k].thread < |threads| && HeldBatch(threads[log.fates[k].thread].pc) == Some(Batch(k, log.takes[k])))
  }

  /** A batch is non-empty, has at most maxPages pages, and was below the byte limit before its last page. */
  predicate Sized(c: Config, pages: seq<Page>) {
    0 < |pages| <= c.maxPages && TotalBytes(pages[..|pages| - 1]) < c.maxBytes
  }

  ghost predicate Queue(c: Config, f: Fields, log: Log) {
    && c.Valid()
    && log.accepted == Flatten(log.takes) + f.buf
    && f.bufBytes == TotalBytes(f.buf)
    && !Full(c, f)
    && forall k: nat | k < |log.takes| :: Sized(c, log.takes[k])
  }

  /** The call may still append its page. */
  predicate BeforeAppend(pc: PC) {
    match pc
    case AwaitFlushMu(_, next) => next.Some?
    case Uploading(_, _, next) => next.Some?
    case Unlocking(errors, next) => next.Some?
    case Done(_) => false
    case _ => true
  }

  predicate Ticketed(thread: Thread, t: nat, log: Log) {
    match thread.ticket
    case Some(i) =>
      i < |log.accepted| == |log.origins| && log.origins[i] == t && thread.call == Process(log.accepted[i])
      && !BeforeAppend(thread.pc)
    case None => thread.call.Process? ==> BeforeAppend(thread.pc) || (thread.pc.Done? && thread.pc.errors != [])
  }

  /** A call appends its page at most once, and a ProcessPage that returned nil did. */
  ghost predicate Tickets(threads: seq<Thread>, log: Log) {
    && |log.origins| == |log.accepted|
    && (forall i: nat | i < |log.origins| :: log.origins[i] < |threads| && threads[log.origins[i]].ticket == Some(i))
    && (forall t: nat | t < |threads| :: Ticketed(threads[t], t, log))
  }

  predicate PendingIdle(thread: Thread, generation: nat) {
    thread.call == Idle(generation) &&
    (thread.pc.AwaitFlushMu? || thread.pc == AwaitMu(Checking(generation)) || thread.pc == InMu(Checking(generation)))
  }

  /** A timer of the current generation is armed, or its callback is on its way to the buffer. */
  ghost predicate Watched(f: Fields, threads: seq<Thread>) {
    f.timerGeneration in f.armed || exists t: nat | t < |threads| :: PendingIdle(threads[t], f.timerGeneration)
  }

  ghost predicate Timers(f: Fields, threads: seq<Thread>) {
    && (forall g <- f.armed :: g == f.timerGeneration && f.idleTimer == Some(g))
    && (forall t: nat | t < |threads| :: threads[t].call.Idle? ==> threads[t].call.generation <= f.timerGeneration)
    && (f.buf != [] && !f.closed ==> Watched(f, threads))
  }

  predicate Tells(pc: PC, k: nat) { (pc.Unlocking? || pc.Done?) && UploadFailed(k) in pc.errors }

  predicate IsRecording(pc: PC) { (pc.AwaitMu? || pc.InMu?) && pc.section.Recording? }

  predicate Records(pc: PC, k: nat) { (pc.AwaitMu? || pc.InMu?) && pc.section == Recording(k) }

  /** Where the failure of batch k is known: in the error of the call that uploaded it, or, for an
      idle upload, on its way to be recorded, or recorded. */
  ghost predicate Accounted(threads: seq<Thread>, notes: seq<Note>, fate: Fate, k: nat) {
    fate.Rejected? ==>
      fate.thread < |threads| &&
      var thread := threads[fate.thread];
      if thread.call.Idle? then Records(thread.pc, k) || Recorded(k) in notes else Tells(thread.pc, k)
  }

  predicate RefusedIdle(threads: seq<Thread>, fates: seq<Fate>, k: nat) {
    k < |fates| && fates[k].Rejected? && fates[k].thread < |threads| && threads[fates[k].thread].call.Idle?
  }

  predicate RecordsOwn(pc: PC, t: nat, fates: seq<Fate>) {
    IsRecording(pc) ==> pc.section.serial < |fates| && fates[pc.section.serial] == Rejected(t)
  }

  /** Every refused batch is accounted for, and only refused idle batches are recorded. */
  ghost predicate Failures(threads: seq<Thread>, log: Log) {
    && (forall k: nat | k < |log.fates| :: Accounted(threads, log.notes, log.fates[k], k))
    && (forall t: nat | t < |threads| :: RecordsOwn(threads[t].pc, t, log.fates))
    && (forall k: nat | Recorded(k) in log.notes :: RefusedIdle(threads, log.fates, k))
  }

  /** The first idle failure recorded since the last drain. */
  function Pending(notes: seq<Note>): Option<nat> {
    if notes == [] then None
    else
      var before := Pending(notes[..|notes| - 1]);
      match notes[|notes| - 1]
      case Drained(_) => None
      case Recorded(k) => if before.Some? then before else Some(k)
  }

  function Cause(pending: Option<nat>): Option<Error> {
    if pending.Some? then Some(UploadFailed(pending.value)) else None
  }

  predicate HasDrained(pc: PC) { pc.Uploading? || pc.Unlocking? || pc.Done? }

  function ErrorsSoFar(pc: PC): seq<Error> {
    match pc
    case Uploading(_, prior, _) => prior
    case Unlocking(errors, _) => errors
    case Done(errors) => errors
    case _ => []
  }

  /** The error of an earlier idle upload among the errors a Flush returns, or is about to return. */
  function Reported(pc: PC): Option<Error> {
    var errors := ErrorsSoFar(pc);
    if errors != [] && errors[0].PreviousAsync? then Some(errors[0].cause) else None
  }

  /** The Flush of the i-th note returns the first idle failure recorded since the drain before it. */
  predicate Reports(threads: seq<Thread>, notes: seq<Note>, i: nat)
    requires i < |notes|
  {
    notes[i].Drained? ==>
      notes[i].thread < |threads| &&
      var thread := threads[notes[i].thread];
      thread.call.Flush? && HasDrained(thread.pc) && Reported(thread.pc) == Cause(Pending(notes[..i]))
  }

  /** `flushErr` is the first idle failure since the last drain, and each drain reported its own. */
  ghost predicate Notes(flushErr: Option<Error>, threads: seq<Thread>, notes: seq<Note>) {
    flushErr == Cause(Pending(notes)) && forall i: nat | i < |notes| :: Reports(threads, notes, i)
  }

  /** The batch is taken but its upload has not begun: its holder waits for `flushMu`. */
  predicate Waiting(threads: seq<Thread>, fate: Fate) {
    fate.Held? && fate.thread < |threads| && threads[fate.thread].pc.AwaitFlushMu?
  }

  /** An upload begins at most once per batch, and has begun for every batch nobody waits to send. */
  ghost predicate Attempts(threads: seq<Thread>, log: Log) {
    && Distinct(log.attempts)
    && (forall k <- log.attempts :: k < |log.fates|)
    && (forall k: nat | k < |log.fates| :: k in log.attempts <==> !Waiting(threads, log.fates[k]))
  }

  ghost predicate Inv(s: System) {
    && Shapes(s.threads) && Locks(s.mu, s.flushMu, s.threads) && Custody(s.threads, s.log)
    && Queue(s.config, s.fields, s.log) && Tickets(s.threads, s.log) && Timers(s.fields, s.threads)
    && Failures(s.threads, s.log) && Notes(s.fields.flushErr, s.threads, s.log.notes) && Attempts(s.threads, s.log)
  }

  lemma InitInv(config: Config)
    requires config.Valid()
    ensures Inv(Init(config))
  {}

  // ---------------------------------------------------------------- one thread moves

  /** A lock changes hands by a step of thread t only between t and nobody. */
  predicate LockMove(held: Option<nat>, held': Option<nat>, t: nat, holds: bool) {
    && (holds <==> held' == Some(t))
    && (held' == held || ((held.None? || held == Some(t)) && (held'.None? || held' == Some(t))))
  }

  lemma MoveLocks(s: System, r: System, t: nat, th: Thread)
    requires Locks(s.mu, s.flushMu, s.threads) && t < |s.threads| && r.threads == s.threads[t := th]
    requires LockMove(s.mu, r.mu, t, HoldsMu(th.pc)) && LockMove(s.flushMu, r.flushMu, t, HoldsFlushMu(th.pc))
    ensures Locks(r.mu, r.flushMu, r.threads)
  {}

  /** The thread keeps its batch, or comes to hold the newest one, or decides the fate of the one it had. */
  lemma MoveCustody(s: System, r: System, t: nat, th: Thread)
    requires Custody(s.threads, s.log) && t < |s.threads| && r.threads == s.threads[t := th]
    requires var held, held' := HeldBatch(s.threads[t].pc), HeldBatch(th.pc);
             || (r.log.takes == s.log.takes && r.log.fates == s.log.fates && held' == held)
             || (exists pages :: r.log.takes == s.log.takes + [pages] && r.log.fates == s.log.fates + [Held(t)]
                                 && held.None? && held' == Some(Batch(|s.log.takes|, pages)))
             || (held.Some? && held'.None? && r.log.takes == s.log.takes
                 && exists fate: Fate :: !fate.Held? && r.log.fates == s.log.fates[held.value.serial := fate])
    ensures Custody(r.threads, r.log)
  {
    assert Keeps(s.threads[t].pc, t, s.log);
    forall u: nat | u < |r.threads| ensures Keeps(r.threads[u].pc, u, r.log) {
      assert Keeps(s.threads[u].pc, u, s.log);
    }
  }

  lemma MoveTickets(s: System, r: System, t: nat, th: Thread)
    requires Tickets(s.threads, s.log) && t < |s.threads| && r.threads == s.threads[t := th]
    requires r.log.accepted == s.log.accepted && r.log.origins == s.log.origins
    requires th.ticket == s.threads[t].ticket && Ticketed(th, t, r.log)
    ensures Tickets(r.threads, r.log)
  {
    forall u: nat | u < |r.threads| ensures Ticketed(r.threads[u], u, r.log) {
      assert Ticketed(s.threads[u], u, s.log);
    }
  }

  /** A callback that is on its way stays so until the buffer has been emptied or the backend closed. */
  lemma MoveTimers(s: System, r: System, t: nat, th: Thread)
    requires Timers(s.fields, s.threads) && t < |s.threads| && r.threads == s.threads[t := th]
    requires th.call == s.threads[t].call
    requires forall g <- r.fields.armed :: g == r.fields.timerGeneration && r.fields.idleTimer == Some(g)
    requires r.fields.timerGeneration >= s.fields.timerGeneration
    requires r.fields.buf != [] && !r.fields.closed ==>
               || r.fields.timerGeneration in r.fields.armed
               || PendingIdle(th, r.fields.timerGeneration)
               || (s.fields.buf != [] && !s.fields.closed && r.fields.timerGeneration == s.fields.timerGeneration
                   && r.fields.armed == s.fields.armed && !PendingIdle(s.threads[t], s.fields.timerGeneration))
    ensures Timers(r.fields, r.threads)
  {
    if r.fields.buf != [] && !r.fields.closed && r.fields.timerGeneration !in r.fields.armed {
      var g := r.fields.timerGeneration;
      if PendingIdle(th, g) {
        assert PendingIdle(r.threads[t], g);
      } else {
        var u: nat :| u < |s.threads| && PendingIdle(s.threads[u], g);
        assert PendingIdle(r.threads[u], g);
      }
    }
  }

  /** An error is not forgotten: a thread that tells of one goes on telling, and a callback that is on
      its way to record one does so. */
  lemma MoveFailures(s: System, r: System, t: nat, th: Thread)
    requires Failures(s.threads, s.log) && t < |s.threads| && r.threads == s.threads[t := th]
    requires th.call == s.threads[t].call
    requires forall k: nat :: Tells(s.threads[t].pc, k) ==> Tells(th.pc, k)
    requires forall k: nat :: Records(s.threads[t].pc, k) ==> Records(th.pc, k) || Recorded(k) in r.log.notes
    requires forall k: nat :: Recorded(k) in r.log.notes ==>
               Recorded(k) in s.log.notes || (Records(s.threads[t].pc, k) && th.call.Idle?)
    requires forall k: nat :: Recorded(k) in s.log.notes ==> Recorded(k) in r.log.notes
    requires |r.log.fates| >= |s.log.fates|
    requires forall k: nat | k < |r.log.fates| ::
               || (k < |s.log.fates| && r.log.fates[k] == s.log.fates[k])
               || (!r.log.fates[k].Rejected? && (k < |s.log.fates| ==> !s.log.fates[k].Rejected?))
               || (r.log.fates[k] == Rejected(t) && (k < |s.log.fates| ==> !s.log.fates[k].Rejected?)
                   && if th.call.Idle? then Records(th.pc, k) else Tells(th.pc, k))
    requires RecordsOwn(th.pc, t, r.log.fates) || forall k: nat :: Records(th.pc, k) ==> Records(s.threads[t].pc, k)
    ensures Failures(r.threads, r.log)
  {
    forall k: nat | k < |r.log.fates| ensures Accounted(r.threads, r.log.notes, r.log.fates[k], k) {
      assert k < |s.log.fates| ==> Accounted(s.threads, s.log.notes, s.log.fates[k], k);
    }
    forall u: nat | u < |r.threads| ensures RecordsOwn(r.threads[u].pc, u, r.log.fates) {
      assert RecordsOwn(s.threads[u].pc, u, s.log.fates);
      assert IsRecording(r.threads[u].pc) ==> Records(r.threads[u].pc, r.threads[u].pc.section.serial);
    }
    forall k: nat | Recorded(k) in r.log.notes ensures RefusedIdle(r.threads, r.log.fates, k) {
      assert Recorded(k) in s.log.notes ==> RefusedIdle(s.threads, s.log.fates, k);
    }
  }

  /** A Flush that has drained goes on reporting what it read. */
  lemma MoveNotes(s: System, r: System, t: nat, th: Thread)
    requires Notes(s.fields.flushErr, s.threads, s.log.notes) && t < |s.threads| && r.threads == s.threads[t := th]
    requires r.log.notes == s.log.notes && r.fields.flushErr == s.fields.flushErr && th.call == s.threads[t].call
    requires th.call.Flush? && HasDrained(s.threads[t].pc) ==>
               HasDrained(th.pc) && Reported(th.pc) == Reported(s.threads[t].pc)
    ensures Notes(r.fields.flushErr, r.threads, r.log.notes)
  {
    forall i: nat | i < |r.log.notes| ensures Reports(r.threads, r.log.notes, i) {
      assert Reports(s.threads, s.log.notes, i);
    }
  }

  /** Nothing is said about errors that was not said before. */
  ghost predicate SameErrors(pc: PC, pc': PC, process: bool) {
    && (forall k: nat :: Tells(pc, k) ==> Tells(pc', k))
    && (forall k: nat :: Records(pc, k) <==> Records(pc', k))
    && Reported(pc') == Reported(pc) && (HasDrained(pc) ==> HasDrained(pc') || process)
  }

  lemma PassErrors(s: System, r: System, t: nat, th: Thread)
    requires Failures(s.threads, s.log) && Notes(s.fields.flushErr, s.threads, s.log.notes)
    requires t < |s.threads| && r.threads == s.threads[t := th] && th.call == s.threads[t].call
    requires r.log.notes == s.log.notes && r.log.fates == s.log.fates && r.fields.flushErr == s.fields.flushErr
    requires SameErrors(s.threads[t].pc, th.pc, th.call.Process?)
    ensures Failures(r.threads, r.log) && Notes(r.fields.flushErr, r.threads, r.log.notes)
  {
    MoveFailures(s, r, t, th);
    MoveNotes(s, r, t, th);
  }

  /** A section adds its own note. */
  lemma PushNote(s: System, r: System, t: nat, th: Thread, note: Note)
    requires Notes(s.fields.flushErr, s.threads, s.log.notes) && t < |s.threads| && r.threads == s.threads[t := th]
    requires r.log.notes == s.log.notes + [note] && !HasDrained(s.threads[t].pc)
    requires r.fields.flushErr == Cause(Pending(r.log.notes))
    requires note.Drained? ==>
               note.thread == t && th.call.Flush? && HasDrained(th.pc) && Reported(th.pc) == s.fields.flushErr
    ensures Notes(r.fields.flushErr, r.threads, r.log.notes)
  {
    var n := |s.log.notes|;
    forall i: nat | i < |r.log.notes| ensures Reports(r.threads, r.log.notes, i) {
      assert i <= n ==> r.log.notes[..i] == s.log.notes[..i];
      if i < n {
        assert Reports(s.threads, s.log.notes, i);
      } else {
        assert s.log.notes[..n] == s.log.notes;
      }
    }
  }

  lemma PendingPush(notes: seq<Note>, note: Note)
    ensures Pending(notes + [note]) ==
            if note.Drained? then None else if Pending(notes).Some? then Pending(notes) else Some(note.serial)
  {
    assert (notes + [note])[..|notes|] == notes;
  }

  /** The log of begun uploads stays exact when nobody starts or stops waiting to send. */
  lemma MoveAttempts(s: System, r: System, t: nat, th: Thread)
    requires Attempts(s.threads, s.log) && Custody(s.threads, s.log) && Custody(r.threads, r.log)
    requires t < |s.threads| && r.threads == s.threads[t := th]
    requires r.log.attempts == s.log.attempts && |r.log.fates| == |s.log.fates|
    requires th.pc.AwaitFlushMu? <==> s.threads[t].pc.AwaitFlushMu?
    requires r.log.fates == s.log.fates || (!th.pc.AwaitFlushMu? && forall k: nat | k < |s.log.fates| ::
               r.log.fates[k] == s.log.fates[k] || (s.log.fates[k] == Held(t) && !r.log.fates[k].Held?))
    ensures Attempts(r.threads, r.log)
  {
    forall k: nat | k < |r.log.fates| ensures Waiting(r.threads, r.log.fates[k]) <==> Waiting(s.threads, s.log.fates[k]) {}
  }

  lemma MoveShapes(s: System, r: System, t: nat, th: Thread)
    requires Shapes(s.threads) && t < |s.threads| && r.threads == s.threads[t := th] && Shape(th.call, th.pc)
    ensures Shapes(r.threads)
  {}

  // ---------------------------------------------------------------- every step keeps the invariants

  /** Steps that touch neither the buffer nor the history, notes apart. */
  predicate Quiet(s: System, r: System, t: nat, th: Thread)
    requires t < |s.threads|
  {
    && r.threads == s.threads[t := th] && r.config == s.config && r.log == s.log.(notes := r.log.notes)
    && r.fields.buf == s.fields.buf && r.fields.bufBytes == s.fields.bufBytes
    && th.call == s.threads[t].call && th.ticket == s.threads[t].ticket
    && HeldBatch(th.pc) == HeldBatch(s.threads[t].pc)
    && (th.pc.AwaitFlushMu? <==> s.threads[t].pc.AwaitFlushMu?)
    && Shape(th.call, th.pc) && Ticketed(th, t, s.log)
    && LockMove(s.mu, r.mu, t, HoldsMu(th.pc)) && LockMove(s.flushMu, r.flushMu, t, HoldsFlushMu(th.pc))
  }

  lemma QuietInv(s: System, r: System, t: nat, th: Thread)
    requires Inv(s) && t < |s.threads| && Quiet(s, r, t, th)
    requires Timers(r.fields, r.threads) && Failures(r.threads, r.log)
    requires Notes(r.fields.flushErr, r.threads, r.log.notes)
    ensures Inv(r)
  {
    MoveShapes(s, r, t, th);
    MoveLocks(s, r, t, th);
    MoveCustody(s, r, t, th);
    MoveTickets(s, r, t, th);
    MoveAttempts(s, r, t, th);
  }

  lemma ReadInv(s: System, t: nat, page: Page, ok: bool)
    requires Inv(s) && t < |s.threads| && s.threads[t].pc == Reading(page)
    ensures Inv(Run(s, t, ok))
  {
    var r := Run(s, t, ok);
    var th := r.threads[t];
    assert Shape(s.threads[t].call, s.threads[t].pc) && Ticketed(s.threads[t], t, s.log);
    MoveTimers(s, r, t, th);
    PassErrors(s, r, t, th);
    QuietInv(s, r, t, th);
  }

  lemma LockMuInv(s: System, t: nat, section: Section)
    requires Inv(s) && t < |s.threads| && s.threads[t].pc == AwaitMu(section) && s.mu == None
    ensures Inv(At(s.(mu := Some(t)), t, InMu(section)))
  {
    var r := At(s.(mu := Some(t)), t, InMu(section));
    var th := r.threads[t];
    assert Shape(s.threads[t].call, s.threads[t].pc) && Ticketed(s.threads[t], t, s.log);
    MoveTimers(s, r, t, th);
    PassErrors(s, r, t, th);
    QuietInv(s, r, t, th);
  }

  /** A section that changes no buffered page ends, with the thread at `pc` afterwards. */
  lemma QuietSectionInv(s: System, r: System, t: nat, pc: PC)
    requires Inv(s) && t < |s.threads| && s.threads[t].pc.InMu?
    requires r == At(s.(mu := None, fields := r.fields, log := r.log), t, pc) && r.log == s.log.(notes := r.log.notes)
    requires r.fields.buf == s.fields.buf && r.fields.bufBytes == s.fields.bufBytes
    requires HeldBatch(pc).None? && !pc.AwaitFlushMu? && !HoldsMu(pc)
    requires HoldsFlushMu(pc) <==> HoldsFlushMu(s.threads[t].pc)
    requires Shape(s.threads[t].call, pc)
    requires s.threads[t].call.Process? ==> BeforeAppend(pc) || (pc.Done? && pc.errors != [])
    requires Timers(r.fields, r.threads) && Failures(r.threads, r.log) && Notes(r.fields.flushErr, r.threads, r.log.notes)
    ensures Inv(r)
  {
    var th := s.threads[t].(pc := pc);
    assert Ticketed(s.threads[t], t, s.log) && Shape(s.threads[t].call, s.threads[t].pc);
    assert HoldsMu(s.threads[t].pc) <==> s.mu == Some(t);
    assert HoldsFlushMu(s.threads[t].pc) <==> s.flushMu == Some(t);
    QuietInv(s, r, t, th);
  }

  /** A section that neither reads nor writes `flushErr`. */
  lemma SilentSection(s: System, r: System, t: nat, pc: PC)
    requires Failures(s.threads, s.log) && Notes(s.fields.flushErr, s.threads, s.log.notes)
    requires t < |s.threads| && s.threads[t].pc.InMu? && !s.threads[t].pc.section.Recording?
    requires r == At(s.(mu := None, fields := r.fields), t, pc) && r.fields.flushErr == s.fields.flushErr
    requires !IsRecording(pc)
    ensures Failures(r.threads, r.log) && Notes(r.fields.flushErr, r.threads, r.log.notes)
  {
    MoveFailures(s, r, t, s.threads[t].(pc := pc));
    MoveNotes(s, r, t, s.threads[t].(pc := pc));
  }

  lemma ClosingInv(s: System, t: nat)
    requires Inv(s) && t < |s.threads| && s.threads[t].pc == InMu(Closing)
    ensures Inv(RunSection(s, t, Closing))
  {
    var r := RunSection(s, t, Closing);
    assert Shape(s.threads[t].call, s.threads[t].pc);
    MoveTimers(s, r, t, r.threads[t]);
    SilentSection(s, r, t, Unlocking([], None));
    QuietSectionInv(s, r, t, Unlocking([], None));
  }

  lemma RecordingInv(s: System, t: nat, serial: nat)
    requires Inv(s) && t < |s.threads| && s.threads[t].pc == InMu(Recording(serial))
    ensures Inv(RunSection(s, t, Recording(serial)))
  {
    var r := RunSection(s, t, Recording(serial));
    assert Shape(s.threads[t].call, s.threads[t].pc);
    MoveTimers(s, r, t, r.threads[t]);
    RecordingKeeps(s, r, t, serial);
    QuietSectionInv(s, r, t, Unlocking([], None));
  }

  lemma RecordingKeeps(s: System, r: System, t: nat, serial: nat)
    requires Failures(s.threads, s.log) && Notes(s.fields.flushErr, s.threads, s.log.notes)
    requires t < |s.threads| && s.threads[t].pc == InMu(Recording(serial)) && s.threads[t].call.Idle?
    requires r == RunSection(s, t, Recording(serial))
    ensures Failures(r.threads, r.log) && Notes(r.fields.flushErr, r.threads, r.log.notes)
  {
    var th := r.threads[t];
    assert r.log.notes[|s.log.notes|] == Recorded(serial);
    MoveFailures(s, r, t, th);
    PendingPush(s.log.notes, Recorded(serial));
    PushNote(s, r, t, th, Recorded(serial));
  }

  lemma LockFlushInv(s: System, t: nat, batch: Option<Batch>, next: Option<Page>)
    requires Inv(s) && t < |s.threads| && s.threads[t].pc == AwaitFlushMu(batch, next) && s.flushMu == None
    ensures Inv(RunLockFlush(s, t, batch, next))
  {
    LockFlushThreads(s, t, batch, next);
    LockFlushBatches(s, t, batch, next);
    LockFlushErrors(s, t, batch, next);
  }

  lemma LockFlushThreads(s: System, t: nat, batch: Option<Batch>, next: Option<Page>)
    requires Shapes(s.threads) && Locks(s.mu, s.flushMu, s.threads) && Tickets(s.threads, s.log)
    requires Timers(s.fields, s.threads)
    requires t < |s.threads| && s.threads[t].pc == AwaitFlushMu(batch, next) && s.flushMu == None
    ensures var r := RunLockFlush(s, t, batch, next);
            && Shapes(r.threads) && Locks(r.mu, r.flushMu, r.threads) && Tickets(r.threads, r.log)
            && Timers(r.fields, r.threads)
  {
    var r := RunLockFlush(s, t, batch, next);
    var th := r.threads[t];
    assert Shape(s.threads[t].call, s.threads[t].pc) && Ticketed(s.threads[t], t, s.log);
    assert HoldsMu(s.threads[t].pc) <==> s.mu == Some(t);
    MoveTimers(s, r, t, th);
    MoveShapes(s, r, t, th);
    MoveLocks(s, r, t, th);
    MoveTickets(s, r, t, th);
  }

  lemma LockFlushBatches(s: System, t: nat, batch: Option<Batch>, next: Option<Page>)
    requires Custody(s.threads, s.log) && Attempts(s.threads, s.log)
    requires t < |s.threads| && s.threads[t].pc == AwaitFlushMu(batch, next)
    ensures var r := RunLockFlush(s, t, batch, next); Custody(r.threads, r.log) && Attempts(r.threads, r.log)
  {
    var r := RunLockFlush(s, t, batch, next);
    var th := r.threads[t];
    assert Keeps(s.threads[t].pc, t, s.log);
    MoveCustody(s, r, t, th);
    if batch.Some? {
      BeginAttempts(s, r, t, batch.value.serial);
    } else {
      LeaveAttempts(s, r, t, th);
    }
  }

  lemma LockFlushErrors(s: System, t: nat, batch: Option<Batch>, next: Option<Page>)
    requires Failures(s.threads, s.log) && Notes(s.fields.flushErr, s.threads, s.log.notes)
    requires t < |s.threads| && s.threads[t].pc == AwaitFlushMu(batch, next)
    ensures var r := RunLockFlush(s, t, batch, next);
            Failures(r.threads, r.log) && Notes(r.fields.flushErr, r.threads, r.log.notes)
  {
    var r := RunLockFlush(s, t, batch, next);
    PassErrors(s, r, t, r.threads[t]);
  }

  /** The holder of a waiting batch begins its upload. */
  lemma BeginAttempts(s: System, r: System, t: nat, k: nat)
    requires Attempts(s.threads, s.log) && Custody(s.threads, s.log)
    requires t < |s.threads| && |r.threads| == |s.threads| && r.threads == s.threads[t := r.threads[t]]
    requires k < |s.log.fates| && s.log.fates[k] == Held(t) && s.threads[t].pc.AwaitFlushMu?
    requires !r.threads[t].pc.AwaitFlushMu? && r.log == BeginLog(s.log, k)
    ensures Attempts(r.threads, r.log)
  {
    assert Waiting(s.threads, s.log.fates[k]);
    forall j: nat | j < |s.log.fates| && j != k
      ensures Waiting(r.threads, r.log.fates[j]) <==> Waiting(s.threads, s.log.fates[j])
    {}
  }

  /** A thread without a batch stops waiting for `flushMu`. */
  lemma LeaveAttempts(s: System, r: System, t: nat, th: Thread)
    requires Attempts(s.threads, s.log) && Custody(s.threads, s.log)
    requires t < |s.threads| && r.threads == s.threads[t := th] && r.log == s.log
    requires HeldBatch(s.threads[t].pc).None?
    ensures Attempts(r.threads, r.log)
  {
    forall k: nat | k < |s.log.fates| ensures Waiting(r.threads, r.log.fates[k]) <==> Waiting(s.threads, s.log.fates[k]) {}
  }

  lemma UploadInv(s: System, t: nat, batch: Batch, prior: seq<Error>, next: Option<Page>, ok: bool)
    requires Inv(s) && t < |s.threads| && s.threads[t].pc == Uploading(batch, prior, next)
    ensures Inv(RunUpload(s, t, batch, prior, next, ok))
  {
    var r := RunUpload(s, t, batch, prior, next, ok);
    assert Shape(s.threads[t].call, s.threads[t].pc) && Keeps(s.threads[t].pc, t, s.log);
    UploadThreads(s, t, batch, prior, next, ok);
    UploadKeeps(s, r, t, batch, prior, next, ok);
    DecideCustody(s, r, t, r.threads[t], batch, if ok then Accepted else Rejected(t));
    UploadQueue(s, t, batch, prior, next, ok);
  }

  lemma UploadQueue(s: System, t: nat, batch: Batch, prior: seq<Error>, next: Option<Page>, ok: bool)
    requires Queue(s.config, s.fields, s.log) && t < |s.threads|
    ensures var r := RunUpload(s, t, batch, prior, next, ok); Queue(r.config, r.fields, r.log)
  {}

  lemma UploadThreads(s: System, t: nat, batch: Batch, prior: seq<Error>, next: Option<Page>, ok: bool)
    requires Shapes(s.threads) && Locks(s.mu, s.flushMu, s.threads) && Tickets(s.threads, s.log)
    requires Timers(s.fields, s.threads) && t < |s.threads| && s.threads[t].pc == Uploading(batch, prior, next)
    ensures var r := RunUpload(s, t, batch, prior, next, ok);
            && Shapes(r.threads) && Locks(r.mu, r.flushMu, r.threads) && Tickets(r.threads, r.log)
            && Timers(r.fields, r.threads)
  {
    var r := RunUpload(s, t, batch, prior, next, ok);
    var th := r.threads[t];
    assert Shape(s.threads[t].call, s.threads[t].pc) && Ticketed(s.threads[t], t, s.log);
    assert HoldsMu(s.threads[t].pc) <==> s.mu == Some(t);
    assert HoldsFlushMu(s.threads[t].pc) <==> s.flushMu == Some(t);
    MoveTimers(s, r, t, th);
    MoveShapes(s, r, t, th);
    MoveLocks(s, r, t, th);
    MoveTickets(s, r, t, th);
  }

  lemma UploadKeeps(s: System, r: System, t: nat, batch: Batch, prior: seq<Error>, next: Option<Page>, ok: bool)
    requires Failures(s.threads, s.log) && Notes(s.fields.flushErr, s.threads, s.log.notes)
    requires t < |s.threads| && s.threads[t].pc == Uploading(batch, prior, next) && Keeps(s.threads[t].pc, t, s.log)
    requires Shape(s.threads[t].call, s.threads[t].pc) && r == RunUpload(s, t, batch, prior, next, ok)
    ensures Failures(r.threads, r.log) && Notes(r.fields.flushErr, r.threads, r.log.notes)
  {
    var th := r.threads[t];
    assert r.log.fates == s.log.fates[batch.serial := if ok then Accepted else Rejected(t)];
    MoveFailures(s, r, t, th);
    MoveNotes(s, r, t, th);
  }

  lemma DecideCustody(s: System, r: System, t: nat, th: Thread, batch: Batch, fate: Fate)
    requires Custody(s.threads, s.log) && Attempts(s.threads, s.log)
    requires t < |s.threads| && r.threads == s.threads[t := th]
    requires s.threads[t].pc.Uploading? && s.threads[t].pc.upload == batch
    requires HeldBatch(th.pc).None? && !th.pc.AwaitFlushMu? && !fate.Held? && r.log == DecideLog(s.log, batch.serial, fate)
    ensures Custody(r.threads, r.log) && Attempts(r.threads, r.log)
  {
    assert Keeps(s.threads[t].pc, t, s.log);
    assert r.log.fates == s.log.fates[batch.serial := fate];
    MoveCustody(s, r, t, th);
    MoveAttempts(s, r, t, th);
  }

  lemma UnlockInv(s: System, t: nat, errors: seq<Error>, next: Option<Page>)
    requires Inv(s) && t < |s.threads| && s.threads[t].pc == Unlocking(errors, next)
    ensures Inv(RunUnlock(s, t, errors, next))
  {
    var r := RunUnlock(s, t, errors, next);
    var th := r.threads[t];
    assert Shape(s.threads[t].call, s.threads[t].pc) && Ticketed(s.threads[t], t, s.log);
    assert HoldsMu(s.threads[t].pc) <==> s.mu == Some(t);
    assert HoldsFlushMu(s.threads[t].pc) <==> s.flushMu == Some(t);
    MoveTimers(s, r, t, th);
    PassErrors(s, r, t, th);
    QuietInv(s, r, t, th);
  }

  // ---------------------------------------------------------------- taking the buffer

  /** The queue as it is between appending a page and looking at the limits. */
  predicate Open(c: Config, f: Fields, log: Log) {
    && c.Valid()
    && log.accepted == Flatten(log.takes) + f.buf
    && f.bufBytes == TotalBytes(f.buf)
    && (f.buf != [] ==> Sized(c, f.buf))
  }

  lemma QueueIsOpen(c: Config, f: Fields, log: Log)
    requires Queue(c, f, log)
    ensures Open(c, f, log)
  {}

  lemma EnqueueOpen(c: Config, f: Fields, log: Log, t: nat, page: Page)
    requires Queue(c, f, log)
    ensures Open(c, Enqueue(f, page), AppendLog(log, t, page))
  {
    assert (f.buf + [page])[..|f.buf|] == f.buf;
  }

  lemma TakeQueue(c: Config, f: Fields, log: Log, t: nat)
    requires Open(c, f, log) && f.buf != []
    requires forall k: nat | k < |log.takes| :: Sized(c, log.takes[k])
    ensures Queue(c, Take(f), TakeLog(log, t, f.buf))
  {
    FlattenPush(log.takes, f.buf);
    assert Flatten(log.takes) + f.buf + [] == Flatten(log.takes) + f.buf;
  }

  /** The newest batch is waited for, or its upload has begun. */
  lemma TakeAttempts(s: System, r: System, t: nat, pages: seq<Page>)
    requires Attempts(s.threads, s.log) && |s.log.fates| == |s.log.takes|
    requires t < |s.threads| && |r.threads| == |s.threads| && r.threads == s.threads[t := r.threads[t]]
    requires forall k: nat | k < |s.log.fates| :: s.log.fates[k] != Held(t)
    requires r.log.fates == s.log.fates + [Held(t)]
    requires r.log.attempts == if r.threads[t].pc.AwaitFlushMu? then s.log.attempts else s.log.attempts + [|s.log.takes|]
    ensures Attempts(r.threads, r.log)
  {
    forall k: nat | k < |s.log.fates| ensures Waiting(r.threads, r.log.fates[k]) <==> Waiting(s.threads, s.log.fates[k]) {}
    assert |s.log.takes| !in s.log.attempts;
  }

  lemma NoBatchNoFate(s: System, t: nat)
    requires Custody(s.threads, s.log) && t < |s.threads| && HeldBatch(s.threads[t].pc).None?
    ensures forall k: nat | k < |s.log.fates| :: s.log.fates[k] != Held(t)
  {}

  lemma DrainTakeInv(s: System, t: nat)
    requires Inv(s) && t < |s.threads| && s.threads[t].pc == InMu(Draining)
    ensures Inv(RunSection(s, t, Draining))
  {
    assert Shape(s.threads[t].call, s.threads[t].pc);
    DrainNotes(s, RunDrain(s, t), t);
    DrainTimers(s, RunDrain(s, t), t);
    if s.fields.buf == [] {
      DrainEmptyInv(s, t);
    } else {
      DrainFullInv(s, t);
    }
  }

  lemma DrainEmptyInv(s: System, t: nat)
    requires Inv(s) && t < |s.threads| && s.threads[t].pc == InMu(Draining) && s.fields.buf == []
    requires var r := RunDrain(s, t);
             Timers(r.fields, r.threads) && Notes(r.fields.flushErr, r.threads, r.log.notes)
    ensures Inv(RunDrain(s, t))
  {
    var r := RunDrain(s, t);
    assert Shape(s.threads[t].call, s.threads[t].pc);
    DrainFailures(s, r, t);
    QuietSectionInv(s, r, t, Unlocking(Previous(s.fields), None));
  }

  lemma DrainFullInv(s: System, t: nat)
    requires Inv(s) && t < |s.threads| && s.threads[t].pc == InMu(Draining) && s.fields.buf != []
    requires var r := RunDrain(s, t);
             Timers(r.fields, r.threads) && Notes(r.fields.flushErr, r.threads, r.log.notes)
    ensures Inv(RunDrain(s, t))
  {
    var r := RunDrain(s, t);
    assert Shape(s.threads[t].call, s.threads[t].pc);
    QueueIsOpen(s.config, s.fields, s.log);
    TakeQueue(s.config, CancelTimer(s.fields).(flushErr := None), s.log, t);
    TakeTickets(s, r, t, r.threads[t]);
    TakeInv(s, r, t, r.threads[t], s.fields.buf);
  }

  lemma DrainTimers(s: System, r: System, t: nat)
    requires Timers(s.fields, s.threads)
    requires t < |s.threads| && s.threads[t].pc == InMu(Draining) && r == RunDrain(s, t)
    ensures Timers(r.fields, r.threads)
  {
    MoveTimers(s, r, t, r.threads[t]);
  }

  lemma DrainNotes(s: System, r: System, t: nat)
    requires Notes(s.fields.flushErr, s.threads, s.log.notes)
    requires t < |s.threads| && s.threads[t].pc == InMu(Draining) && s.threads[t].call.Flush? && r == RunDrain(s, t)
    ensures Notes(r.fields.flushErr, r.threads, r.log.notes)
  {
    PendingPush(s.log.notes, Drained(t));
    PushNote(s, r, t, r.threads[t], Drained(t));
  }

  lemma DrainFailures(s: System, r: System, t: nat)
    requires Failures(s.threads, s.log)
    requires t < |s.threads| && s.threads[t].pc == InMu(Draining) && r == RunDrain(s, t) && s.fields.buf == []
    ensures Failures(r.threads, r.log)
  {
    MoveFailures(s, r, t, r.threads[t]);
  }

  /** What remains to be seen of a step that takes a batch once its queue and timers are known. */
  lemma TakeInv(s: System, r: System, t: nat, th: Thread, pages: seq<Page>)
    requires Inv(s) && t < |s.threads| && s.threads[t].pc.InMu? && r.threads == s.threads[t := th]
    requires th.call == s.threads[t].call && Shape(th.call, th.pc)
    requires HeldBatch(th.pc) == Some(Batch(|s.log.takes|, pages))
    requires r.log.takes == s.log.takes + [pages] && r.log.fates == s.log.fates + [Held(t)]
    requires r.log.attempts == if th.pc.AwaitFlushMu? then s.log.attempts else s.log.attempts + [|s.log.takes|]
    requires r.mu == None && r.flushMu == s.flushMu && (HoldsFlushMu(th.pc) <==> HoldsFlushMu(s.threads[t].pc))
    requires !IsRecording(s.threads[t].pc) && Notes(r.fields.flushErr, r.threads, r.log.notes)
    requires forall k: nat :: Recorded(k) in r.log.notes <==> Recorded(k) in s.log.notes
    requires Queue(r.config, r.fields, r.log) && Timers(r.fields, r.threads)
    requires Tickets(r.threads, r.log)
    ensures Inv(r)
  {
    TakeThreads(s, r, t, th);
    MoveCustody(s, r, t, th);
    TakeErrors(s, r, t, th);
    NoBatchNoFate(s, t);
    TakeAttempts(s, r, t, pages);
  }

  lemma TakeErrors(s: System, r: System, t: nat, th: Thread)
    requires Failures(s.threads, s.log)
    requires t < |s.threads| && s.threads[t].pc.InMu? && r.threads == s.threads[t := th] && th.call == s.threads[t].call
    requires r.log.fates == s.log.fates + [Held(t)] && !IsRecording(s.threads[t].pc) && !IsRecording(th.pc)
    requires forall k: nat :: Recorded(k) in r.log.notes <==> Recorded(k) in s.log.notes
    ensures Failures(r.threads, r.log)
  {
    MoveFailures(s, r, t, th);
  }

  /** A call that takes the buffer before it appends keeps its ticket. */
  lemma TakeTickets(s: System, r: System, t: nat, th: Thread)
    requires Tickets(s.threads, s.log) && t < |s.threads| && r.threads == s.threads[t := th]
    requires s.threads[t].pc.InMu? && th.call == s.threads[t].call && th.ticket == s.threads[t].ticket
    requires r.log.accepted == s.log.accepted && r.log.origins == s.log.origins
    requires th.call.Process? ==> BeforeAppend(th.pc)
    ensures Tickets(r.threads, r.log)
  {
    assert Ticketed(s.threads[t], t, s.log);
    MoveTickets(s, r, t, th);
  }

  lemma TakeThreads(s: System, r: System, t: nat, th: Thread)
    requires Shapes(s.threads) && Locks(s.mu, s.flushMu, s.threads)
    requires t < |s.threads| && s.threads[t].pc.InMu? && r.threads == s.threads[t := th]
    requires Shape(th.call, th.pc) && (th.pc.AwaitFlushMu? || th.pc.Uploading?)
    requires r.mu == None && r.flushMu == s.flushMu && (HoldsFlushMu(th.pc) <==> HoldsFlushMu(s.threads[t].pc))
    ensures Shapes(r.threads) && Locks(r.mu, r.flushMu, r.threads)
  {
    assert HoldsMu(s.threads[t].pc) <==> s.mu == Some(t);
    assert HoldsFlushMu(s.threads[t].pc) <==> s.flushMu == Some(t);
    MoveShapes(s, r, t, th);
    MoveLocks(s, r, t, th);
  }

  lemma CheckInv(s: System, t: nat, g: nat)
    requires Inv(s) && t < |s.threads| && s.threads[t].pc == InMu(Checking(g))
    ensures Inv(RunSection(s, t, Checking(g)))
  {
    var r := RunSection(s, t, Checking(g));
    var th := r.threads[t];
    assert Shape(s.threads[t].call, s.threads[t].pc);
    MoveTimers(s, r, t, th);
    if !Current(s.fields, g) || s.fields.buf == [] {
      SilentSection(s, r, t, Unlocking([], None));
      QuietSectionInv(s, r, t, Unlocking([], None));
    } else {
      QueueIsOpen(s.config, s.fields, s.log);
      TakeQueue(s.config, s.fields, s.log, t);
      MoveNotes(s, r, t, th);
      TakeTickets(s, r, t, th);
      TakeInv(s, r, t, th, s.fields.buf);
    }
  }

  lemma AppendTickets(s: System, r: System, t: nat, th: Thread, page: Page)
    requires Tickets(s.threads, s.log) && t < |s.threads| && r.threads == s.threads[t := th]
    requires s.threads[t].ticket.None? && th.ticket == Some(|s.log.accepted|) && th.call == Process(page)
    requires !BeforeAppend(th.pc)
    requires r.log.accepted == s.log.accepted + [page] && r.log.origins == s.log.origins + [t]
    ensures Tickets(r.threads, r.log)
  {
    forall u: nat | u < |r.threads| ensures Ticketed(r.threads[u], u, r.log) {
      assert Ticketed(s.threads[u], u, s.log);
    }
  }

  lemma AppendInv(s: System, t: nat, page: Page)
    requires Inv(s) && t < |s.threads| && s.threads[t].pc.InMu? && s.threads[t].call == Process(page)
    ensures Inv(RunAppend(s, t, page))
  {
    if Full(s.config, Enqueue(s.fields, page)) {
      AppendFullInv(s, t, page);
    } else {
      AppendRoomInv(s, t, page);
    }
  }

  lemma AppendKeepsTickets(s: System, t: nat, page: Page)
    requires Tickets(s.threads, s.log) && t < |s.threads| && s.threads[t].pc.InMu? && s.threads[t].call == Process(page)
    requires Shape(s.threads[t].call, s.threads[t].pc)
    ensures var r := RunAppend(s, t, page); Tickets(r.threads, r.log)
  {
    var r := RunAppend(s, t, page);
    assert Ticketed(s.threads[t], t, s.log);
    AppendTickets(s, r, t, r.threads[t], page);
  }

  lemma AppendKeepsQueue(s: System, t: nat, page: Page)
    requires Queue(s.config, s.fields, s.log) && t < |s.threads|
    ensures var r := RunAppend(s, t, page); Queue(r.config, r.fields, r.log)
  {
    EnqueueOpen(s.config, s.fields, s.log, t, page);
    if Full(s.config, Enqueue(s.fields, page)) {
      TakeQueue(s.config, Enqueue(s.fields, page), AppendLog(s.log, t, page), t);
    }
  }

  lemma AppendKeepsTimers(s: System, t: nat, page: Page)
    requires Timers(s.fields, s.threads) && t < |s.threads| && s.threads[t].pc.InMu?
    ensures var r := RunAppend(s, t, page); Timers(r.fields, r.threads)
  {
    var r := RunAppend(s, t, page);
    MoveTimers(s, r, t, r.threads[t]);
  }

  lemma AppendFullInv(s: System, t: nat, page: Page)
    requires Inv(s) && t < |s.threads| && s.threads[t].pc.InMu? && s.threads[t].call == Process(page)
    requires Full(s.config, Enqueue(s.fields, page))
    ensures Inv(RunAppend(s, t, page))
  {
    var r := RunAppend(s, t, page);
    assert Shape(s.threads[t].call, s.threads[t].pc);
    AppendKeepsQueue(s, t, page);
    AppendKeepsTickets(s, t, page);
    AppendKeepsTimers(s, t, page);
    MoveNotes(s, r, t, r.threads[t]);
    TakeInv(s, r, t, r.threads[t], Enqueue(s.fields, page).buf);
  }

  lemma AppendRoomInv(s: System, t: nat, page: Page)
    requires Inv(s) && t < |s.threads| && s.threads[t].pc.InMu? && s.threads[t].call == Process(page)
    requires !Full(s.config, Enqueue(s.fields, page))
    ensures Inv(RunAppend(s, t, page))
  {
    var r := RunAppend(s, t, page);
    assert Shape(s.threads[t].call, s.threads[t].pc);
    AppendKeepsQueue(s, t, page);
    AppendKeepsTickets(s, t, page);
    AppendKeepsTimers(s, t, page);
    AppendOnlyInv(s, r, t, r.threads[t]);
  }

  lemma AppendOnlyInv(s: System, r: System, t: nat, th: Thread)
    requires Inv(s) && t < |s.threads| && s.threads[t].pc.InMu? && s.threads[t].call.Process?
    requires r.threads == s.threads[t := th] && th.call == s.threads[t].call && th.pc == Done([])
    requires r.mu == None && r.flushMu == s.flushMu && r.fields.flushErr == s.fields.flushErr
    requires r.log.takes == s.log.takes && r.log.fates == s.log.fates && r.log.attempts == s.log.attempts
    requires r.log.notes == s.log.notes
    requires Queue(r.config, r.fields, r.log) && Timers(r.fields, r.threads) && Tickets(r.threads, r.log)
    ensures Inv(r)
  {
    assert Shape(s.threads[t].call, s.threads[t].pc);
    assert HoldsMu(s.threads[t].pc) <==> s.mu == Some(t);
    assert HoldsFlushMu(s.threads[t].pc) <==> s.flushMu == Some(t);
    MoveShapes(s, r, t, th);
    MoveLocks(s, r, t, th);
    MoveCustody(s, r, t, th);
    MoveFailures(s, r, t, th);
    MoveNotes(s, r, t, th);
    MoveAttempts(s, r, t, th);
  }

  lemma AdmitInv(s: System, t: nat, page: Page)
    requires Inv(s) && t < |s.threads| && s.threads[t].pc == InMu(Admitting(page))
    ensures Inv(RunAdmit(s, t, page))
  {
    assert Shape(s.threads[t].call, s.threads[t].pc);
    match Admit(s.fields, page)
    case Refused(error) => PassInv(s, t, page, Done([error]));
    case ScanChanged =>
      if s.fields.buf == [] {
        PassInv(s, t, page, AwaitMu(Appending(page)));
      } else {
        MakeRoomInv(s, t, page);
      }
    case Proceed => AppendInv(s, t, page);
  }

  /** The caller leaves the section with nothing changed. */
  lemma PassInv(s: System, t: nat, page: Page, pc: PC)
    requires Inv(s) && t < |s.threads| && s.threads[t].pc == InMu(Admitting(page))
    requires pc == AwaitMu(Appending(page)) || (pc.Done? && pc.errors != [])
    ensures Inv(At(s.(mu := None), t, pc))
  {
    var r := At(s.(mu := None), t, pc);
    assert Shape(s.threads[t].call, s.threads[t].pc);
    MoveTimers(s, r, t, r.threads[t]);
    SilentSection(s, r, t, pc);
    QuietSectionInv(s, r, t, pc);
  }

  lemma MakeRoomInv(s: System, t: nat, page: Page)
    requires Inv(s) && t < |s.threads| && s.threads[t].pc == InMu(Admitting(page)) && s.fields.buf != []
    ensures Inv(TakeAndWait(s.(mu := None), t, Some(page)))
  {
    var r := TakeAndWait(s.(mu := None), t, Some(page));
    assert Shape(s.threads[t].call, s.threads[t].pc);
    QueueIsOpen(s.config, s.fields, s.log);
    TakeQueue(s.config, s.fields, s.log, t);
    MoveTimers(s, r, t, r.threads[t]);
    MoveNotes(s, r, t, r.threads[t]);
    TakeTickets(s, r, t, r.threads[t]);
    TakeInv(s, r, t, r.threads[t], s.fields.buf);
  }

  lemma RunInv(s: System, t: nat, ok: bool)
    requires Inv(s) && Ready(s, t)
    ensures Inv(Run(s, t, ok))
  {
    assert Shape(s.threads[t].call, s.threads[t].pc);
    match s.threads[t].pc
    case Reading(page) => ReadInv(s, t, page, ok);
    case AwaitMu(section) => LockMuInv(s, t, section);
    case InMu(section) => SectionInv(s, t, section);
    case AwaitFlushMu(batch, next) => LockFlushInv(s, t, batch, next);
    case Uploading(batch, prior, next) => UploadInv(s, t, batch, prior, next, ok);
    case Unlocking(errors, next) => UnlockInv(s, t, errors, next);
    case Done(_) =>
  }

  lemma SectionInv(s: System, t: nat, section: Section)
    requires Inv(s) && t < |s.threads| && s.threads[t].pc == InMu(section)
    ensures Inv(RunSection(s, t, section))
  {
    assert Shape(s.threads[t].call, s.threads[t].pc);
    match section
    case Admitting(page) => AdmitInv(s, t, page);
    case Appending(page) => AppendInv(s, t, page);
    case Draining => DrainTakeInv(s, t);
    case Closing => ClosingInv(s, t);
    case Checking(g) => CheckInv(s, t, g);
    case Recording(serial) => RecordingInv(s, t, serial);
  }

  lemma SpawnInv(s: System, call: Call)
    requires Inv(s) && !call.Idle?
    ensures Inv(Spawn(s, call))
  {
    SpawnParts(s, s.fields, call);
    var r := Spawn(s, call);
    if s.fields.buf != [] && !s.fields.closed && s.fields.timerGeneration !in s.fields.armed {
      var u: nat :| u < |s.threads| && PendingIdle(s.threads[u], s.fields.timerGeneration);
      assert PendingIdle(r.threads[u], s.fields.timerGeneration);
    }
  }

  /** A new thread holds nothing and tells of nothing. */
  lemma SpawnParts(s: System, fields: Fields, call: Call)
    requires Inv(s) && fields == s.fields.(armed := fields.armed)
    ensures var r := Spawn(s.(fields := fields), call);
            && Shapes(r.threads) && Locks(r.mu, r.flushMu, r.threads) && Custody(r.threads, r.log)
            && Queue(r.config, r.fields, r.log) && Tickets(r.threads, r.log)
            && Failures(r.threads, r.log) && Notes(r.fields.flushErr, r.threads, r.log.notes)
            && Attempts(r.threads, r.log)
  {
    var r := Spawn(s.(fields := fields), call);
    SpawnShapes(s, r);
    SpawnTickets(s, r);
    SpawnBatches(s, r);
    SpawnFailures(s, r);
    SpawnNotes(s, r);
  }

  /** A call that has just begun. */
  predicate Begun(thread: Thread) {
    Shape(thread.call, thread.pc) && !HoldsMu(thread.pc) && !HoldsFlushMu(thread.pc) && HeldBatch(thread.pc).None?
    && thread.ticket.None? && (thread.call.Process? ==> BeforeAppend(thread.pc))
    && !thread.pc.Done? && !IsRecording(thread.pc)
  }

  /** One thread more, and nothing else. */
  predicate Joined(s: System, r: System) {
    && r.mu == s.mu && r.flushMu == s.flushMu && r.log == s.log && r.fields.flushErr == s.fields.flushErr
    && |r.threads| == |s.threads| + 1 && r.threads[..|s.threads|] == s.threads && Begun(r.threads[|s.threads|])
  }

  lemma SameThreads(s: System, r: System)
    requires Joined(s, r)
    ensures forall t: nat | t < |s.threads| :: r.threads[t] == s.threads[t]
  {
    assert forall t: nat | t < |s.threads| :: r.threads[..|s.threads|][t] == r.threads[t];
  }

  lemma SpawnShapes(s: System, r: System)
    requires Shapes(s.threads) && Locks(s.mu, s.flushMu, s.threads) && Joined(s, r)
    ensures Shapes(r.threads) && Locks(r.mu, r.flushMu, r.threads)
  {
    SameThreads(s, r);
  }

  lemma SpawnTickets(s: System, r: System)
    requires Tickets(s.threads, s.log) && Joined(s, r)
    ensures Tickets(r.threads, r.log)
  {
    SameThreads(s, r);
    forall t: nat | t < |r.threads| ensures Ticketed(r.threads[t], t, r.log) {
      assert t < |s.threads| ==> Ticketed(s.threads[t], t, s.log);
    }
  }

  lemma SpawnBatches(s: System, r: System)
    requires Custody(s.threads, s.log) && Attempts(s.threads, s.log) && Joined(s, r)
    ensures Custody(r.threads, r.log) && Attempts(r.threads, r.log)
  {
    SameThreads(s, r);
    forall k: nat | k < |s.log.fates| ensures Waiting(r.threads, r.log.fates[k]) <==> Waiting(s.threads, s.log.fates[k]) {}
  }

  lemma SpawnFailures(s: System, r: System)
    requires Failures(s.threads, s.log) && Joined(s, r)
    ensures Failures(r.threads, r.log)
  {
    SameThreads(s, r);
    forall k: nat | k < |r.log.fates| ensures Accounted(r.threads, r.log.notes, r.log.fates[k], k) {
      assert Accounted(s.threads, s.log.notes, s.log.fates[k], k);
    }
    forall k: nat | Recorded(k) in r.log.notes ensures RefusedIdle(r.threads, r.log.fates, k) {
      assert RefusedIdle(s.threads, s.log.fates, k);
    }
  }

  lemma SpawnNotes(s: System, r: System)
    requires Notes(s.fields.flushErr, s.threads, s.log.notes) && Joined(s, r)
    ensures Notes(r.fields.flushErr, r.threads, r.log.notes)
  {
    SameThreads(s, r);
    forall i: nat | i < |r.log.notes| ensures Reports(r.threads, r.log.notes, i) {
      assert Reports(s.threads, s.log.notes, i);
    }
  }

  lemma FireInv(s: System, g: nat)
    requires Inv(s) && g in s.fields.armed
    ensures Inv(Next(s, Fire(g)))
  {
    var r := Next(s, Fire(g));
    SpawnParts(s, r.fields, Idle(g));
    assert PendingIdle(r.threads[|s.threads|], g);
  }

  lemma NextInv(s: System, e: Event)
    requires Inv(s) && Enabled(s, e)
    ensures Inv(Next(s, e))
  {
    match e
    case Invoke(call) => SpawnInv(s, call);
    case Fire(g) => FireInv(s, g);
    case Step(t, ok) => RunInv(s, t, ok);
  }
}
