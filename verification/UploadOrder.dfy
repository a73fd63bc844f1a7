/** Order and scan purity of the batches: what one ProcessPage caller at a time guarantees while idle
    timer, Flush and Close interleave freely, and exactly when no batch can mix two scans. */
module UploadOrder {
  import opened Common
  import opened RemoteBackend
  import opened UploadSystem
  import opened UploadSafety

  /** Which ProcessPage calls may overlap, by the scan IDs of their pages. Nothing else is restricted. */
  datatype Clients = Clients(overlap: (string, string) -> bool)

  predicate MayOverlap(c: Clients, a: string, b: string) { c.overlap(a, b) || c.overlap(b, a) }

  /** No two calls overlap. */
  ghost predicate OneAtATime(c: Clients) {
    forall a, b :: !MayOverlap(c, a, b)
  }

  /** No two calls for different scans overlap. */
  ghost predicate Separate(c: Clients) {
    forall a, b | MayOverlap(c, a, b) :: Agree(a, b)
  }

  /** Two scan IDs that may stand in one batch; the empty one names no scan. */
  predicate Agree(a: string, b: string) { a == "" || b == "" || a == b }

  predicate Active(thread: Thread) { thread.call.Process? && !thread.pc.Done? }

  ghost predicate Permitted(c: Clients, s: System, e: Event) {
    e.Invoke? && e.call.Process? ==>
      forall t: nat | t < |s.threads| && Active(s.threads[t]) ::
        MayOverlap(c, e.call.page.scanID, s.threads[t].call.page.scanID)
  }

  ghost predicate Obeys(c: Clients, s: System, events: seq<Event>) {
    events == [] ||
    (Obeys(c, s, events[..|events| - 1]) &&
     match Execute(s, events[..|events| - 1])
     case Some(m) => Permitted(c, m, events[|events| - 1])
     case None => false)
  }

  ghost predicate ReachableBy(c: Clients, config: Config, s: System) {
    exists events :: Obeys(c, Init(config), events) && Execute(Init(config), events) == Some(s)
  }

  /** No two pages name different scans. */
  ghost predicate Pure(pages: seq<Page>) {
    forall p <- pages, q <- pages :: p.scanID != "" && q.scanID != "" ==> p.scanID == q.scanID
  }

  ghost predicate Unmixed(s: System) {
    forall k: nat | k < |s.log.takes| :: Pure(s.log.takes[k])
  }

  // ---------------------------------------------------------------- one caller at a time

  ghost predicate OneCaller(threads: seq<Thread>) {
    forall t: nat, u: nat | t < |threads| && u < |threads| && Active(threads[t]) && Active(threads[u]) :: t == u
  }

  /** The caller has taken the buffer and has not appended since. */
  predicate Emptied(pc: PC) {
    match pc
    case AwaitMu(section) => section.Appending?
    case InMu(section) => section.Appending?
    case AwaitFlushMu(batch, _) => batch.Some?
    case Uploading(_, _, next) => next.Some?
    case Unlocking(_, next) => next.Some?
    case _ => false
  }

  ghost predicate EmptyWhile(f: Fields, threads: seq<Thread>) {
    forall t: nat | t < |threads| && threads[t].call.Process? && Emptied(threads[t].pc) :: f.buf == []
  }

  /** Uploads begin in the order the batches were taken. */
  predicate InOrder(attempts: seq<nat>) {
    forall i: nat | i < |attempts| :: attempts[i] == i
  }

  ghost predicate Serial(s: System) {
    OneCaller(s.threads) && EmptyWhile(s.fields, s.threads) && InOrder(s.log.attempts)
  }

  lemma CallerStep(s: System, t: nat, ok: bool)
    requires OneCaller(s.threads) && Shapes(s.threads) && Ready(s, t)
    ensures OneCaller(Run(s, t, ok).threads)
  {
    assert Shape(s.threads[t].call, s.threads[t].pc);
    StepRemaining(s, t, ok);
    var r := Run(s, t, ok);
    assert Active(r.threads[t]) ==> Active(s.threads[t]);
  }

  lemma EmptyStep(s: System, t: nat, ok: bool)
    requires Inv(s) && Serial(s) && Ready(s, t)
    ensures EmptyWhile(Run(s, t, ok).fields, Run(s, t, ok).threads)
  {
    assert Shape(s.threads[t].call, s.threads[t].pc);
    if s.threads[t].pc.InMu? {
      EmptySection(s, t, s.threads[t].pc.section);
    } else {
      OutsideSection(s, t, ok);
    }
  }

  /** Outside the sections the buffer stays, and nobody comes to rely on its being empty. */
  lemma OutsideSection(s: System, t: nat, ok: bool)
    requires Ready(s, t) && !s.threads[t].pc.InMu? && Shape(s.threads[t].call, s.threads[t].pc)
    ensures var r := Run(s, t, ok);
            && r.fields == s.fields && r.threads == s.threads[t := r.threads[t]] && r.log.takes == s.log.takes
            && r.threads[t].call == s.threads[t].call
            && (s.threads[t].call.Process? && Emptied(r.threads[t].pc) ==> Emptied(s.threads[t].pc))
  {}

  /** A section leaves the buffer as it was, empties it, or appends the page of a caller with no rival. */
  lemma EmptySection(s: System, t: nat, section: Section)
    requires Inv(s) && Serial(s) && t < |s.threads| && s.threads[t].pc == InMu(section)
    ensures EmptyWhile(RunSection(s, t, section).fields, RunSection(s, t, section).threads)
  {
    assert Shape(s.threads[t].call, s.threads[t].pc);
    var r := RunSection(s, t, section);
    SectionBuffer(s, t, section);
    forall u: nat | u < |r.threads| && r.threads[u].call.Process? && Emptied(r.threads[u].pc)
      ensures r.fields.buf == []
    {
      if u != t {
        assert !(Active(s.threads[u]) && Active(s.threads[t]));
      }
    }
  }

  lemma SectionBuffer(s: System, t: nat, section: Section)
    requires t < |s.threads| && s.threads[t].pc == InMu(section) && Shape(s.threads[t].call, s.threads[t].pc)
    ensures var r := RunSection(s, t, section);
            && r.threads == s.threads[t := r.threads[t]] && r.threads[t].call == s.threads[t].call
            && (r.fields.buf == [] || r.fields.buf == s.fields.buf || s.threads[t].call.Process?)
            && (Emptied(r.threads[t].pc) ==> r.fields.buf == [])
  {}

  /** With one caller a waiting batch means an empty buffer, so every earlier batch has been begun. */
  lemma AllBegun(s: System, k: nat)
    requires Inv(s) && Serial(s)
    requires k <= |s.log.takes| && (k < |s.log.takes| ==> Waiting(s.threads, s.log.fates[k]))
    requires k == |s.log.takes| ==> forall j: nat | j < k :: !Waiting(s.threads, s.log.fates[j])
    ensures |s.log.attempts| == k
  {
    forall j: nat | j < k ensures j in s.log.attempts {
      if Waiting(s.threads, s.log.fates[j]) {
        var t, u := s.log.fates[j].thread, s.log.fates[k].thread;
        assert Keeps(s.threads[t].pc, t, s.log) && Shape(s.threads[t].call, s.threads[t].pc);
        assert Keeps(s.threads[u].pc, u, s.log) && Shape(s.threads[u].call, s.threads[u].pc);
        assert Active(s.threads[t]) && Active(s.threads[u]);
      }
    }
    InOrderMember(s.log.attempts, k);
    InOrderMember(s.log.attempts, |s.log.attempts|);
  }

  lemma InOrderMember(attempts: seq<nat>, k: nat)
    requires InOrder(attempts)
    ensures k in attempts <==> k < |attempts|
  {
    assert k < |attempts| ==> attempts[k] == k;
  }

  lemma NobodyWaits(s: System, t: nat)
    requires Inv(s) && Serial(s) && t < |s.threads| && s.threads[t].pc.InMu? && s.fields.buf != []
    ensures forall j: nat | j < |s.log.takes| :: !Waiting(s.threads, s.log.fates[j])
  {
    forall j: nat | j < |s.log.takes| ensures !Waiting(s.threads, s.log.fates[j]) {
      if Waiting(s.threads, s.log.fates[j]) {
        var u := s.log.fates[j].thread;
        assert Keeps(s.threads[u].pc, u, s.log) && Shape(s.threads[u].call, s.threads[u].pc);
        assert Emptied(s.threads[u].pc);
      }
    }
  }

  lemma OrderStep(s: System, t: nat, ok: bool)
    requires Inv(s) && Serial(s) && Ready(s, t)
    ensures InOrder(Run(s, t, ok).log.attempts)
  {
    var r := Run(s, t, ok);
    AttemptChange(s, t, ok);
    if r.log.attempts != s.log.attempts {
      if s.threads[t].pc.AwaitFlushMu? {
        assert Keeps(s.threads[t].pc, t, s.log);
        AllBegun(s, s.threads[t].pc.batch.value.serial);
      } else {
        NobodyWaits(s, t);
        AllBegun(s, |s.log.takes|);
      }
    }
  }

  /** Where uploads begin: for a waiting batch when `flushMu` is won, otherwise right at the take. */
  lemma AttemptChange(s: System, t: nat, ok: bool)
    requires Ready(s, t)
    ensures var r := Run(s, t, ok); var pc := s.threads[t].pc;
            || r.log.attempts == s.log.attempts
            || (pc.AwaitFlushMu? && pc.batch.Some? && r.log.attempts == s.log.attempts + [pc.batch.value.serial])
            || (pc.InMu? && s.fields.buf != [] && r.log.attempts == s.log.attempts + [|s.log.takes|])
  {}

  lemma SerialNext(c: Clients, s: System, e: Event)
    requires Inv(s) && Serial(s) && Enabled(s, e) && Permitted(c, s, e) && OneAtATime(c)
    ensures Serial(Next(s, e))
  {
    if e.Step? {
      CallerStep(s, e.thread, e.ok);
      EmptyStep(s, e.thread, e.ok);
      OrderStep(s, e.thread, e.ok);
    }
  }

  lemma {:induction false} SerialRun(c: Clients, config: Config, events: seq<Event>)
    requires config.Valid() && OneAtATime(c) && Obeys(c, Init(config), events) && Execute(Init(config), events).Some?
    ensures Inv(Execute(Init(config), events).value) && Serial(Execute(Init(config), events).value)
  {
    InitInv(config);
    ExecuteInv(Init(config), events);
    if events != [] {
      var front := events[..|events| - 1];
      SerialRun(c, config, front);
      SerialNext(c, Execute(Init(config), front).value, events[|events| - 1]);
    }
  }

  /** The batches whose upload has begun, in that order. */
  function Begun(log: Log): seq<seq<Page>>
    requires forall i | 0 <= i < |log.attempts| :: log.attempts[i] < |log.takes|
  {
    seq(|log.attempts|, i requires 0 <= i < |log.attempts| => log.takes[log.attempts[i]])
  }

  /** With one caller at a time the backend is a first-in first-out queue: the uploads begun, then at
      most one batch waiting for its turn, then the buffer, are the accepted pages in their order. */
  lemma QueueOrder(c: Clients, config: Config, s: System)
    requires config.Valid() && OneAtATime(c) && ReachableBy(c, config, s)
    ensures InOrder(s.log.attempts)
    ensures forall i | 0 <= i < |s.log.attempts| :: s.log.attempts[i] < |s.log.takes|
    ensures Begun(s.log) <= s.log.takes && |s.log.takes| <= |s.log.attempts| + 1
    ensures Flatten(Begun(s.log)) + Flatten(s.log.takes[|s.log.attempts|..]) + s.fields.buf == s.log.accepted
    ensures |s.log.takes| > |s.log.attempts| ==> s.fields.buf == []
  {
    var events :| Obeys(c, Init(config), events) && Execute(Init(config), events) == Some(s);
    SerialRun(c, config, events);
    var n := |s.log.attempts|;
    if n < |s.log.takes| {
      InOrderMember(s.log.attempts, n);
      AllBegunBut(s, n);
    }
    InOrderMember(s.log.attempts, |s.log.takes|);
    assert Begun(s.log) == s.log.takes[..n];
    FlattenSplit(s.log.takes, n);
  }

  /** The first batch not begun is the last one taken, and the buffer has been empty since. */
  lemma AllBegunBut(s: System, n: nat)
    requires Inv(s) && Serial(s) && n < |s.log.takes| && n == |s.log.attempts| && n !in s.log.attempts
    ensures s.fields.buf == [] && |s.log.takes| == n + 1
  {
    assert Waiting(s.threads, s.log.fates[n]);
    var t := s.log.fates[n].thread;
    assert Keeps(s.threads[t].pc, t, s.log) && Shape(s.threads[t].call, s.threads[t].pc);
    assert Emptied(s.threads[t].pc);
    if n + 1 < |s.log.takes| {
      InOrderMember(s.log.attempts, n + 1);
      assert Waiting(s.threads, s.log.fates[n + 1]);
      AllBegun(s, n + 1);
    }
  }

  lemma {:induction false} FlattenSplit<T>(xss: seq<seq<T>>, n: nat)
    requires n <= |xss|
    ensures Flatten(xss) == Flatten(xss[..n]) + Flatten(xss[n..])
  {
    if n < |xss| {
      var m := |xss| - 1;
      FlattenSplit(xss[..m], n);
      assert xss[..m][..n] == xss[..n] && xss[n..][..m - n] == xss[..m][n..];
    } else {
      assert xss[..n] == xss && xss[n..] == [];
    }
  }

  // ---------------------------------------------------------------- one scan at a time

  predicate OfScan(pages: seq<Page>, scan: string) {
    forall p <- pages :: p.scanID == "" || p.scanID == scan
  }

  ghost predicate OneScan(f: Fields, log: Log) {
    && OfScan(f.buf, f.currScan)
    && forall k: nat | k < |log.takes| :: Pure(log.takes[k])
  }

  ghost predicate Agreeing(threads: seq<Thread>) {
    forall t: nat, u: nat | t < u < |threads| && Active(threads[t]) && Active(threads[u]) ::
      Agree(threads[t].call.page.scanID, threads[u].call.page.scanID)
  }

  /** The caller has made room for its page and will append it without looking at the buffer again. */
  predicate Delayed(pc: PC) {
    match pc
    case AwaitMu(section) => section.Appending?
    case InMu(section) => section.Appending?
    case AwaitFlushMu(_, next) => next.Some?
    case Uploading(_, _, next) => next.Some?
    case Unlocking(_, next) => next.Some?
    case _ => false
  }

  predicate Welcome(f: Fields, thread: Thread) {
    thread.call.Process? && Delayed(thread.pc) ==> thread.call.page.scanID != "" && OfScan(f.buf, thread.call.page.scanID)
  }

  ghost predicate Tidy(s: System) {
    && Agreeing(s.threads) && OneScan(s.fields, s.log)
    && forall t: nat | t < |s.threads| :: Welcome(s.fields, s.threads[t])
  }

  lemma AgreeingStep(s: System, t: nat, ok: bool)
    requires Agreeing(s.threads) && Shapes(s.threads) && Ready(s, t)
    ensures Agreeing(Run(s, t, ok).threads)
  {
    assert Shape(s.threads[t].call, s.threads[t].pc);
    StepKeepsCall(s, t, ok);
    var r := Run(s, t, ok);
    assert Active(r.threads[t]) ==> Active(s.threads[t]);
  }

  lemma StepKeepsCall(s: System, t: nat, ok: bool)
    requires Ready(s, t)
    ensures var r := Run(s, t, ok);
            r.config == s.config && |r.threads| == |s.threads| && r.threads == s.threads[t := r.threads[t]]
            && r.threads[t].call == s.threads[t].call
  {}

  lemma TidyStep(s: System, t: nat, ok: bool)
    requires Shapes(s.threads) && Tidy(s) && Ready(s, t)
    ensures Tidy(Run(s, t, ok))
  {
    assert Shape(s.threads[t].call, s.threads[t].pc);
    AgreeingStep(s, t, ok);
    if s.threads[t].pc.InMu? {
      TidySection(s, t, s.threads[t].pc.section);
    } else {
      QuietStep(s, t, ok);
    }
  }

  lemma QuietStep(s: System, t: nat, ok: bool)
    requires Shapes(s.threads) && Tidy(s) && Ready(s, t) && !s.threads[t].pc.InMu?
    ensures var r := Run(s, t, ok);
            OneScan(r.fields, r.log) && forall u: nat | u < |r.threads| :: Welcome(r.fields, r.threads[u])
  {
    assert Shape(s.threads[t].call, s.threads[t].pc) && Welcome(s.fields, s.threads[t]);
    OutsideSection(s, t, ok);
    DelayedBefore(s, t, ok);
    var r := Run(s, t, ok);
    forall u: nat | u < |r.threads| ensures Welcome(r.fields, r.threads[u]) {
      assert Welcome(s.fields, s.threads[u]);
    }
  }

  lemma DelayedBefore(s: System, t: nat, ok: bool)
    requires Ready(s, t) && !s.threads[t].pc.InMu? && Shape(s.threads[t].call, s.threads[t].pc)
    ensures s.threads[t].call.Process? && Delayed(Run(s, t, ok).threads[t].pc) ==> Delayed(s.threads[t].pc)
  {}

  lemma TidySection(s: System, t: nat, section: Section)
    requires Tidy(s) && t < |s.threads| && s.threads[t].pc == InMu(section) && Shape(s.threads[t].call, s.threads[t].pc)
    ensures var r := RunSection(s, t, section);
            OneScan(r.fields, r.log) && forall u: nat | u < |r.threads| :: Welcome(r.fields, r.threads[u])
  {
    assert Welcome(s.fields, s.threads[t]);
    if section.Appending? || (section.Admitting? && Admit(s.fields, section.page).Proceed?) {
      TidyAppend(s, t, section.page);
    } else {
      TidyTake(s, t, section);
    }
  }

  /** The buffer stays or is emptied. */
  lemma TidyTake(s: System, t: nat, section: Section)
    requires Tidy(s) && t < |s.threads| && s.threads[t].pc == InMu(section) && Shape(s.threads[t].call, s.threads[t].pc)
    requires !section.Appending? && (section.Admitting? ==> !Admit(s.fields, section.page).Proceed?)
    ensures var r := RunSection(s, t, section);
            OneScan(r.fields, r.log) && forall u: nat | u < |r.threads| :: Welcome(r.fields, r.threads[u])
  {
    var r := RunSection(s, t, section);
    TakeFrame(s, t, section);
    forall u: nat | u < |r.threads| ensures Welcome(r.fields, r.threads[u]) {
      assert Welcome(s.fields, s.threads[u]);
    }
  }

  lemma TakeFrame(s: System, t: nat, section: Section)
    requires t < |s.threads| && s.threads[t].pc == InMu(section) && Shape(s.threads[t].call, s.threads[t].pc)
    requires !section.Appending? && (section.Admitting? ==> !Admit(s.fields, section.page).Proceed?)
    ensures var r := RunSection(s, t, section);
            && |r.threads| == |s.threads| && r.threads == s.threads[t := r.threads[t]]
            && r.threads[t].call == s.threads[t].call && r.fields.currScan == s.fields.currScan
            && ((r.fields.buf == s.fields.buf && r.log.takes == s.log.takes)
                || (r.fields.buf == [] && r.log.takes == s.log.takes + [s.fields.buf]))
            && (r.threads[t].call.Process? && Delayed(r.threads[t].pc) ==>
                  r.fields.buf == [] && r.threads[t].call.page.scanID != "")
  {}

  lemma TidyAppend(s: System, t: nat, page: Page)
    requires Tidy(s) && t < |s.threads| && s.threads[t].call == Process(page) && Active(s.threads[t])
    requires OfScan(s.fields.buf, page.scanID) || Agree(s.fields.currScan, page.scanID)
    ensures var r := RunAppend(s, t, page);
            OneScan(r.fields, r.log) && forall u: nat | u < |r.threads| :: Welcome(r.fields, r.threads[u])
  {
    var f, r := Enqueue(s.fields, page), RunAppend(s, t, page);
    EnqueueScan(s.fields, page);
    AppendFrame(s, t, page);
    forall k: nat | k < |r.log.takes| ensures Pure(r.log.takes[k]) {
      assert k < |s.log.takes| ==> r.log.takes[k] == s.log.takes[k];
    }
    forall u: nat | u < |r.threads| ensures Welcome(r.fields, r.threads[u]) {
      assert Welcome(s.fields, s.threads[u]);
      if u != t && Active(s.threads[u]) {
        assert Agree(s.threads[u].call.page.scanID, page.scanID);
      }
    }
  }

  lemma AppendFrame(s: System, t: nat, page: Page)
    requires t < |s.threads|
    ensures var r := RunAppend(s, t, page);
            && |r.threads| == |s.threads| && r.threads == s.threads[t := r.threads[t]]
            && !Delayed(r.threads[t].pc) && r.fields.currScan == Enqueue(s.fields, page).currScan
            && ((r.fields.buf == s.fields.buf + [page] && r.log.takes == s.log.takes)
                || (r.fields.buf == [] && r.log.takes == s.log.takes + [s.fields.buf + [page]]))
  {}

  /** The page joins pages of its own scan, or of none. */
  lemma EnqueueScan(f: Fields, page: Page)
    requires OfScan(f.buf, f.currScan) && (OfScan(f.buf, page.scanID) || Agree(f.currScan, page.scanID))
    ensures OfScan(f.buf + [page], Enqueue(f, page).currScan) && Pure(f.buf + [page])
  {
    var g := Enqueue(f, page);
    forall p <- f.buf + [page] ensures p.scanID == "" || p.scanID == g.currScan {
      assert p in f.buf || p == page;
    }
  }

  lemma TidyNext(c: Clients, s: System, e: Event)
    requires Inv(s) && Tidy(s) && Enabled(s, e) && Permitted(c, s, e) && Separate(c)
    ensures Tidy(Next(s, e))
  {
    if e.Step? {
      TidyStep(s, e.thread, e.ok);
    }
  }

  lemma {:induction false} TidyRun(c: Clients, config: Config, events: seq<Event>)
    requires config.Valid() && Separate(c) && Obeys(c, Init(config), events) && Execute(Init(config), events).Some?
    ensures Inv(Execute(Init(config), events).value) && Tidy(Execute(Init(config), events).value)
  {
    InitInv(config);
    ExecuteInv(Init(config), events);
    if events != [] {
      var front := events[..|events| - 1];
      TidyRun(c, config, front);
      TidyNext(c, Execute(Init(config), front).value, events[|events| - 1]);
    }
  }

  lemma SinglePagesUnmixed(s: System)
    requires Queue(s.config, s.fields, s.log) && s.config.maxPages == 1
    ensures Unmixed(s)
  {
    forall k: nat | k < |s.log.takes| ensures Pure(s.log.takes[k]) {
      assert Sized(s.config, s.log.takes[k]);
      assert forall p <- s.log.takes[k] :: p == s.log.takes[k][0];
    }
  }

  /** Batches are pure if calls for different scans do not overlap, though calls for one scan may and
      scans may follow one another, and also if a batch holds one page. */
  lemma SafeClients(c: Clients, config: Config, s: System)
    requires config.Valid() && ReachableBy(c, config, s) && (Separate(c) || config.maxPages == 1)
    ensures Unmixed(s)
  {
    var events :| Obeys(c, Init(config), events) && Execute(Init(config), events) == Some(s);
    if Separate(c) {
      TidyRun(c, config, events);
    } else {
      InitInv(config);
      ExecuteInv(Init(config), events);
      ConfigKept(config, events);
      SinglePagesUnmixed(s);
    }
  }

  lemma {:induction false} ConfigKept(config: Config, events: seq<Event>)
    requires Execute(Init(config), events).Some?
    ensures Execute(Init(config), events).value.config == config
  {
    if events != [] {
      var front, e := events[..|events| - 1], events[|events| - 1];
      ConfigKept(config, front);
      if e.Step? {
        StepKeepsCall(Execute(Init(config), front).value, e.thread, e.ok);
      }
    }
  }

  // ---------------------------------------------------------------- runs that mix or overtake

  /** States that the clients cannot leave. */
  ghost predicate Closed(c: Clients, states: iset<System>) {
    forall s, e | s in states && Enabled(s, e) && Permitted(c, s, e) :: Next(s, e) in states
  }

  lemma Extend(c: Clients, states: iset<System>, s: System, e: Event)
    requires Closed(c, states) && s in states && Enabled(s, e) && Permitted(c, s, e)
    ensures Next(s, e) in states
  {}

  ghost function Reach(c: Clients, config: Config): (states: iset<System>)
    ensures forall s :: s in states <==> ReachableBy(c, config, s)
  {
    iset s | ReachableBy(c, config, s)
  }

  lemma ReachIsClosed(c: Clients, config: Config)
    ensures Closed(c, Reach(c, config)) && Init(config) in Reach(c, config)
  {
    assert Obeys(c, Init(config), []) && Execute(Init(config), []) == Some(Init(config));
    forall s, e | ReachableBy(c, config, s) && Enabled(s, e) && Permitted(c, s, e)
      ensures ReachableBy(c, config, Next(s, e))
    {
      var events :| Obeys(c, Init(config), events) && Execute(Init(config), events) == Some(s);
      assert (events + [e])[..|events|] == events;
      assert Obeys(c, Init(config), events + [e]) && Execute(Init(config), events + [e]) == Some(Next(s, e));
    }
  }

  ghost predicate MayEnter(c: Clients, s: System, scan: string) {
    forall t: nat | t < |s.threads| && Active(s.threads[t]) :: MayOverlap(c, scan, s.threads[t].call.page.scanID)
  }

  /** A new call reads its page and gets as far as holding `mu`. */
  lemma EnterPlay(c: Clients, states: iset<System>, s: System, page: Page) returns (r: System)
    requires Closed(c, states) && s in states && s.mu == None && MayEnter(c, s, page.scanID)
    ensures r in states
    ensures r == s.(mu := Some(|s.threads|), threads := s.threads + [Thread(Process(page), InMu(Admitting(page)), None)])
  {
    var t := |s.threads|;
    Extend(c, states, s, Invoke(Process(page)));
    var s1 := Spawn(s, Process(page));
    Extend(c, states, s1, Step(t, true));
    var s2 := s.(threads := s.threads + [Thread(Process(page), AwaitMu(Admitting(page)), None)]);
    assert Run(s1, t, true) == s2;
    Extend(c, states, s2, Step(t, true));
    r := s.(mu := Some(t), threads := s.threads + [Thread(Process(page), InMu(Admitting(page)), None)]);
    assert Run(s2, t, true) == r;
  }

  /** A call appends its page without filling the buffer. */
  lemma AppendPlay(c: Clients, states: iset<System>, s: System, page: Page) returns (r: System)
    requires Closed(c, states) && s in states && s.mu == None && MayEnter(c, s, page.scanID)
    requires Admit(s.fields, page).Proceed? && !Full(s.config, Enqueue(s.fields, page))
    ensures r in states
    ensures r.fields == Enqueue(s.fields, page) && r.mu == None && r.flushMu == s.flushMu && r.config == s.config
    ensures r.log.takes == s.log.takes && |r.threads| == |s.threads| + 1
    ensures r.threads[|s.threads|].pc.Done?
    ensures forall u: nat | u < |s.threads| :: r.threads[u] == s.threads[u]
  {
    var m := EnterPlay(c, states, s, page);
    Extend(c, states, m, Step(|s.threads|, true));
    r := RunAppend(m, |s.threads|, page);
  }

  /** A call for another scan takes the buffer, uploads it and is about to lock `mu` again. */
  lemma RoomPlay(c: Clients, states: iset<System>, s: System, page: Page) returns (r: System)
    requires Closed(c, states) && s in states && s.mu == None && s.flushMu == None && MayEnter(c, s, page.scanID)
    requires Admit(s.fields, page).ScanChanged? && s.fields.buf != []
    ensures r in states
    ensures r.fields == Take(s.fields) && r.mu == None && r.flushMu == None && r.config == s.config
    ensures |r.threads| == |s.threads| + 1
    ensures r.threads[|s.threads|].pc == AwaitMu(Appending(page)) && r.threads[|s.threads|].call == Process(page)
    ensures forall u: nat | u < |s.threads| :: r.threads[u] == s.threads[u]
  {
    var t := |s.threads|;
    var m := EnterPlay(c, states, s, page);
    Extend(c, states, m, Step(t, true));
    var m1 := TakeAndWait(m.(mu := None), t, Some(page));
    Extend(c, states, m1, Step(t, true));
    var m2 := Run(m1, t, true);
    Extend(c, states, m2, Step(t, true));
    var m3 := Run(m2, t, true);
    Extend(c, states, m3, Step(t, true));
    r := Run(m3, t, true);
  }

  /** The delayed page joins the page of the other scan that slipped in; a full buffer is taken. */
  lemma JoinPlay(c: Clients, states: iset<System>, s: System, t: nat, page: Page) returns (r: System)
    requires Closed(c, states) && s in states && s.mu == None && t < |s.threads| && s.threads[t].pc == AwaitMu(Appending(page))
    ensures r in states && r == RunAppend(At(s.(mu := Some(t)), t, InMu(Appending(page))), t, page)
  {
    Extend(c, states, s, Step(t, true));
    var m := At(s.(mu := Some(t)), t, InMu(Appending(page)));
    Extend(c, states, m, Step(t, true));
    r := RunAppend(m, t, page);
  }

  /** A Flush takes whatever is buffered. */
  lemma FlushPlay(c: Clients, states: iset<System>, s: System) returns (r: System)
    requires Closed(c, states) && s in states && s.mu == None && s.flushMu == None && s.fields.buf != []
    ensures r in states && r.log.takes == s.log.takes + [s.fields.buf]
  {
    var t := |s.threads|;
    Extend(c, states, s, Invoke(Flush));
    var m := Spawn(s, Flush);
    Extend(c, states, m, Step(t, true));
    var m1 := Run(m, t, true);
    Extend(c, states, m1, Step(t, true));
    var m2 := Run(m1, t, true);
    Extend(c, states, m2, Step(t, true));
    r := Run(m2, t, true);
  }

  /** Two overlapping calls with different scans can put both into one batch: the first waits for the
      upload that makes room, and a page of the old scan is appended meanwhile. */
  lemma ScansCanMix(c: Clients, config: Config, a: string, b: string) returns (r: System)
    requires config.Valid() && config.maxPages >= 2 && MayOverlap(c, a, b) && !Agree(a, b)
    ensures ReachableBy(c, config, r) && !Unmixed(r)
  {
    ReachIsClosed(c, config);
    r := MixPlay(c, config, Reach(c, config), a, b);
  }

  lemma MixPlay(c: Clients, config: Config, states: iset<System>, a: string, b: string) returns (r: System)
    requires config.Valid() && config.maxPages >= 2 && MayOverlap(c, a, b) && !Agree(a, b)
    requires Closed(c, states) && Init(config) in states
    ensures r in states && !Unmixed(r)
  {
    var s := DelayPlay(c, config, states, a, b);
    s := SlipPlay(c, config, states, s, a, b);
    r := JoinPlay(c, states, s, 1, Page(b, 2, []));
    JoinTakes(At(s.(mu := Some(1)), 1, InMu(Appending(Page(b, 2, [])))), 1, Page(b, 2, []));
    MixedBatch(Page(a, 3, []), Page(b, 2, []));
    if r.fields.buf != [] {
      r := FlushPlay(c, states, r);
    }
    assert r.log.takes[|r.log.takes| - 1] == [Page(a, 3, []), Page(b, 2, [])];
  }

  lemma JoinTakes(s: System, t: nat, page: Page)
    requires t < |s.threads|
    ensures var r := RunAppend(s, t, page);
            && r.mu == None && r.flushMu == s.flushMu
            && (r.fields.buf == s.fields.buf + [page]
                || (r.fields.buf == [] && r.log.takes == s.log.takes + [s.fields.buf + [page]]))
  {}

  /** Meanwhile another page of scan a is appended. */
  lemma SlipPlay(c: Clients, config: Config, states: iset<System>, s: System, a: string, b: string) returns (r: System)
    requires config.Valid() && config.maxPages >= 2 && MayOverlap(c, a, b) && !Agree(a, b)
    requires Closed(c, states) && s in states && s.mu == None && s.flushMu == None && s.config == config
    requires s.fields.buf == [] && s.fields.bufBytes == 0 && s.fields.currScan == a
    requires s.fields.flushErr == None && !s.fields.closed
    requires |s.threads| == 2 && !Active(s.threads[0])
    requires s.threads[1].call == Process(Page(b, 2, [])) && s.threads[1].pc == AwaitMu(Appending(Page(b, 2, [])))
    ensures r in states && r.mu == None && r.flushMu == None && r.fields.buf == [Page(a, 3, [])]
    ensures 1 < |r.threads| && r.threads[1].pc == AwaitMu(Appending(Page(b, 2, [])))
  {
    SmallPage(s.fields, config, Page(a, 3, []));
    assert MayEnter(c, s, a);
    r := AppendPlay(c, states, s, Page(a, 3, []));
  }

  lemma SmallPage(f: Fields, config: Config, page: Page)
    requires config.Valid() && config.maxPages >= 2 && page.data == []
    requires f.buf == [] && f.bufBytes == 0 && f.flushErr == None && !f.closed
    ensures !Full(config, Enqueue(f, page)) && Enqueue(f, page).buf == [page]
    ensures Agree(f.currScan, page.scanID) ==> Admit(f, page).Proceed?
  {}

  /** One page of scan a has been uploaded to make room for a page of scan b, which is still to be appended. */
  lemma DelayPlay(c: Clients, config: Config, states: iset<System>, a: string, b: string) returns (s: System)
    requires Closed(c, states) && Init(config) in states && config.Valid() && config.maxPages >= 2 && MayOverlap(c, a, b) && !Agree(a, b)
    ensures s in states && s.mu == None && s.flushMu == None && s.config == config
    ensures s.fields.buf == [] && s.fields.bufBytes == 0 && s.fields.currScan == a
    ensures s.fields.flushErr == None && !s.fields.closed
    ensures |s.threads| == 2 && s.threads[0].pc.Done?
    ensures s.threads[1].call == Process(Page(b, 2, [])) && s.threads[1].pc == AwaitMu(Appending(Page(b, 2, [])))
  {
    s := Init(config);
    s := AppendPlay(c, states, s, Page(a, 1, []));
    s := RoomPlay(c, states, s, Page(b, 2, []));
  }

  lemma MixedBatch(p: Page, q: Page)
    requires !Agree(p.scanID, q.scanID)
    ensures !Pure([p, q])
  {
    assert p in [p, q] && q in [p, q];
  }

  /** A batch never mixes two scans, whatever the schedule, if and only if calls for different scans
      do not overlap, or every batch holds a single page. */
  lemma UnmixedExactly(c: Clients, config: Config)
    requires config.Valid()
    ensures (forall s :: ReachableBy(c, config, s) ==> Unmixed(s)) <==> Separate(c) || config.maxPages == 1
  {
    if Separate(c) || config.maxPages == 1 {
      forall s | ReachableBy(c, config, s) ensures Unmixed(s) {
        SafeClients(c, config, s);
      }
    } else {
      var a, b :| MayOverlap(c, a, b) && !Agree(a, b);
      var r := ScansCanMix(c, config, a, b);
    }
  }

  // ---------------------------------------------------------------- exactly when uploads keep the order

  /** A page that fills the buffer by itself. */
  function Bulky(config: Config, scan: string): Page
    requires config.Valid()
  {
    Page(scan, 1, seq(config.maxBytes, _ => 0 as byte))
  }

  /** A call appends a page that fills the buffer, takes it and waits for `flushMu`. */
  lemma FillPlay(c: Clients, states: iset<System>, s: System, page: Page) returns (r: System)
    requires Closed(c, states) && s in states && s.mu == None && MayEnter(c, s, page.scanID)
    requires s.fields.buf == [] && s.fields.flushErr == None && !s.fields.closed && Full(s.config, Enqueue(s.fields, page))
    ensures r in states && r.mu == None && r.flushMu == s.flushMu && r.config == s.config
    ensures r.fields.buf == [] && r.fields.flushErr == None && !r.fields.closed
    ensures r.log == TakeLog(AppendLog(s.log, |s.threads|, page), |s.threads|, [page])
    ensures |r.threads| == |s.threads| + 1 && r.threads[|s.threads|].call == Process(page)
    ensures r.threads[|s.threads|].pc == AwaitFlushMu(Some(Batch(|s.log.takes|, [page])), None)
    ensures forall u: nat | u < |s.threads| :: r.threads[u] == s.threads[u]
  {
    var t := |s.threads|;
    var m := EnterPlay(c, states, s, page);
    Extend(c, states, m, Step(t, true));
    r := RunAdmit(m, t, page);
    if Admit(s.fields, page).ScanChanged? {
      r := JoinPlay(c, states, r, t, page);
    }
    assert s.fields.buf + [page] == [page];
  }

  lemma BulkyFills(f: Fields, config: Config, scan: string)
    requires config.Valid()
    ensures Full(config, Enqueue(f, Bulky(config, scan)))
  {}

  /** Two overlapping calls have filled a batch each and wait for `flushMu`. */
  lemma TwoWait(c: Clients, config: Config, states: iset<System>, a: string, b: string) returns (s: System)
    requires Closed(c, states) && Init(config) in states && config.Valid() && MayOverlap(c, a, b)
    ensures s in states && s.flushMu == None && s.log.attempts == [] && |s.threads| == 2
    ensures s.threads[1].pc == AwaitFlushMu(Some(Batch(1, [Bulky(config, b)])), None)
  {
    s := Init(config);
    BulkyFills(s.fields, config, a);
    s := FillPlay(c, states, s, Bulky(config, a));
    BulkyFills(s.fields, config, b);
    assert MayEnter(c, s, b);
    s := FillPlay(c, states, s, Bulky(config, b));
  }

  /** The second one can win `flushMu` first. */
  lemma OvertakePlay(c: Clients, config: Config, states: iset<System>, a: string, b: string) returns (r: System)
    requires Closed(c, states) && Init(config) in states && config.Valid() && MayOverlap(c, a, b)
    ensures r in states && !InOrder(r.log.attempts)
  {
    var s := TwoWait(c, config, states, a, b);
    Extend(c, states, s, Step(1, true));
    r := Run(s, 1, true);
    var first: nat := 0;
    assert r.log.attempts == [1] && r.log.attempts[first] != first;
  }

  lemma UploadsCanOvertake(c: Clients, config: Config, a: string, b: string) returns (r: System)
    requires config.Valid() && MayOverlap(c, a, b)
    ensures ReachableBy(c, config, r) && !InOrder(r.log.attempts)
  {
    ReachIsClosed(c, config);
    r := OvertakePlay(c, config, Reach(c, config), a, b);
    assert r in Reach(c, config);
  }

  /** Batches are sent in the order they were filled, whatever the schedule, if and only if no two
      ProcessPage calls overlap. */
  lemma OrderedExactly(c: Clients, config: Config)
    requires config.Valid()
    ensures (forall s :: ReachableBy(c, config, s) ==> InOrder(s.log.attempts)) <==> OneAtATime(c)
  {
    if OneAtATime(c) {
      forall s | ReachableBy(c, config, s) ensures InOrder(s.log.attempts) {
        QueueOrder(c, config, s);
      }
    } else {
      var a, b :| MayOverlap(c, a, b);
      var r := UploadsCanOvertake(c, config, a, b);
    }
  }
}
