/** What Close stops and what it does not: a call that is past its check when the backend is closed
    still appends its page, and from then on only a Flush gets it out of the buffer. */
module UploadClose {
  import opened Common
  import opened RemoteBackend
  import opened UploadSystem
  import opened UploadSafety
  import O = UploadOrder

  /** The call has been admitted, gave up `mu` because the scan changed, and is yet to append its page. */
  predicate Late(pc: PC) {
    match pc
    case AwaitMu(section) => section.Appending?
    case InMu(section) => section.Appending?
    case AwaitFlushMu(_, next) => next.Some?
    case Uploading(_, prior, next) => next.Some? && prior == []
    case Unlocking(errors, next) => next.Some? && errors == []
    case _ => false
  }

  ghost predicate SomeLate(s: System) {
    exists t: nat :: t < |s.threads| && Late(s.threads[t].pc)
  }

  predicate Appends(s: System, events: seq<Event>) {
    Execute(s, events).Some? && Execute(s, events).value.log.accepted != s.log.accepted
  }

  // ---------------------------------------------------------------- without a late call

  lemma ClosedStep(s: System, e: Event)
    requires s.fields.closed && !SomeLate(s) && Enabled(s, e)
    ensures var r := Next(s, e); r.fields.closed && !SomeLate(r) && r.log.accepted == s.log.accepted
  {
    var r := Next(s, e);
    if e.Step? {
      assert !Late(s.threads[e.thread].pc);
      QuietStep(s, e.thread, e.ok);
    }
    forall t: nat | t < |r.threads| ensures !Late(r.threads[t].pc) {
      assert t < |s.threads| ==> !Late(s.threads[t].pc);
    }
  }

  lemma QuietStep(s: System, t: nat, ok: bool)
    requires s.fields.closed && Ready(s, t) && !Late(s.threads[t].pc)
    ensures var r := Run(s, t, ok);
            && r.fields.closed && r.log.accepted == s.log.accepted
            && r.threads == s.threads[t := r.threads[t]] && !Late(r.threads[t].pc)
  {
    if s.threads[t].pc.InMu? {
      QuietSection(s, t, s.threads[t].pc.section);
    }
  }

  lemma QuietSection(s: System, t: nat, section: Section)
    requires s.fields.closed && t < |s.threads| && !section.Appending?
    ensures var r := RunSection(s, t, section);
            && r.fields.closed && r.log.accepted == s.log.accepted
            && r.threads == s.threads[t := r.threads[t]] && !Late(r.threads[t].pc)
  {}

  lemma {:induction false} ClosedRun(s: System, events: seq<Event>)
    requires s.fields.closed && !SomeLate(s) && Execute(s, events).Some?
    ensures var r := Execute(s, events).value; r.fields.closed && !SomeLate(r) && r.log.accepted == s.log.accepted
  {
    if events != [] {
      var front := events[..|events| - 1];
      ClosedRun(s, front);
      ClosedStep(Execute(s, front).value, events[|events| - 1]);
    }
  }

  // ---------------------------------------------------------------- with a late call

  lemma {:induction false} Prepend(s: System, e: Event, events: seq<Event>)
    requires Enabled(s, e)
    ensures Execute(s, [e] + events) == Execute(Next(s, e), events)
  {
    var all := [e] + events;
    if events == [] {
      assert all[..0] == [] && Execute(s, []) == Some(s);
    } else {
      Prepend(s, e, events[..|events| - 1]);
      assert all[..|all| - 1] == [e] + events[..|events| - 1];
    }
  }

  /** With every upload accepted, a late call stays late until it appends. */
  lemma LateStep(s: System, t: nat, u: nat)
    requires t < |s.threads| && Late(s.threads[t].pc) && Ready(s, u) && Shape(s.threads[u].call, s.threads[u].pc)
    ensures var r := Run(s, u, true);
            t < |r.threads| && (r.log.accepted != s.log.accepted || Late(r.threads[t].pc))
  {
    if s.threads[u].pc.InMu? {
      LateSection(s, t, u, s.threads[u].pc.section);
    }
  }

  lemma LateSection(s: System, t: nat, u: nat, section: Section)
    requires t < |s.threads| && Late(s.threads[t].pc) && u < |s.threads| && s.threads[u].pc == InMu(section)
    ensures var r := RunSection(s, u, section);
            t < |r.threads| && (r.log.accepted != s.log.accepted || Late(r.threads[t].pc))
  {}

  /** A late call can always come to append its page. */
  lemma {:induction false} LateAppends(s: System, t: nat) returns (events: seq<Event>)
    requires Inv(s) && t < |s.threads| && Late(s.threads[t].pc)
    ensures Appends(s, events)
    decreases Work(s.threads)
  {
    NoDeadlock(s, t);
    var u: nat :| u < |s.threads| && Ready(s, u);
    var e := Step(u, true);
    var r := Run(s, u, true);
    assert Shape(s.threads[u].call, s.threads[u].pc);
    LateStep(s, t, u);
    if r.log.accepted != s.log.accepted {
      Prepend(s, e, []);
      events := [e] + [];
    } else {
      NextInv(s, e);
      StepWorks(s, u, true);
      var rest := LateAppends(r, t);
      Prepend(s, e, rest);
      events := [e] + rest;
    }
  }

  /** After Close a page can still be appended if and only if some call had been admitted before, found
      that the scan changed, and has not appended its page yet. */
  lemma AppendsAfterCloseExactly(s: System)
    requires Reachable(s) && s.fields.closed
    ensures (exists events :: Appends(s, events)) <==> SomeLate(s)
  {
    if t: nat :| t < |s.threads| && Late(s.threads[t].pc) {
      ReachableInv(s);
      var events := LateAppends(s, t);
    } else {
      forall events | Execute(s, events).Some? ensures !Appends(s, events) {
        ClosedRun(s, events);
      }
    }
  }

  // ---------------------------------------------------------------- what is left in the buffer

  /** A thread that holds no batch and, on a closed backend, will never have one. */
  predicate Harmless(pc: PC) {
    match pc
    case Reading(_) => true
    case AwaitMu(section) => section.Admitting? || section.Closing? || section.Checking?
    case InMu(section) => section.Admitting? || section.Closing? || section.Checking?
    case AwaitFlushMu(batch, next) => batch.None? && next.None?
    case Unlocking(_, next) => next.None?
    case Done(_) => true
    case Uploading(_, _, _) => false
  }

  ghost predicate AllHarmless(s: System) {
    s.fields.closed && forall t: nat | t < |s.threads| ::
      Harmless(s.threads[t].pc) && (s.threads[t].call.Flush? ==> s.threads[t].pc.Done?)
  }

  predicate NoFlush(e: Event) { e.Invoke? ==> !e.call.Flush? }

  lemma HarmlessStep(s: System, t: nat, ok: bool)
    requires s.fields.closed && Ready(s, t) && Harmless(s.threads[t].pc) && !s.threads[t].call.Flush?
    ensures var r := Run(s, t, ok);
            && r.fields.closed && r.fields.buf == s.fields.buf && r.threads == s.threads[t := r.threads[t]]
            && r.threads[t].call == s.threads[t].call && Harmless(r.threads[t].pc)
  {}

  lemma HarmlessNext(s: System, e: Event)
    requires AllHarmless(s) && Enabled(s, e) && NoFlush(e)
    ensures AllHarmless(Next(s, e)) && Next(s, e).fields.buf == s.fields.buf
  {
    if e.Step? {
      HarmlessStep(s, e.thread, e.ok);
    }
  }

  /** Once all calls on a closed backend have returned, nothing but a Flush ever uploads what is in the
      buffer: no timer, no further ProcessPage, no further Close. */
  lemma {:induction false} OnlyFlushEmpties(s: System, events: seq<Event>)
    requires s.fields.closed && (forall t: nat | t < |s.threads| :: s.threads[t].pc.Done?)
    requires Execute(s, events).Some? && forall e <- events :: NoFlush(e)
    ensures AllHarmless(Execute(s, events).value) && Execute(s, events).value.fields.buf == s.fields.buf
  {
    if events != [] {
      var front, e := events[..|events| - 1], events[|events| - 1];
      OnlyFlushEmpties(s, front);
      assert e in events;
      HarmlessNext(Execute(s, front).value, e);
    }
  }

  // ---------------------------------------------------------------- a run

  const ANY := O.Clients((a, b) => true)

  ghost function Reach(): (states: iset<System>)
    ensures forall s :: s in states <==> Reachable(s)
  {
    iset s | Reachable(s)
  }

  lemma ReachIsClosed(config: Config)
    requires config.Valid()
    ensures O.Closed(ANY, Reach()) && Init(config) in Reach()
  {
    assert Execute(Init(config), []) == Some(Init(config));
    forall s, e | Reachable(s) && Enabled(s, e) ensures Reachable(Next(s, e)) {
      ReachableNext(s, e);
    }
  }

  /** A Close runs from start to end. */
  lemma ClosePlay(states: iset<System>, s: System) returns (r: System)
    requires O.Closed(ANY, states) && s in states && s.mu == None && s.flushMu == None
    ensures r in states && r.mu == None && r.flushMu == None && r.config == s.config && r.fields == MarkClosed(s.fields)
    ensures r.threads == s.threads + [Thread(Close, Done([]), None)] && r.log == s.log
  {
    var t := |s.threads|;
    O.Extend(ANY, states, s, Invoke(Close));
    var m := Spawn(s, Close);
    O.Extend(ANY, states, m, Step(t, true));
    var m1 := s.(flushMu := Some(t), threads := s.threads + [Thread(Close, AwaitMu(Closing), None)]);
    assert Run(m, t, true) == m1;
    O.Extend(ANY, states, m1, Step(t, true));
    var m2 := m1.(mu := Some(t), threads := s.threads + [Thread(Close, InMu(Closing), None)]);
    assert Run(m1, t, true) == m2;
    r := ClosingPlay(states, s, m2);
  }

  lemma ClosingPlay(states: iset<System>, s: System, m: System) returns (r: System)
    requires O.Closed(ANY, states) && m in states && s.mu == None && s.flushMu == None
    requires m == s.(mu := Some(|s.threads|), flushMu := Some(|s.threads|),
                     threads := s.threads + [Thread(Close, InMu(Closing), None)])
    ensures r in states
    ensures r == s.(fields := MarkClosed(s.fields), threads := s.threads + [Thread(Close, Done([]), None)])
  {
    var t := |s.threads|;
    O.Extend(ANY, states, m, Step(t, true));
    var m3 := m.(mu := None, fields := MarkClosed(s.fields), threads := s.threads + [Thread(Close, Unlocking([], None), None)]);
    assert Run(m, t, true) == m3;
    O.Extend(ANY, states, m3, Step(t, true));
    r := s.(fields := MarkClosed(s.fields), threads := s.threads + [Thread(Close, Done([]), None)]);
    assert Run(m3, t, true) == r;
  }

  /** Wherever a buffer holds two pages: the scan changes, Close comes in between, ProcessPage returns nil
      with its page in the buffer of the closed backend, and no call is left. */
  lemma PageBehindClose(config: Config) returns (r: System)
    requires config.Valid() && config.maxPages >= 2
    ensures Reachable(r) && r.fields.closed && r.fields.buf == [Page("b", 2, [])]
    ensures forall t: nat | t < |r.threads| :: r.threads[t].pc.Done?
    ensures 1 < |r.threads| && r.threads[1].call == Process(Page("b", 2, [])) && r.threads[1].pc == Done([])
  {
    ReachIsClosed(config);
    r := BehindPlay(config, Reach());
  }

  lemma BehindPlay(config: Config, states: iset<System>) returns (r: System)
    requires O.Closed(ANY, states) && Init(config) in states && config.Valid() && config.maxPages >= 2
    ensures r in states && r.fields.closed && r.fields.buf == [Page("b", 2, [])]
    ensures |r.threads| == 3 && r.threads[0].pc.Done? && r.threads[2].pc.Done?
    ensures r.threads[1].call == Process(Page("b", 2, [])) && r.threads[1].pc == Done([])
  {
    var s := LatePlay(config, states);
    r := O.JoinPlay(ANY, states, s, 1, Page("b", 2, []));
  }

  lemma LatePlay(config: Config, states: iset<System>) returns (r: System)
    requires O.Closed(ANY, states) && Init(config) in states && config.Valid() && config.maxPages >= 2
    ensures r in states && r.mu == None && r.flushMu == None && r.config == config
    ensures r.fields.closed && r.fields.buf == [] && r.fields.bufBytes == 0
    ensures |r.threads| == 3 && r.threads[0].pc.Done? && r.threads[2].pc.Done?
    ensures r.threads[1].call == Process(Page("b", 2, [])) && r.threads[1].pc == AwaitMu(Appending(Page("b", 2, [])))
  {
    var s := O.DelayPlay(ANY, config, states, "a", "b");
    r := ClosePlay(states, s);
  }
}
