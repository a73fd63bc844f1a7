/** shares.go: the view limit of a shared page, served and revoked by concurrent requests. */
module Shares {
  import opened Common

  /** The stored share record; a limit of zero or less means no limit. */
  datatype Record = Record(revoked: bool, expiresAt: int, maxViews: int, viewCount: int)

  predicate Spent(r: Record) { r.maxViews > 0 && r.viewCount >= r.maxViews }

  predicate Closed(r: Record, now: int) { r.revoked || r.expiresAt <= now || Spent(r) }

  /** The update script of a reservation. */
  function Counted(r: Record, now: int): Record {
    if Closed(r, now) then r else r.(viewCount := r.viewCount + 1)
  }

  function Revoked(r: Record): Record { r.(revoked := true) }

  /** How a request to the index ends: it is answered, or an error is returned although it took effect,
      or an error is returned and nothing happened. */
  datatype Reply = Answered | Lost | Refused

  datatype Reservation = Reserved | Rejected | Errored

  /** The one stored document, changed by single updates. */
  class SharesIndex {
    var record: Option<Record>

    constructor (r: Option<Record>)
      ensures record == r
    {
      record := r;
    }

    /** Checks access and consumes a view in one update. */
    method ReserveShareView(now: int, reply: Reply) returns (result: Reservation)
      modifies this
      ensures old(record).None? || reply.Refused? ==> record == old(record) && result.Errored?
      ensures old(record).Some? && !reply.Refused? ==> record == Some(Counted(old(record).value, now))
      ensures result.Reserved? <==> reply.Answered? && record != old(record)
      ensures result.Rejected? <==> reply.Answered? && old(record).Some? && Closed(old(record).value, now)
    {
      if record.None? || reply.Refused? {
        return Errored;
      }
      var updated := !Closed(record.value, now);
      if updated {
        record := Some(record.value.(viewCount := record.value.viewCount + 1));
      }
      result := if reply.Lost? then Errored else if updated then Reserved else Rejected;
    }

    /** Flips the record to revoked; false if there is no such record or the request failed. */
    method Revoke(reply: Reply) returns (ok: bool)
      modifies this
      ensures record == if old(record).Some? && !reply.Refused? then Some(Revoked(old(record).value)) else old(record)
      ensures ok <==> reply.Answered? && record.Some?
    {
      if record.Some? && !reply.Refused? {
        record := Some(record.value.(revoked := true));
      }
      ok := reply.Answered? && record.Some?;
    }

    /** What a serve request checks before it reserves; the token and the pass phrase are the caller's. */
    method CheckAccess(now: int, tokenExpiresAt: int, passed: bool) returns (open: bool)
      ensures open <==> record.Some? && !Closed(record.value, now) && tokenExpiresAt > now && passed
    {
      if record.None? {
        return false;
      }
      var rec := record.value;
      if rec.revoked || rec.expiresAt <= now || tokenExpiresAt <= now {
        return false;
      }
      if rec.maxViews > 0 && rec.viewCount >= rec.maxViews {
        return false;
      }
      open := passed;
    }
  }

  // ---------------------------------------------------------------- interleaved requests

  /** One serve request. `Failed(true)` is a view that was counted but reported as an error. */
  datatype Phase = Started | Checked | Holding | Delivered | Undelivered | NotFound | Failed(counted: bool)

  datatype State = State(record: Record, calls: seq<Phase>)

  datatype Step =
    | Arrive
    | Check(call: nat, now: int, tokenExpiresAt: int, passed: bool)
    | CheckFails(call: nat)
    | Reserve(call: nat, now: int, reply: Reply)
    | Deliver(call: nat, ok: bool)
    | Revoke(reply: Reply)

  function Reserving(r: Record, now: int, reply: Reply): Phase {
    if reply.Refused? then Failed(false)
    else if reply.Lost? then Failed(!Closed(r, now))
    else if Closed(r, now) then NotFound else Holding
  }

  predicate InPhase(s: State, call: nat, p: Phase) { call < |s.calls| && s.calls[call] == p }

  predicate Enabled(s: State, step: Step) {
    match step
    case Check(call, _, _, _) => InPhase(s, call, Started)
    case CheckFails(call) => InPhase(s, call, Started)
    case Reserve(call, _, _) => InPhase(s, call, Checked)
    case Deliver(call, _) => InPhase(s, call, Holding)
    case Arrive => true
    case Revoke(_) => true
  }

  function Next(s: State, step: Step): State
    requires Enabled(s, step)
  {
    match step
    case Arrive => s.(calls := s.calls + [Started])
    case Check(call, now, tokenExpiresAt, passed) =>
      s.(calls := s.calls[call := if Closed(s.record, now) || tokenExpiresAt <= now || !passed then NotFound else Checked])
    case CheckFails(call) => s.(calls := s.calls[call := Failed(false)])
    case Reserve(call, now, reply) =>
      State(if reply.Refused? then s.record else Counted(s.record, now),
            s.calls[call := Reserving(s.record, now, reply)])
    case Deliver(call, ok) => s.(calls := s.calls[call := if ok then Delivered else Undelivered])
    case Revoke(reply) => s.(record := if reply.Refused? then s.record else Revoked(s.record))
  }

  function Execute(s: State, steps: seq<Step>): Option<State> {
    if steps == [] then Some(s)
    else match Execute(s, steps[..|steps| - 1])
      case None => None
      case Some(m) => if Enabled(m, steps[|steps| - 1]) then Some(Next(m, steps[|steps| - 1])) else None
  }

  /** A record as it is stored when the share is created. */
  predicate Fresh(s: State) { s.calls == [] && s.record.viewCount == 0 && !s.record.revoked }

  // ---------------------------------------------------------------- accounting

  predicate Consumes(p: Phase) { p.Holding? || p.Delivered? || p.Undelivered? || p == Failed(true) }

  function Consumed(calls: seq<Phase>): nat {
    if calls == [] then 0
    else Consumed(calls[..|calls| - 1]) + if Consumes(calls[|calls| - 1]) then 1 else 0
  }

  function CountOf(calls: seq<Phase>, p: Phase): (n: nat)
    ensures n <= |calls|
  {
    if calls == [] then 0
    else CountOf(calls[..|calls| - 1], p) + if calls[|calls| - 1] == p then 1 else 0
  }

  lemma {:induction false} ConsumedUpdate(calls: seq<Phase>, i: nat, p: Phase)
    requires i < |calls|
    ensures Consumed(calls[i := p])
         == Consumed(calls) + (if Consumes(p) then 1 else 0) - (if Consumes(calls[i]) then 1 else 0)
  {
    var n := |calls| - 1;
    if i == n {
      assert calls[i := p][..n] == calls[..n];
    } else {
      assert calls[i := p][..n] == calls[..n][i := p];
      ConsumedUpdate(calls[..n], i, p);
    }
  }

  /** Every consumed view is held, delivered, or lost after it was counted. */
  lemma {:induction false} ConsumedSplits(calls: seq<Phase>)
    ensures Consumed(calls) == CountOf(calls, Holding) + CountOf(calls, Delivered) + CountOf(calls, Undelivered)
                               + CountOf(calls, Failed(true))
  {
    if calls != [] {
      ConsumedSplits(calls[..|calls| - 1]);
    }
  }

  predicate Inv(s: State) {
    s.record.viewCount == Consumed(s.calls) && (s.record.maxViews > 0 ==> s.record.viewCount <= s.record.maxViews)
  }

  lemma NextInv(s: State, step: Step)
    requires Inv(s) && Enabled(s, step)
    ensures Inv(Next(s, step))
  {
    var t := Next(s, step);
    match step
    case Arrive => assert t.calls[..|s.calls|] == s.calls;
    case Check(call, _, _, _) => ConsumedUpdate(s.calls, call, t.calls[call]);
    case CheckFails(call) => ConsumedUpdate(s.calls, call, t.calls[call]);
    case Reserve(call, now, reply) => ConsumedUpdate(s.calls, call, t.calls[call]);
    case Deliver(call, ok) => ConsumedUpdate(s.calls, call, t.calls[call]);
    case Revoke(reply) =>
  }

  lemma {:induction false} RunInv(s: State, steps: seq<Step>)
    requires Fresh(s) && Execute(s, steps).Some?
    ensures Inv(Execute(s, steps).value)
    decreases |steps|
  {
    if steps != [] {
      var front := steps[..|steps| - 1];
      RunInv(s, front);
      NextInv(Execute(s, front).value, steps[|steps| - 1]);
    }
  }

  /** In every interleaving the counter is the number of delivered pages, of calls that still hold
      a reservation, and of reservations that were counted and then failed; so pages delivered never
      exceed it, and it never exceeds a positive limit. */
  lemma ViewsAreConserved(s: State, steps: seq<Step>, t: State)
    requires Fresh(s) && Execute(s, steps) == Some(t)
    ensures t.record.viewCount == CountOf(t.calls, Delivered) + CountOf(t.calls, Holding)
                                  + CountOf(t.calls, Undelivered) + CountOf(t.calls, Failed(true))
    ensures t.record.maxViews > 0 ==> CountOf(t.calls, Delivered) <= t.record.viewCount <= t.record.maxViews
  {
    RunInv(s, steps);
    ConsumedSplits(t.calls);
  }

  predicate TakesBack(step: Step) { step.Revoke? && !step.reply.Refused? }

  /** Over any run the record is revoked exactly by a revocation that took effect, answered or not, and keeps
      its expiry and its limit. */
  lemma {:induction false} RevokedExactly(s: State, steps: seq<Step>, t: State)
    requires Execute(s, steps) == Some(t)
    ensures t.record.revoked <==> s.record.revoked || exists step <- steps :: TakesBack(step)
    ensures t.record.expiresAt == s.record.expiresAt && t.record.maxViews == s.record.maxViews
    decreases |steps|
  {
    if steps != [] {
      var front, last := steps[..|steps| - 1], steps[|steps| - 1];
      RevokedExactly(s, front, Execute(s, front).value);
      assert last in steps && forall step <- front :: step in steps;
      if step :| step in steps && TakesBack(step) {
        assert step in front || step == last;
      }
    }
  }

  /** Once a revocation took effect the record never changes again, and no call that had not reserved
      by then ever delivers. */
  lemma {:induction false} RevokedForGood(s: State, steps: seq<Step>, t: State)
    requires s.record.revoked && Execute(s, steps) == Some(t)
    ensures t.record == s.record && |t.calls| >= |s.calls|
    ensures forall i: nat | i < |t.calls| && Consumes(t.calls[i]) :: i < |s.calls| && Consumes(s.calls[i])
    decreases |steps|
  {
    if steps != [] {
      var m := Execute(s, steps[..|steps| - 1]).value;
      RevokedForGood(s, steps[..|steps| - 1], m);
      RevokedStep(m, steps[|steps| - 1]);
    }
  }

  lemma RevokedStep(s: State, step: Step)
    requires s.record.revoked && Enabled(s, step)
    ensures var t := Next(s, step);
            && t.record == s.record && |t.calls| >= |s.calls|
            && forall i: nat | i < |t.calls| && Consumes(t.calls[i]) :: i < |s.calls| && Consumes(s.calls[i])
  {}

  /** The clock never shows a time before `start`. */
  predicate From(start: int, step: Step) {
    (step.Check? ==> step.now >= start) && (step.Reserve? ==> step.now >= start)
  }

  lemma ClosedStep(s: State, step: Step, start: int)
    requires Closed(s.record, start) && Enabled(s, step) && From(start, step)
    ensures var t := Next(s, step);
            && Closed(t.record, start) && t.record.viewCount == s.record.viewCount && |t.calls| >= |s.calls|
            && forall i: nat | i < |t.calls| && Consumes(t.calls[i]) :: i < |s.calls| && Consumes(s.calls[i])
  {}

  /** A record that is revoked, expired or spent stays closed: the count never changes again, and only
      calls that had reserved before can still deliver. */
  lemma {:induction false} ClosedForGood(s: State, steps: seq<Step>, t: State, start: int)
    requires Closed(s.record, start) && Execute(s, steps) == Some(t) && forall step <- steps :: From(start, step)
    ensures Closed(t.record, start) && t.record.viewCount == s.record.viewCount && |t.calls| >= |s.calls|
    ensures forall i: nat | i < |t.calls| && Consumes(t.calls[i]) :: i < |s.calls| && Consumes(s.calls[i])
    decreases |steps|
  {
    if steps != [] {
      var front, last := steps[..|steps| - 1], steps[|steps| - 1];
      var m := Execute(s, front).value;
      ClosedForGood(s, front, m, start);
      assert last in steps;
      ClosedStep(m, last, start);
    }
  }

  /** Access is open: not revoked, not expired, and with a view left if there is a limit. */
  predicate Open(r: Record, now: int) {
    !r.revoked && now < r.expiresAt && (r.maxViews <= 0 || r.viewCount < r.maxViews)
  }

  /** From this state on the call can still come to deliver its page. */
  ghost predicate CanDeliver(s: State, call: nat, start: int) {
    exists steps :: Delivers(s, steps, call) && forall step <- steps :: From(start, step)
  }

  predicate Delivers(s: State, steps: seq<Step>, call: nat) {
    Execute(s, steps).Some? && InPhase(Execute(s, steps).value, call, Delivered)
  }

  /** A call that passed the first check delivers in some continuation exactly if the record is still
      open: never after a revocation, after the last view was counted, or after the expiry. */
  lemma ReservedExactly(s: State, call: nat, start: int)
    requires InPhase(s, call, Checked)
    ensures CanDeliver(s, call, start) <==> Open(s.record, start)
  {
    if Closed(s.record, start) {
      forall steps | Execute(s, steps).Some? && forall step <- steps :: From(start, step)
        ensures !Delivers(s, steps, call)
      {
        ClosedForGood(s, steps, Execute(s, steps).value, start);
      }
    } else {
      ServePlay(s, call, start);
    }
  }

  lemma ServePlay(s: State, call: nat, now: int)
    requires InPhase(s, call, Checked) && !Closed(s.record, now)
    ensures CanDeliver(s, call, now)
  {
    var reserve, deliver := Reserve(call, now, Answered), Deliver(call, true);
    var steps := [reserve, deliver];
    assert steps[..1] == [reserve] && [reserve][..0] == [];
    assert Execute(s, []) == Some(s);
    assert Execute(s, [reserve]) == Some(Next(s, reserve));
    assert Execute(s, steps) == Some(Next(Next(s, reserve), deliver));
    assert Delivers(s, steps, call);
  }

  // ---------------------------------------------------------------- exactly which calls deliver

  /** What a step does for a call, given the record at that moment. */
  datatype Deed = Passes | Reserves | IsDenied | Breaks | Wastes | Sends | Ends

  predicate Does(deed: Deed, call: nat, r: Record, step: Step) {
    match deed
    case Passes => PassesAt(r, step, call)
    case Reserves => step.Reserve? && step.call == call && step.reply.Answered? && Open(r, step.now)
    case IsDenied =>
      || (step.Check? && step.call == call && !PassesAt(r, step, call))
      || (step.Reserve? && step.call == call && step.reply.Answered? && !Open(r, step.now))
    case Breaks => step == CheckFails(call) || (step.Reserve? && step.call == call && !step.reply.Answered?)
    case Wastes => step.Reserve? && step.call == call && step.reply.Lost? && Open(r, step.now)
    case Sends => step == Deliver(call, true)
    case Ends => step.Deliver? && step.call == call
  }

  predicate PassesAt(r: Record, step: Step, call: nat) {
    step.Check? && step.call == call && step.passed && step.now < step.tokenExpiresAt && Open(r, step.now)
  }

  /** The record before the n-th step. */
  function RecordAt(s: State, steps: seq<Step>, n: nat): Record
    requires n <= |steps|
  {
    var m := Execute(s, steps[..n]);
    if m.Some? then m.value.record else s.record
  }

  /** Some step of the run did that for the call. */
  ghost predicate Did(s: State, steps: seq<Step>, call: nat, deed: Deed) {
    exists n: nat :: n < |steps| && Does(deed, call, RecordAt(s, steps, n), steps[n])
  }

  lemma DidPush(s: State, steps: seq<Step>, step: Step, call: nat, deed: Deed)
    requires Execute(s, steps).Some?
    ensures Did(s, steps + [step], call, deed) <==>
            Did(s, steps, call, deed) || Does(deed, call, Execute(s, steps).value.record, step)
  {
    var longer := steps + [step];
    assert longer[..|steps|] == steps && longer[|steps|] == step;
    forall n: nat | n < |steps| ensures RecordAt(s, longer, n) == RecordAt(s, steps, n) && longer[n] == steps[n] {
      assert longer[..n] == steps[..n];
    }
    assert RecordAt(s, longer, |steps|) == Execute(s, steps).value.record;
    if n: nat :| n < |steps| && Does(deed, call, RecordAt(s, steps, n), steps[n]) {
      assert Does(deed, call, RecordAt(s, longer, n), longer[n]);
    }
  }

  /** The phase of a call by what was done for it so far. */
  predicate Story(phase: Phase, did: set<Deed>) {
    match phase
    case Started => did == {}
    case Checked => did == {Passes}
    case Holding => did == {Passes, Reserves}
    case Delivered => did == {Passes, Reserves, Sends, Ends}
    case Undelivered => did == {Passes, Reserves, Ends}
    case NotFound => did == {IsDenied} || did == {Passes, IsDenied}
    case Failed(counted) => if counted then did == {Passes, Breaks, Wastes} else did == {Breaks} || did == {Passes, Breaks}
  }

  const DEEDS := {Passes, Reserves, IsDenied, Breaks, Wastes, Sends, Ends}

  ghost function Deeds(s: State, steps: seq<Step>, call: nat): set<Deed> {
    set deed | deed in DEEDS && Did(s, steps, call, deed)
  }

  function DoneBy(call: nat, r: Record, step: Step): set<Deed> {
    set deed | deed in DEEDS && Does(deed, call, r, step)
  }

  lemma DeedsPush(s: State, steps: seq<Step>, step: Step, call: nat)
    requires Execute(s, steps).Some?
    ensures Deeds(s, steps + [step], call) == Deeds(s, steps, call) + DoneBy(call, Execute(s, steps).value.record, step)
  {
    forall deed | deed in DEEDS {
      DidPush(s, steps, step, call, deed);
    }
  }

  /** A call that has not arrived has no story. */
  ghost predicate Told(calls: seq<Phase>, call: nat, did: set<Deed>) {
    if call < |calls| then Story(calls[call], did) else did == {}
  }

  lemma StoryNext(m: State, step: Step, call: nat, did: set<Deed>)
    requires Enabled(m, step) && Told(m.calls, call, did)
    ensures Told(Next(m, step).calls, call, did + DoneBy(call, m.record, step))
  {
    match step
    case Arrive => assert DoneBy(call, m.record, step) == {};
    case Revoke(_) => assert DoneBy(call, m.record, step) == {};
    case Check(k, _, _, _) =>
      assert DoneBy(call, m.record, step)
             == if k != call then {} else if PassesAt(m.record, step, call) then {Passes} else {IsDenied};
    case CheckFails(k) => assert DoneBy(call, m.record, step) == if k == call then {Breaks} else {};
    case Deliver(k, ok) => assert DoneBy(call, m.record, step) == if k != call then {} else if ok then {Sends, Ends} else {Ends};
    case Reserve(_, _, _) => ReserveStory(m, step, call, did);
  }

  lemma ReserveStory(m: State, step: Step, call: nat, did: set<Deed>)
    requires Enabled(m, step) && step.Reserve? && Told(m.calls, call, did)
    ensures Told(Next(m, step).calls, call, did + DoneBy(call, m.record, step))
  {
    var open := Open(m.record, step.now);
    assert DoneBy(call, m.record, step)
           == if step.call != call then {}
              else if step.reply.Answered? then (if open then {Reserves} else {IsDenied})
              else if step.reply.Lost? && open then {Breaks, Wastes} else {Breaks};
  }

  lemma {:induction false} EveryStory(s: State, steps: seq<Step>, call: nat)
    requires Fresh(s) && Execute(s, steps).Some?
    ensures Told(Execute(s, steps).value.calls, call, Deeds(s, steps, call))
  {
    if steps == [] {
      assert Deeds(s, steps, call) == {};
    } else {
      var front, last := steps[..|steps| - 1], steps[|steps| - 1];
      EveryStory(s, front, call);
      assert steps == front + [last];
      DeedsPush(s, front, last, call);
      StoryNext(Execute(s, front).value, last, call, Deeds(s, front, call));
    }
  }

  /** In every run the outcome of a call is what its steps were: it delivers exactly if its page was sent,
      and then it had passed its first check, and made its reservation, each at a moment when the record
      was open; it is not found exactly if one of the two was denied; it fails exactly if a request broke
      off; and a view is wasted exactly if the reply to a reservation that counted was lost. */
  lemma OutcomeExactly(s: State, steps: seq<Step>, t: State, call: nat)
    requires Fresh(s) && Execute(s, steps) == Some(t)
    ensures InPhase(t, call, Checked) <==>
              Did(s, steps, call, Passes) && !Did(s, steps, call, Reserves) && !Did(s, steps, call, IsDenied)
              && !Did(s, steps, call, Breaks)
    ensures InPhase(t, call, Holding) <==> Did(s, steps, call, Reserves) && !Did(s, steps, call, Ends)
    ensures InPhase(t, call, Delivered) <==> Did(s, steps, call, Sends)
    ensures InPhase(t, call, Undelivered) <==> Did(s, steps, call, Ends) && !Did(s, steps, call, Sends)
    ensures InPhase(t, call, NotFound) <==> Did(s, steps, call, IsDenied)
    ensures InPhase(t, call, Failed(true)) <==> Did(s, steps, call, Wastes)
    ensures InPhase(t, call, Failed(false)) <==> Did(s, steps, call, Breaks) && !Did(s, steps, call, Wastes)
    ensures call < |t.calls| && Consumes(t.calls[call]) ==> Did(s, steps, call, Passes)
    ensures Did(s, steps, call, Sends) ==> Did(s, steps, call, Reserves) && Did(s, steps, call, Passes)
  {
    EveryStory(s, steps, call);
    AllDeeds(s, steps, call);
    Means(t, call, Deeds(s, steps, call));
  }

  /** No two phases have the same story. */
  lemma Means(t: State, call: nat, did: set<Deed>)
    requires Told(t.calls, call, did)
    ensures InPhase(t, call, Checked) <==> Passes in did && Reserves !in did && IsDenied !in did && Breaks !in did
    ensures InPhase(t, call, Holding) <==> Reserves in did && Ends !in did
    ensures InPhase(t, call, Delivered) <==> Sends in did
    ensures InPhase(t, call, Undelivered) <==> Ends in did && Sends !in did
    ensures InPhase(t, call, NotFound) <==> IsDenied in did
    ensures InPhase(t, call, Failed(true)) <==> Wastes in did
    ensures InPhase(t, call, Failed(false)) <==> Breaks in did && Wastes !in did
    ensures call < |t.calls| && Consumes(t.calls[call]) ==> Passes in did
    ensures Sends in did ==> Reserves in did && Passes in did
  {}

  lemma AllDeeds(s: State, steps: seq<Step>, call: nat)
    ensures forall deed :: deed in Deeds(s, steps, call) <==> Did(s, steps, call, deed)
  {
    forall deed: Deed ensures deed in DEEDS {
      match deed
      case Passes =>
      case Reserves =>
      case IsDenied =>
      case Breaks =>
      case Wastes =>
      case Sends =>
      case Ends =>
    }
  }

  /** A call that was turned away stays so. */
  lemma {:induction false} NotFoundForGood(s: State, steps: seq<Step>, call: nat)
    requires InPhase(s, call, NotFound) && Execute(s, steps).Some?
    ensures InPhase(Execute(s, steps).value, call, NotFound)
  {
    if steps != [] {
      NotFoundForGood(s, steps[..|steps| - 1], call);
    }
  }

  /** The first check lets a call come to deliver exactly if the pass phrase fits, the token is valid and
      the record is neither revoked nor expired nor spent. */
  lemma CheckedExactly(s: State, call: nat, now: int, tokenExpiresAt: int, passed: bool)
    requires InPhase(s, call, Started)
    ensures CanDeliver(Next(s, Check(call, now, tokenExpiresAt, passed)), call, now)
       <==> passed && now < tokenExpiresAt && Open(s.record, now)
  {
    var t := Next(s, Check(call, now, tokenExpiresAt, passed));
    if InPhase(t, call, Checked) {
      ReservedExactly(t, call, now);
    } else {
      forall steps | Execute(t, steps).Some? ensures !Delivers(t, steps, call) {
        NotFoundForGood(t, steps, call);
      }
    }
  }

  ghost predicate Serves(s: State, now: int) {
    exists steps, call: nat :: call >= |s.calls| && Delivers(s, steps, call) && forall step <- steps :: From(now, step)
  }

  /** In any state a request that has not arrived yet can come to deliver exactly if the record is open. */
  lemma NewCallExactly(s: State, now: int)
    ensures Serves(s, now) <==> Open(s.record, now)
  {
    if Open(s.record, now) {
      NewCallPlay(s, now);
    } else {
      forall steps, call: nat | call >= |s.calls| && Delivers(s, steps, call) && forall step <- steps :: From(now, step)
        ensures false
      {
        ClosedForGood(s, steps, Execute(s, steps).value, now);
      }
    }
  }

  lemma NewCallPlay(s: State, now: int)
    requires Open(s.record, now)
    ensures Serves(s, now)
  {
    var call := |s.calls|;
    var arrive, check := Arrive, Check(call, now, now + 1, true);
    var m := Next(Next(s, arrive), check);
    ServePlay(m, call, now);
    var steps :| Delivers(m, steps, call) && forall step <- steps :: From(now, step);
    Prepend(Next(s, arrive), check, steps);
    Prepend(s, arrive, [check] + steps);
    assert Delivers(s, [arrive] + ([check] + steps), call);
  }

  lemma {:induction false} Prepend(s: State, step: Step, steps: seq<Step>)
    requires Enabled(s, step)
    ensures Execute(s, [step] + steps) == Execute(Next(s, step), steps)
  {
    var all := [step] + steps;
    if steps == [] {
      assert all[..0] == [] && Execute(s, []) == Some(s);
    } else {
      Prepend(s, step, steps[..|steps| - 1]);
      assert all[..|all| - 1] == [step] + steps[..|steps| - 1];
    }
  }

  /** A revocation is possible at any time, and if it takes effect, answered or not, no call that holds no
      reservation by then delivers. */
  lemma RevocationStops(s: State, reply: Reply, call: nat, start: int)
    requires !reply.Refused? && (call < |s.calls| ==> !Consumes(s.calls[call]))
    ensures Enabled(s, Revoke(reply)) && !CanDeliver(Next(s, Revoke(reply)), call, start)
  {
    var t := Next(s, Revoke(reply));
    forall steps | Execute(t, steps).Some? ensures !Delivers(t, steps, call) {
      RevokedForGood(t, steps, Execute(t, steps).value);
    }
  }
}
