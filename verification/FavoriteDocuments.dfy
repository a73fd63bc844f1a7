/** useFavoriteDocuments.ts: a pool of at most four detail requests over a list of IDs that changes
    underneath it. Every callback is one step. */
module FavoriteDocuments {
  import opened Common

  const CONCURRENCY := 4

  datatype Document = Document(id: string, body: string)

  datatype Status = Pending | Loading | Loaded | Error

  datatype Entry = Entry(status: Status, document: Option<Document>, skipCache: bool)

  /** A promise chain: its answer is awaited, has been handled, or its `finally` has run too. */
  datatype Phase = Waiting | Landed | Finished

  datatype Request = Request(id: string, target: nat, skipCache: bool, phase: Phase)

  datatype Answer = Details(body: string) | BadDetails | Rejected

  /** Entry objects are named by their position in `objects`, so `entries` compares identities; `owners`
      is history, the ID each object was made for. `stale` says that the watcher is still to run. */
  datatype State = State(ids: seq<string>, entries: map<string, nat>, objects: seq<Entry>, owners: seq<string>,
                         requests: seq<Request>, active: nat, disposed: bool, stale: bool)

  predicate IsPending(s: State, id: string) {
    id in s.entries && s.entries[id] < |s.objects| && s.objects[s.entries[id]].status.Pending?
  }

  function Send(s: State, id: string): State
    requires IsPending(s, id)
  {
    var o := s.entries[id];
    s.(objects := s.objects[o := s.objects[o].(status := Loading)], active := s.active + 1,
       requests := s.requests + [Request(id, o, s.objects[o].skipCache, Waiting)])
  }

  /** The loop of `pump` from position k of the list. */
  function PumpFrom(s: State, k: nat): State
    decreases |s.ids| - k
  {
    if k >= |s.ids| || s.active >= CONCURRENCY then s
    else if IsPending(s, s.ids[k]) then PumpFrom(Send(s, s.ids[k]), k + 1)
    else PumpFrom(s, k + 1)
  }

  function Pump(s: State): State { if s.disposed then s else PumpFrom(s, 0) }

  /** A new entry object for an ID that has none. */
  function Add(s: State, id: string): State {
    if id in s.entries then s
    else s.(entries := s.entries[id := |s.objects|], objects := s.objects + [Entry(Pending, None, false)],
            owners := s.owners + [id])
  }

  function AddFrom(s: State, k: nat): State
    decreases |s.ids| - k
  {
    if k >= |s.ids| then s else AddFrom(Add(s, s.ids[k]), k + 1)
  }

  function Retain(s: State): State {
    s.(entries := map id | id in s.entries && id in s.ids :: s.entries[id])
  }

  function Watch(s: State): State { Pump(AddFrom(Retain(s), 0).(stale := false)) }

  function SetIds(s: State, ids: seq<string>): State { s.(ids := ids, stale := true) }

  function Dispose(s: State): State { s.(disposed := true, entries := map[]) }

  predicate Current(s: State, r: Request) {
    !s.disposed && r.id in s.entries && s.entries[r.id] == r.target
  }

  function Receive(e: Entry, id: string, answer: Answer): Entry {
    match answer
    case Details(body) => e.(status := Loaded, document := Some(Document(id, body)))
    case _ => e.(status := Error)
  }

  /** The `then` and `catch` handlers of request k. */
  function Settle(s: State, k: nat, answer: Answer): State
    requires k < |s.requests|
  {
    var r := s.requests[k];
    var t := s.(requests := s.requests[k := r.(phase := Landed)]);
    if Current(s, r) && r.target < |s.objects|
    then t.(objects := s.objects[r.target := Receive(s.objects[r.target], r.id, answer)])
    else t
  }

  /** Its `finally` handler. */
  function Finish(s: State, k: nat): State
    requires k < |s.requests| && s.active > 0
  {
    Pump(s.(requests := s.requests[k := s.requests[k].(phase := Finished)], active := s.active - 1))
  }

  function Retried(s: State, o: nat): Entry
    requires o < |s.objects|
  {
    if o in s.entries.Values && s.objects[o].status.Error?
    then s.objects[o].(status := Pending, skipCache := true) else s.objects[o]
  }

  function Retry(s: State): State {
    Pump(s.(objects := seq(|s.objects|, o requires 0 <= o < |s.objects| => Retried(s, o))))
  }

  function Initial(ids: seq<string>): State {
    Watch(State(ids, map[], [], [], [], 0, false, true))
  }

  class FavoriteDocuments {
    var ids: seq<string>
    var entries: map<string, nat>
    var objects: seq<Entry>
    ghost var owners: seq<string>
    var requests: seq<Request>
    var active: nat
    var disposed: bool
    ghost var stale: bool

    ghost function View(): State
      reads this
    {
      State(ids, entries, objects, owners, requests, active, disposed, stale)
    }

    method PumpRequests()
      modifies this
      ensures View() == Pump(old(View()))
    {
      if disposed {
        return;
      }
      for k := 0 to |ids|
        invariant ids == old(ids)
        invariant PumpFrom(View(), k) == PumpFrom(old(View()), 0)
      {
        if active >= CONCURRENCY {
          break;
        }
        var id := ids[k];
        if id in entries && entries[id] < |objects| && objects[entries[id]].status.Pending? {
          var o := entries[id];
          requests := requests + [Request(id, o, objects[o].skipCache, Waiting)];
          objects := objects[o := objects[o].(status := Loading)];
          active := active + 1;
        }
      }
    }

    method AddEntry(id: string)
      modifies this
      ensures View() == Add(old(View()), id)
    {
      if id !in entries {
        entries := entries[id := |objects|];
        objects := objects + [Entry(Pending, None, false)];
        owners := owners + [id];
      }
    }

    method OnIdsChanged()
      modifies this
      ensures View() == Watch(old(View()))
    {
      entries := map id | id in entries && id in ids :: entries[id];
      for k := 0 to |ids|
        invariant ids == old(ids) && stale == old(stale)
        invariant AddFrom(View(), k) == AddFrom(Retain(old(View())), 0)
      {
        AddEntry(ids[k]);
      }
      stale := false;
      PumpRequests();
    }

    method OnSettled(k: nat, answer: Answer)
      requires k < |requests|
      modifies this
      ensures View() == Settle(old(View()), k, answer)
    {
      var r := requests[k];
      requests := requests[k := r.(phase := Landed)];
      if disposed || r.id !in entries || entries[r.id] != r.target || r.target >= |objects| {
        return;
      }
      match answer
      case Details(body) =>
        objects := objects[r.target := objects[r.target].(status := Loaded, document := Some(Document(r.id, body)))];
      case _ =>
        objects := objects[r.target := objects[r.target].(status := Error)];
    }

    method OnFinally(k: nat)
      requires k < |requests| && active > 0
      modifies this
      ensures View() == Finish(old(View()), k)
    {
      requests := requests[k := requests[k].(phase := Finished)];
      active := active - 1;
      PumpRequests();
    }

    method RetryFailed()
      modifies this
      ensures View() == Retry(old(View()))
    {
      ghost var before := View();
      for o := 0 to |objects|
        invariant View() == before.(objects := objects) && |objects| == |before.objects|
        invariant forall j: nat | j < |objects| :: objects[j] == if j < o then Retried(before, j) else before.objects[j]
      {
        if o in entries.Values && objects[o].status.Error? {
          objects := objects[o := objects[o].(status := Pending, skipCache := true)];
        }
      }
      assert objects == seq(|before.objects|, o requires 0 <= o < |before.objects| => Retried(before, o));
      PumpRequests();
    }

    method OnDispose()
      modifies this
      ensures View() == Dispose(old(View()))
    {
      disposed := true;
      entries := map[];
    }
  }

  // ---------------------------------------------------------------- runs

  datatype Event =
    | IdsChange(ids: seq<string>) | WatcherRuns | Settles(request: nat, answer: Answer) | Finishes(request: nat)
    | Retries | Disposes

  predicate Possible(s: State, e: Event) {
    match e
    case WatcherRuns => s.stale && !s.disposed
    case Settles(k, _) => k < |s.requests| && s.requests[k].phase.Waiting?
    case Finishes(k) => k < |s.requests| && s.requests[k].phase.Landed? && s.active > 0
    case _ => true
  }

  function Next(s: State, e: Event): State
    requires Possible(s, e)
  {
    match e
    case IdsChange(ids) => SetIds(s, ids)
    case WatcherRuns => Watch(s)
    case Settles(k, answer) => Settle(s, k, answer)
    case Finishes(k) => Finish(s, k)
    case Retries => Retry(s)
    case Disposes => Dispose(s)
  }

  // ---------------------------------------------------------------- invariants

  function Unfinished(requests: seq<Request>): nat {
    if requests == [] then 0
    else Unfinished(requests[..|requests| - 1]) + if requests[|requests| - 1].phase.Finished? then 0 else 1
  }

  lemma {:induction false} UnfinishedUpdate(requests: seq<Request>, k: nat, r: Request)
    requires k < |requests|
    ensures Unfinished(requests[k := r])
            == Unfinished(requests) - (if requests[k].phase.Finished? then 0 else 1) + (if r.phase.Finished? then 0 else 1)
  {
    var n := |requests| - 1;
    if k < n {
      UnfinishedUpdate(requests[..n], k, r);
      assert requests[k := r][..n] == requests[..n][k := r];
    } else {
      assert requests[k := r][..n] == requests[..n];
    }
  }

  lemma UnfinishedPush(requests: seq<Request>, r: Request)
    ensures Unfinished(requests + [r]) == Unfinished(requests) + if r.phase.Finished? then 0 else 1
  {
    assert (requests + [r])[..|requests|] == requests;
  }

  lemma {:induction false} UnfinishedAt(requests: seq<Request>, k: nat)
    requires k < |requests| && !requests[k].phase.Finished?
    ensures Unfinished(requests) > 0
  {
    if k < |requests| - 1 {
      UnfinishedAt(requests[..|requests| - 1], k);
    }
  }

  predicate Counted(s: State) { s.active == Unfinished(s.requests) <= CONCURRENCY }

  /** Objects belong to one ID for good; a shown document is that of its own ID. */
  ghost predicate Identities(s: State) {
    && |s.owners| == |s.objects| && (s.disposed ==> s.entries == map[])
    && (forall id <- s.entries :: s.entries[id] < |s.objects| && s.owners[s.entries[id]] == id)
    && (forall r <- s.requests :: r.target < |s.objects| && s.owners[r.target] == r.id)
    && (forall o: nat | o < |s.objects| :: s.objects[o].document.Some? ==> s.objects[o].document.value.id == s.owners[o])
  }

  predicate Awaits(r: Request, o: nat) { r.phase.Waiting? && r.target == o }

  ghost predicate AwaitedIn(requests: seq<Request>, o: nat) {
    exists k: nat :: k < |requests| && Awaits(requests[k], o)
  }

  /** An entry is loading exactly while the answer of one request for it is awaited. */
  ghost predicate Loads(s: State) {
    && (forall o: nat | o < |s.objects| && s.objects[o].status.Loading? ::
          AwaitedIn(s.requests, o) || o !in s.entries.Values)
    && (forall k: nat, l: nat | k < |s.requests| && l < |s.requests| && s.requests[k].phase.Waiting?
                                && s.requests[l].phase.Waiting? && s.requests[k].target == s.requests[l].target :: k == l)
    && (forall k: nat | k < |s.requests| && s.requests[k].phase.Waiting? && s.requests[k].target < |s.objects| ::
          s.objects[s.requests[k].target].status.Loading?)
  }

  /** Once the watcher has caught up, every listed ID has an entry, and nothing listed waits for a
      request unless four are already under way. */
  ghost predicate CaughtUp(s: State) {
    !s.disposed && !s.stale ==>
      && (forall id <- s.ids :: id in s.entries)
      && (s.active == CONCURRENCY || NonePending(s))
  }

  predicate NonePending(s: State) { forall id <- s.ids :: !IsPending(s, id) }

  ghost predicate Base(s: State) { Counted(s) && Identities(s) && Loads(s) }

  ghost predicate Inv(s: State) { Base(s) && CaughtUp(s) }

  lemma SendBase(s: State, id: string)
    requires Base(s) && IsPending(s, id) && s.active < CONCURRENCY
    ensures Base(Send(s, id))
  {
    var r := Send(s, id);
    UnfinishedPush(s.requests, r.requests[|s.requests|]);
    SendLoads(s, id);
  }

  lemma SendLoads(s: State, id: string)
    requires Identities(s) && Loads(s) && IsPending(s, id)
    ensures Loads(Send(s, id))
  {
    var r := Send(s, id);
    forall o: nat | o < |r.objects| && r.objects[o].status.Loading?
      ensures (exists k: nat :: k < |r.requests| && Awaits(r.requests[k], o)) || o !in r.entries.Values
    {
      if o == s.entries[id] {
        assert Awaits(r.requests[|s.requests|], o);
      } else if k: nat :| k < |s.requests| && Awaits(s.requests[k], o) {
        assert Awaits(r.requests[k], o);
      }
    }
  }

  lemma {:induction false} PumpFromBase(s: State, k: nat)
    requires Base(s)
    ensures Base(PumpFrom(s, k))
    ensures var r := PumpFrom(s, k);
            r.ids == s.ids && r.entries == s.entries && r.disposed == s.disposed && r.stale == s.stale
    decreases |s.ids| - k
  {
    if k < |s.ids| && s.active < CONCURRENCY {
      if IsPending(s, s.ids[k]) {
        SendBase(s, s.ids[k]);
        PumpFromBase(Send(s, s.ids[k]), k + 1);
      } else {
        PumpFromBase(s, k + 1);
      }
    }
  }

  /** The pump stops because four requests are under way or because nothing listed is pending. */
  lemma {:induction false} PumpFromCatches(s: State, k: nat)
    requires Base(s) && k <= |s.ids|
    requires forall j | 0 <= j < k :: !IsPending(s, s.ids[j])
    ensures PumpFrom(s, k).active == CONCURRENCY || NonePending(PumpFrom(s, k))
    decreases |s.ids| - k
  {
    if k < |s.ids| && s.active < CONCURRENCY {
      if IsPending(s, s.ids[k]) {
        SendBase(s, s.ids[k]);
        PumpFromCatches(Send(s, s.ids[k]), k + 1);
      } else {
        PumpFromCatches(s, k + 1);
      }
    }
  }

  lemma PumpInv(s: State)
    requires Base(s)
    requires !s.disposed && !s.stale ==> forall id <- s.ids :: id in s.entries
    ensures Inv(Pump(s))
  {
    PumpFromBase(s, 0);
    PumpFromCatches(s, 0);
  }

  lemma {:induction false} AddFromBase(s: State, k: nat)
    requires Base(s) && !s.disposed
    ensures Base(AddFrom(s, k))
    decreases |s.ids| - k
  {
    if k < |s.ids| {
      AddBase(s, s.ids[k]);
      AddFromBase(Add(s, s.ids[k]), k + 1);
    }
  }

  lemma {:induction false} AddFromKeys(s: State, k: nat)
    ensures var r := AddFrom(s, k);
            && r.ids == s.ids && r.disposed == s.disposed && s.entries.Keys <= r.entries.Keys
            && forall j: nat | k <= j < |s.ids| :: s.ids[j] in r.entries
    decreases |s.ids| - k
  {
    if k < |s.ids| {
      AddFromKeys(Add(s, s.ids[k]), k + 1);
    }
  }

  lemma AddBase(s: State, id: string)
    requires Base(s) && !s.disposed
    ensures Base(Add(s, id))
  {
    if id !in s.entries {
      var r := Add(s, id);
      forall o: nat | o < |r.objects| && r.objects[o].status.Loading?
        ensures (exists k: nat :: k < |r.requests| && Awaits(r.requests[k], o)) || o !in r.entries.Values
      {
        assert r.objects[o] == s.objects[o];
        if o in r.entries.Values {
          var x :| x in r.entries && r.entries[x] == o;
          assert s.entries[x] == o && o in s.entries.Values;
        }
      }
    }
  }

  lemma RetainBase(s: State)
    requires Base(s)
    ensures Base(Retain(s))
  {
    var r := Retain(s);
    forall o | o in r.entries.Values ensures o in s.entries.Values {
      var x :| x in r.entries && r.entries[x] == o;
      assert s.entries[x] == o;
    }
  }

  lemma WatchInv(s: State)
    requires Base(s) && !s.disposed
    ensures Inv(Watch(s))
  {
    RetainBase(s);
    AddFromBase(Retain(s), 0);
    AddFromKeys(Retain(s), 0);
    var m := AddFrom(Retain(s), 0).(stale := false);
    forall id <- m.ids ensures id in m.entries {
      var j :| 0 <= j < |s.ids| && s.ids[j] == id;
    }
    PumpInv(m);
  }

  lemma SettleInv(s: State, k: nat, answer: Answer)
    requires Inv(s) && Possible(s, Settles(k, answer))
    ensures Inv(Settle(s, k, answer))
  {
    UnfinishedUpdate(s.requests, k, s.requests[k].(phase := Landed));
    SettleIdentities(s, k, answer);
    SettleLoads(s, k, answer);
    SettleCaughtUp(s, k, answer);
  }

  lemma SettleIdentities(s: State, k: nat, answer: Answer)
    requires Identities(s) && Possible(s, Settles(k, answer))
    ensures Identities(Settle(s, k, answer))
  {
    var r := Settle(s, k, answer);
    assert s.requests[k] in s.requests;
    forall q <- r.requests ensures q.target < |r.objects| && r.owners[q.target] == q.id {
      assert q in s.requests || q == r.requests[k];
    }
  }

  lemma SettleCaughtUp(s: State, k: nat, answer: Answer)
    requires CaughtUp(s) && Possible(s, Settles(k, answer))
    ensures CaughtUp(Settle(s, k, answer))
  {
    var r := Settle(s, k, answer);
    forall id ensures IsPending(r, id) ==> IsPending(s, id) {}
  }

  lemma SettleLoads(s: State, k: nat, answer: Answer)
    requires Identities(s) && Loads(s) && Possible(s, Settles(k, answer))
    ensures Loads(Settle(s, k, answer))
  {
    assert s.requests[k] in s.requests;
    SettleTarget(s, k, answer);
    forall o: nat | o < |s.objects| && Settle(s, k, answer).objects[o].status.Loading? && o in Settle(s, k, answer).entries.Values
      ensures AwaitedIn(Settle(s, k, answer).requests, o)
    {
      SettleAwaited(s, k, answer, o);
    }
  }

  /** Only the entry of the answer stops loading, and its request stops waiting. */
  lemma SettleTarget(s: State, k: nat, answer: Answer)
    requires Possible(s, Settles(k, answer)) && s.requests[k].target < |s.objects|
    ensures var r := Settle(s, k, answer);
            && |r.objects| == |s.objects| && |r.requests| == |s.requests| && r.entries == s.entries
            && !r.requests[k].phase.Waiting?
            && (forall l: nat | l < |s.requests| && l != k :: r.requests[l] == s.requests[l])
            && (forall o: nat | o < |s.objects| && o != s.requests[k].target :: r.objects[o] == s.objects[o])
  {}

  lemma SettleAwaited(s: State, k: nat, answer: Answer, o: nat)
    requires Identities(s) && Loads(s) && Possible(s, Settles(k, answer)) && o < |s.objects|
    requires var r := Settle(s, k, answer); r.objects[o].status.Loading? && o in r.entries.Values
    ensures AwaitedIn(Settle(s, k, answer).requests, o)
  {
    var r := Settle(s, k, answer);
    assert s.requests[k] in s.requests;
    assert s.objects[o].status.Loading?;
    var l: nat :| l < |s.requests| && Awaits(s.requests[l], o);
    assert Awaits(r.requests[l], o);
  }

  lemma FinishInv(s: State, k: nat)
    requires Inv(s) && Possible(s, Finishes(k))
    ensures Inv(Finish(s, k))
  {
    UnfinishedUpdate(s.requests, k, s.requests[k].(phase := Finished));
    FinishBase(s, k);
    PumpInv(s.(requests := s.requests[k := s.requests[k].(phase := Finished)], active := s.active - 1));
  }

  lemma FinishBase(s: State, k: nat)
    requires Base(s) && k < |s.requests| && s.requests[k].phase.Landed?
    requires Unfinished(s.requests[k := s.requests[k].(phase := Finished)]) == Unfinished(s.requests) - 1
    ensures s.active > 0
    ensures Base(s.(requests := s.requests[k := s.requests[k].(phase := Finished)], active := s.active - 1))
  {
    FinishParts(s, k, s.(requests := s.requests[k := s.requests[k].(phase := Finished)], active := s.active - 1));
  }

  lemma FinishParts(s: State, k: nat, m: State)
    requires Identities(s) && Loads(s) && k < |s.requests| && s.requests[k].phase.Landed?
    requires m == s.(requests := s.requests[k := s.requests[k].(phase := Finished)], active := m.active)
    ensures Identities(m) && Loads(m)
  {
    assert s.requests[k] in s.requests;
    forall q <- m.requests ensures q.target < |m.objects| && m.owners[q.target] == q.id {
      assert q in s.requests || q == m.requests[k];
    }
    forall o: nat | o < |m.objects| && m.objects[o].status.Loading? && o in m.entries.Values
      ensures exists l: nat :: l < |m.requests| && Awaits(m.requests[l], o)
    {
      var l: nat :| l < |s.requests| && Awaits(s.requests[l], o);
      assert Awaits(m.requests[l], o);
    }
  }

  lemma RetryInv(s: State)
    requires Inv(s)
    ensures Inv(Retry(s))
  {
    PumpInv(s.(objects := seq(|s.objects|, o requires 0 <= o < |s.objects| => Retried(s, o))));
  }

  lemma NextInv(s: State, e: Event)
    requires Inv(s) && Possible(s, e)
    ensures Inv(Next(s, e))
  {
    match e
    case IdsChange(_) =>
    case WatcherRuns => WatchInv(s);
    case Settles(k, answer) => SettleInv(s, k, answer);
    case Finishes(k) => FinishInv(s, k);
    case Retries => RetryInv(s);
    case Disposes => assert forall o :: o !in Dispose(s).entries.Values;
  }

  function Run(ids: seq<string>, events: seq<Event>): Option<State> {
    if events == [] then Some(Initial(ids))
    else match Run(ids, events[..|events| - 1])
      case None => None
      case Some(s) => if Possible(s, events[|events| - 1]) then Some(Next(s, events[|events| - 1])) else None
  }

  ghost predicate Reachable(s: State) { exists ids, events :: Run(ids, events) == Some(s) }

  lemma {:induction false} RunInv(ids: seq<string>, events: seq<Event>)
    requires Run(ids, events).Some?
    ensures Inv(Run(ids, events).value)
  {
    if events == [] {
      WatchInv(State(ids, map[], [], [], [], 0, false, true));
    } else {
      RunInv(ids, events[..|events| - 1]);
      NextInv(Run(ids, events[..|events| - 1]).value, events[|events| - 1]);
    }
  }

  lemma ReachableInv(s: State)
    requires Reachable(s)
    ensures Inv(s)
  {
    var ids, events :| Run(ids, events) == Some(s);
    RunInv(ids, events);
  }

  // ---------------------------------------------------------------- what every run guarantees

  /** However `ids` changes, `active` counts the requests whose `finally` has not run: at most four. */
  lemma AtMostFour(s: State)
    requires Reachable(s)
    ensures s.active == Unfinished(s.requests) && s.active <= CONCURRENCY
  {
    ReachableInv(s);
  }

  function Count(ids: seq<string>, p: string -> bool): nat {
    if ids == [] then 0 else (if p(ids[0]) then 1 else 0) + Count(ids[1..], p)
  }

  /** The ID waits for an answer, or for its turn. */
  predicate Waits(s: State, id: string) {
    id in s.entries && s.entries[id] < |s.objects|
    && (s.objects[s.entries[id]].status.Pending? || s.objects[s.entries[id]].status.Loading?)
  }

  function PendingCount(s: State): nat { Count(s.ids, id => Waits(s, id)) }

  lemma {:induction false} CountPositive(ids: seq<string>, p: string -> bool)
    requires Count(ids, p) > 0
    ensures exists id :: id in ids && p(id)
  {
    if !p(ids[0]) {
      CountPositive(ids[1..], p);
      var id :| id in ids[1..] && p(id);
      assert id in ids;
    } else {
      assert ids[0] in ids;
    }
  }

  /** With the watcher caught up, four requests are under way or no listed ID waits for one; so while
      something is shown as loading, a request is under way that will go on with it. */
  lemma LoadingMeansRequest(s: State)
    requires Reachable(s) && !s.disposed && !s.stale
    ensures s.active == CONCURRENCY || NonePending(s)
    ensures PendingCount(s) > 0 ==> s.active > 0 && exists k: nat :: k < |s.requests| && !s.requests[k].phase.Finished?
  {
    ReachableInv(s);
    if PendingCount(s) > 0 {
      CountPositive(s.ids, id => Waits(s, id));
      var id :| id in s.ids && Waits(s, id);
      if s.active < CONCURRENCY {
        assert s.entries[id] in s.entries.Values;
        var k: nat :| k < |s.requests| && Awaits(s.requests[k], s.entries[id]);
        UnfinishedAt(s.requests, k);
      }
      UnfinishedNone(s.requests);
    }
  }

  lemma {:induction false} UnfinishedNone(requests: seq<Request>)
    ensures Unfinished(requests) > 0 ==> exists k: nat :: k < |requests| && !requests[k].phase.Finished?
  {
    if requests != [] {
      var n := |requests| - 1;
      UnfinishedNone(requests[..n]);
      if k: nat :| k < n && !requests[..n][k].phase.Finished? {
        assert !requests[k].phase.Finished?;
      }
    }
  }

  /** An answer lands on the entry object that asked for it, while that is still the entry of its ID,
      and nowhere else: an ID that was removed, or removed and added again, does not see it. */
  lemma AnswerLandsOnItsEntry(s: State, k: nat, answer: Answer, o: nat)
    requires Reachable(s) && Possible(s, Settles(k, answer)) && o < |s.objects|
    requires Settle(s, k, answer).objects[o] != s.objects[o]
    ensures o == s.requests[k].target && o < |s.owners| && s.owners[o] == s.requests[k].id && s.objects[o].status.Loading?
    ensures !s.disposed && s.requests[k].id in s.entries && s.entries[s.requests[k].id] == o
  {
    ReachableInv(s);
    assert s.requests[k] in s.requests;
  }

  /** The entry object under an ID that is listed. */
  predicate Listed(s: State, id: string, o: nat) { !s.disposed && id in s.entries && s.entries[id] == o && o < |s.objects| }

  /** An answer that is still awaited makes its entry loaded with the document of its ID, a failure makes it
      failed and leaves its document; an answer that is not, changes no entry at all. */
  lemma AnswerExactly(s: State, k: nat, answer: Answer)
    requires Reachable(s) && Possible(s, Settles(k, answer))
    ensures var t, r := Settle(s, k, answer), s.requests[k];
            && t.entries == s.entries && t.ids == s.ids && |t.objects| == |s.objects|
            && (forall o: nat | o < |s.objects| && !Listed(s, r.id, o) :: t.objects[o] == s.objects[o])
            && if !Listed(s, r.id, r.target) then t.objects == s.objects
               else
                 && t.objects[r.target].status == (if answer.Details? then Loaded else Error)
                 && t.objects[r.target].document
                    == (if answer.Details? then Some(Document(r.id, answer.body)) else s.objects[r.target].document)
  {
    ReachableInv(s);
    assert s.requests[k] in s.requests;
  }

  function Shown(s: State, ids: seq<string>): seq<Document> {
    if ids == [] then []
    else (if ids[0] in s.entries && s.entries[ids[0]] < |s.objects| && s.objects[s.entries[ids[0]]].document.Some?
          then [s.objects[s.entries[ids[0]]].document.value] else []) + Shown(s, ids[1..])
  }

  /** The documents shown are documents of listed IDs, each under its own ID, in the order of the list. */
  lemma {:induction false} ShownInOrder(s: State, ids: seq<string>)
    requires Reachable(s)
    ensures Embedded(Shown(s, ids), ids)
  {
    ReachableInv(s);
    if ids != [] {
      ShownInOrder(s, ids[1..]);
      assert Shown(s, ids) == Shown(s, ids[1..]) || Shown(s, ids)[1..] == Shown(s, ids[1..]);
    }
  }

  predicate HasDocument(s: State, id: string) {
    id in s.entries && s.entries[id] < |s.objects| && s.objects[s.entries[id]].document.Some?
  }

  /** No document is left out: one is shown for each listed ID that has one. */
  lemma {:induction false} ShownExactly(s: State, ids: seq<string>)
    ensures |Shown(s, ids)| == Count(ids, id => HasDocument(s, id))
    ensures forall id <- ids | HasDocument(s, id) :: s.objects[s.entries[id]].document.value in Shown(s, ids)
  {
    if ids != [] {
      ShownExactly(s, ids[1..]);
      assert Shown(s, ids) == Shown(s, ids[..1]) + Shown(s, ids[1..]) by {
        assert ids[..1][1..] == [] && Shown(s, []) == [];
      }
      assert forall id <- ids :: id == ids[0] || id in ids[1..];
    }
  }

  /** Something is shown as loading exactly while a listed ID waits for an answer or its turn. */
  lemma PendingExactly(s: State)
    ensures PendingCount(s) > 0 <==> exists id :: id in s.ids && Waits(s, id)
  {
    AnyCount(s.ids, id => Waits(s, id));
  }

  lemma {:induction false} AnyCount(ids: seq<string>, p: string -> bool)
    ensures Count(ids, p) == 0 <==> forall id <- ids :: !p(id)
  {
    if ids != [] {
      AnyCount(ids[1..], p);
      assert ids[0] in ids && forall id <- ids :: id == ids[0] || id in ids[1..];
    }
  }

  /** The IDs of the documents are the list with some IDs left out. */
  predicate Embedded(documents: seq<Document>, ids: seq<string>) {
    if documents == [] then true
    else ids != [] &&
         ((documents[0].id == ids[0] && Embedded(documents[1..], ids[1..])) || Embedded(documents, ids[1..]))
  }

  // ---------------------------------------------------------------- exactly when the cache is bypassed

  /** One of the first n requests was for this entry object. */
  ghost predicate AskedFor(requests: seq<Request>, o: nat, n: nat) {
    exists j: nat :: j < n && j < |requests| && requests[j].target == o
  }

  /** A pending entry will bypass the cache if it was asked for before, and any other was asked for. */
  ghost predicate CacheRule(s: State) {
    && (forall k: nat | k < |s.requests| ::
          s.requests[k].target < |s.objects| && (s.requests[k].skipCache <==> AskedFor(s.requests, s.requests[k].target, k)))
    && forall o: nat | o < |s.objects| ::
         if s.objects[o].status.Pending? then s.objects[o].skipCache <==> AskedFor(s.requests, o, |s.requests|)
         else AskedFor(s.requests, o, |s.requests|)
  }

  lemma AskedPush(requests: seq<Request>, r: Request, o: nat, n: nat)
    ensures n <= |requests| ==> (AskedFor(requests + [r], o, n) <==> AskedFor(requests, o, n))
    ensures AskedFor(requests + [r], o, |requests| + 1) <==> AskedFor(requests, o, |requests|) || r.target == o
  {
    var longer := requests + [r];
    assert longer[|requests|] == r;
    if j: nat :| j < n && j < |requests| && requests[j].target == o {
      assert longer[j].target == o;
    }
    if j: nat :| j < |requests| && requests[j].target == o {
      assert longer[j].target == o;
    }
  }

  lemma SendCache(s: State, id: string)
    requires CacheRule(s) && IsPending(s, id)
    ensures CacheRule(Send(s, id))
  {
    var o := s.entries[id];
    var r, t := Request(id, o, s.objects[o].skipCache, Waiting), Send(s, id);
    forall k: nat | k < |t.requests|
      ensures t.requests[k].target < |t.objects| && (t.requests[k].skipCache <==> AskedFor(t.requests, t.requests[k].target, k))
    {
      AskedPush(s.requests, r, t.requests[k].target, k);
    }
    forall p: nat | p < |t.objects| {
      AskedPush(s.requests, r, p, 0);
    }
  }

  lemma {:induction false} PumpCache(s: State, k: nat)
    requires CacheRule(s)
    ensures CacheRule(PumpFrom(s, k))
    decreases |s.ids| - k
  {
    if k < |s.ids| && s.active < CONCURRENCY {
      if IsPending(s, s.ids[k]) {
        SendCache(s, s.ids[k]);
        PumpCache(Send(s, s.ids[k]), k + 1);
      } else {
        PumpCache(s, k + 1);
      }
    }
  }

  lemma {:induction false} AddCache(s: State, k: nat)
    requires CacheRule(s)
    ensures CacheRule(AddFrom(s, k))
    decreases |s.ids| - k
  {
    if k < |s.ids| {
      AddCache(Add(s, s.ids[k]), k + 1);
    }
  }

  /** Only phases and entries change. */
  lemma SameAsked(requests: seq<Request>, others: seq<Request>)
    requires |requests| == |others|
    requires forall k: nat | k < |requests| :: requests[k].target == others[k].target
    ensures forall o: nat, n: nat :: AskedFor(requests, o, n) <==> AskedFor(others, o, n)
  {
    forall o: nat, n: nat ensures AskedFor(requests, o, n) <==> AskedFor(others, o, n) {
      if j: nat :| j < n && j < |requests| && requests[j].target == o {
        assert others[j].target == o;
      }
      if j: nat :| j < n && j < |others| && others[j].target == o {
        assert requests[j].target == o;
      }
    }
  }

  lemma PhaseCache(s: State, t: State, k: nat, phase: Phase)
    requires CacheRule(s) && k < |s.requests| && t.requests == s.requests[k := s.requests[k].(phase := phase)]
    requires |t.objects| == |s.objects|
    requires forall o: nat | o < |s.objects| ::
      t.objects[o] == s.objects[o] || (o == s.requests[k].target && !t.objects[o].status.Pending?)
    ensures CacheRule(t)
  {
    SameAsked(s.requests, t.requests);
    assert AskedFor(s.requests, s.requests[k].target, |s.requests|);
  }

  lemma CacheNext(s: State, e: Event)
    requires CacheRule(s) && Possible(s, e)
    ensures CacheRule(Next(s, e))
  {
    match e
    case WatcherRuns =>
      AddCache(Retain(s), 0);
      PumpCache(AddFrom(Retain(s), 0).(stale := false), 0);
    case Settles(k, answer) => PhaseCache(s, Settle(s, k, answer), k, Landed);
    case Finishes(k) =>
      var t := s.(requests := s.requests[k := s.requests[k].(phase := Finished)], active := s.active - 1);
      PhaseCache(s, t, k, Finished);
      PumpCache(t, 0);
    case Retries =>
      var t := s.(objects := seq(|s.objects|, o requires 0 <= o < |s.objects| => Retried(s, o)));
      RetriedCache(s, t);
      PumpCache(t, 0);
    case _ =>
  }

  lemma RetriedCache(s: State, t: State)
    requires CacheRule(s) && t.requests == s.requests && |t.objects| == |s.objects|
    requires forall o: nat | o < |s.objects| :: t.objects[o] == Retried(s, o)
    ensures CacheRule(t)
  {}

  lemma {:induction false} RunCache(ids: seq<string>, events: seq<Event>)
    requires Run(ids, events).Some?
    ensures CacheRule(Run(ids, events).value)
  {
    if events == [] {
      var s := State(ids, map[], [], [], [], 0, false, true);
      AddCache(Retain(s), 0);
      PumpCache(AddFrom(Retain(s), 0).(stale := false), 0);
    } else {
      RunCache(ids, events[..|events| - 1]);
      CacheNext(Run(ids, events[..|events| - 1]).value, events[|events| - 1]);
    }
  }

  /** A request bypasses the cache exactly if its entry was asked for before: retries do, first requests do
      not, not even for an ID that was removed and listed again. */
  lemma CacheExactly(s: State, k: nat)
    requires Reachable(s) && k < |s.requests|
    ensures s.requests[k].skipCache <==> exists j: nat :: j < k && s.requests[j].target == s.requests[k].target
  {
    var ids, events :| Run(ids, events) == Some(s);
    RunCache(ids, events);
    assert AskedFor(s.requests, s.requests[k].target, k)
           <==> exists j: nat :: j < k && s.requests[j].target == s.requests[k].target;
  }

  // ---------------------------------------------------------------- entries and retries

  lemma {:induction false} PumpKeeps(s: State, k: nat)
    ensures var t := PumpFrom(s, k); t.entries == s.entries && t.ids == s.ids && t.disposed == s.disposed && t.stale == s.stale
    ensures |PumpFrom(s, k).objects| == |s.objects|
    ensures forall o: nat | o < |s.objects| ::
              PumpFrom(s, k).objects[o] == s.objects[o] || PumpFrom(s, k).objects[o].status.Loading?
    decreases |s.ids| - k
  {
    if k < |s.ids| && s.active < CONCURRENCY {
      if IsPending(s, s.ids[k]) {
        PumpKeeps(Send(s, s.ids[k]), k + 1);
      } else {
        PumpKeeps(s, k + 1);
      }
    }
  }

  lemma {:induction false} AddKeys(s: State, k: nat)
    requires k <= |s.ids|
    ensures var t := AddFrom(s, k); t.ids == s.ids && t.disposed == s.disposed
    ensures forall id :: id in AddFrom(s, k).entries <==> id in s.entries || id in s.ids[k..]
    decreases |s.ids| - k
  {
    if k < |s.ids| {
      AddKeys(Add(s, s.ids[k]), k + 1);
      assert s.ids[k..] == [s.ids[k]] + s.ids[k + 1..];
    }
  }

  ghost predicate Keyed(s: State) {
    if s.disposed then s.entries == map[] else !s.stale ==> forall id :: id in s.entries <==> id in s.ids
  }

  lemma WatchKeys(s: State)
    requires !s.disposed
    ensures Keyed(Watch(s)) && !Watch(s).stale && !Watch(s).disposed && Watch(s).ids == s.ids
  {
    AddKeys(Retain(s), 0);
    PumpKeeps(AddFrom(Retain(s), 0).(stale := false), 0);
    assert s.ids[0..] == s.ids;
  }

  lemma KeysNext(s: State, e: Event)
    requires Keyed(s) && Possible(s, e)
    ensures Keyed(Next(s, e))
  {
    match e
    case WatcherRuns => WatchKeys(s);
    case Finishes(k) =>
      PumpKeeps(s.(requests := s.requests[k := s.requests[k].(phase := Finished)], active := s.active - 1), 0);
    case Retries => PumpKeeps(s.(objects := seq(|s.objects|, o requires 0 <= o < |s.objects| => Retried(s, o))), 0);
    case _ =>
  }

  lemma {:induction false} RunKeys(ids: seq<string>, events: seq<Event>)
    requires Run(ids, events).Some?
    ensures Keyed(Run(ids, events).value)
  {
    if events == [] {
      WatchKeys(State(ids, map[], [], [], [], 0, false, true));
    } else {
      RunKeys(ids, events[..|events| - 1]);
      KeysNext(Run(ids, events[..|events| - 1]).value, events[|events| - 1]);
    }
  }

  /** The list as it was set last. */
  function LatestIds(ids: seq<string>, events: seq<Event>): seq<string> {
    if events == [] then ids
    else
      var e := events[|events| - 1];
      if e.IdsChange? then e.ids else LatestIds(ids, events[..|events| - 1])
  }

  lemma {:induction false} IdsAreLatest(ids: seq<string>, events: seq<Event>)
    requires Run(ids, events).Some?
    ensures Run(ids, events).value.ids == LatestIds(ids, events)
    ensures Run(ids, events).value.disposed <==> Disposes in events
  {
    if events == [] {
      AddKeys(Retain(State(ids, map[], [], [], [], 0, false, true)), 0);
      WatchKeys(State(ids, map[], [], [], [], 0, false, true));
    } else {
      var front, e := events[..|events| - 1], events[|events| - 1];
      IdsAreLatest(ids, front);
      IdsNext(Run(ids, front).value, e);
      assert events == front + [e];
    }
  }

  lemma IdsNext(s: State, e: Event)
    requires Possible(s, e)
    ensures Next(s, e).ids == (if e.IdsChange? then e.ids else s.ids) && Next(s, e).disposed == (s.disposed || e.Disposes?)
  {
    match e
    case WatcherRuns => WatchKeys(s);
    case Finishes(k) =>
      PumpKeeps(s.(requests := s.requests[k := s.requests[k].(phase := Finished)], active := s.active - 1), 0);
    case Retries => PumpKeeps(s.(objects := seq(|s.objects|, o requires 0 <= o < |s.objects| => Retried(s, o))), 0);
    case _ =>
  }

  /** Once the watcher has run exactly the IDs of the list that was set last have an entry, and after disposal
      none has. */
  lemma EntriesExactly(ids: seq<string>, events: seq<Event>)
    requires Run(ids, events).Some? && (Disposes in events || !Run(ids, events).value.stale)
    ensures forall id :: id in Run(ids, events).value.entries <==> Disposes !in events && id in LatestIds(ids, events)
  {
    RunKeys(ids, events);
    IdsAreLatest(ids, events);
  }

  /** A retry leaves no entry failed, takes up the failed ones it has room for, and touches no other entry
      that is not waiting for its turn. */
  lemma RetryExactly(s: State)
    requires Reachable(s)
    ensures var t := Next(s, Retries);
            && t.entries == s.entries && |t.objects| == |s.objects|
            && (forall id <- s.entries :: s.entries[id] < |s.objects| && !t.objects[s.entries[id]].status.Error?)
            && (forall id <- s.entries :: !s.objects[s.entries[id]].status.Error? && !s.objects[s.entries[id]].status.Pending?
                  ==> t.objects[s.entries[id]] == s.objects[s.entries[id]])
            && (!s.disposed && !s.stale ==> t.active == CONCURRENCY || NonePending(t))
  {
    ReachableInv(s);
    NextInv(s, Retries);
    var retried := s.(objects := seq(|s.objects|, o requires 0 <= o < |s.objects| => Retried(s, o)));
    PumpKeeps(retried, 0);
    PumpTakesPending(retried, 0);
    forall id <- s.entries ensures s.entries[id] in s.entries.Values {}
  }

  /** The pump changes pending entries only. */
  lemma {:induction false} PumpTakesPending(s: State, k: nat)
    ensures |PumpFrom(s, k).objects| == |s.objects|
    ensures forall o: nat | o < |s.objects| && !s.objects[o].status.Pending? :: PumpFrom(s, k).objects[o] == s.objects[o]
    decreases |s.ids| - k
  {
    if k < |s.ids| && s.active < CONCURRENCY {
      if IsPending(s, s.ids[k]) {
        PumpTakesPending(Send(s, s.ids[k]), k + 1);
      } else {
        PumpTakesPending(s, k + 1);
      }
    }
  }
}
