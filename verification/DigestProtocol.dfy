/** Local processing, uploads and reindexing as clients of the digest index, interleaved request by
    request, with crashes and lost messages anywhere. */
module DigestProtocol {
  import opened Common
  import opened DigestIndex

  datatype Kind = Local(stores: bool) | Upload | Reindex

  datatype Outcome = Indexed | Duplicate(existing: string) | Failed | Crashed

  /** Where an attempt stands: about to create the entry, to read who owns it, to store, to index,
      to read the entry for its release, to delete it at a version, or ended. */
  datatype Stage =
    | Reserving | Looking | Storing | Indexing | Rereading | Deleting(version: nat) | Ended(outcome: Outcome)

  datatype Attempt = Attempt(kind: Kind, page: string, digest: string, stage: Stage)

  /** History: how the latest ended attempt of a page for a digest ended, and the pages that were ever
      indexed with a digest. */
  datatype World = World(index: Index, attempts: seq<Attempt>, last: map<(string, string), Outcome>,
                         indexed: set<(string, string)>)

  const START := World(Index(map[], 0), [], map[], {})

  function PageID(scanID: string, sequence: string): string { scanID + "_" + sequence }

  function Sum(hex: string): string { "sha256:" + hex }

  /** What happens to the work between requests: it succeeds, it fails, or (upload only) the file
      cannot be read again after storing it, which ends the attempt without a release. */
  datatype Work = Good | Bad | Unseekable

  datatype Event =
    | Begin(kind: Kind, scanID: string, sequence: string, hex: string)
    | Act(attempt: nat, answer: Answer, work: Work)
    | Crash(attempt: nat)

  function NextStage(ix: Index, a: Attempt, answer: Answer, work: Work): Stage {
    match a.stage
    case Reserving =>
      (match CreateAnswer(ix, a.digest, answer)
       case Created => if a.kind == Upload || a.kind == Local(true) then Storing else Indexing
       case Conflict => Looking
       case CreateError => Ended(Failed))
    case Looking =>
      (match Get(ix, a.digest, answer)
       case GetError => Ended(Failed)
       case Missing => if a.kind == Reindex && a.page == "" then Indexing else Ended(Duplicate(""))
       case Found(e) => if a.kind == Reindex && e.owner == a.page then Indexing else Ended(Duplicate(e.owner)))
    case Storing =>
      if work.Good? then Indexing else if work.Unseekable? && a.kind.Upload? then Ended(Failed) else Rereading
    case Indexing => if work.Good? then Ended(Indexed) else Rereading
    case Rereading =>
      (match Get(ix, a.digest, answer)
       case Found(e) => if e.owner == a.page then Deleting(e.version) else Ended(Failed)
       case _ => Ended(Failed))
    case Deleting(_) => Ended(Failed)
    case Ended(outcome) => Ended(outcome)
  }

  function NextIndex(ix: Index, a: Attempt, answer: Answer): Index {
    match a.stage
    case Reserving => Create(ix, a.digest, a.page, answer)
    case Deleting(version) => DeleteIf(ix, a.digest, version, answer)
    case _ => ix
  }

  predicate Running(w: World, i: nat) { i < |w.attempts| && !w.attempts[i].stage.Ended? }

  function MoveTo(w: World, i: nat, stage: Stage): World
    requires i < |w.attempts|
  {
    var a := w.attempts[i];
    w.(attempts := w.attempts[i := a.(stage := stage)],
       last := if stage.Ended? then w.last[(a.page, a.digest) := stage.outcome] else w.last,
       indexed := if stage == Ended(Indexed) then w.indexed + {(a.page, a.digest)} else w.indexed)
  }

  predicate Possible(w: World, e: Event) {
    match e
    case Begin(_, _, _, _) => true
    case Act(i, _, _) => Running(w, i)
    case Crash(i) => Running(w, i)
  }

  function Next(w: World, e: Event): World
    requires Possible(w, e)
  {
    match e
    case Begin(kind, scanID, sequence, hex) =>
      w.(attempts := w.attempts + [Attempt(kind, PageID(scanID, sequence), Sum(hex), Reserving)])
    case Act(i, answer, work) =>
      MoveTo(w.(index := NextIndex(w.index, w.attempts[i], answer)), i, NextStage(w.index, w.attempts[i], answer, work))
    case Crash(i) => MoveTo(w, i, Ended(Crashed))
  }

  /** The faults that keep a call from giving up what it holds, by the moment they strike: the reply to
      a create that took effect is lost, the read before the release gets no answer, the delete is lost,
      the process ends while it holds the entry, or a stored file cannot be read again. Every other
      lost message and every other crash is free to happen. */
  datatype Fault = CreateReplyLost | RereadLost | DeleteLost | CrashHolding | FileLost

  /** The attempt works under its reservation, or is about to give it up. */
  predicate Holding(stage: Stage) { stage.Storing? || stage.Indexing? || stage.Rereading? || stage.Deleting? }

  predicate Strikes(fault: Fault, w: World, e: Event)
    requires Possible(w, e)
  {
    match fault
    case CreateReplyLost =>
      e.Act? && w.attempts[e.attempt].stage.Reserving? && e.answer.LostReply?
      && w.attempts[e.attempt].digest !in w.index.entries
    case RereadLost => e.Act? && w.attempts[e.attempt].stage.Rereading? && !e.answer.Delivered?
    case DeleteLost => e.Act? && w.attempts[e.attempt].stage.Deleting? && e.answer.LostRequest?
    case CrashHolding => e.Crash? && Holding(w.attempts[e.attempt].stage)
    case FileLost =>
      e.Act? && w.attempts[e.attempt].stage.Storing? && w.attempts[e.attempt].kind.Upload? && e.work.Unseekable?
  }

  /** Which kinds of call for one page and digest may be in progress together, and what may go wrong. */
  datatype Setting = Setting(overlap: set<(Kind, Kind)>, faults: set<Fault>)

  predicate MayOverlap(c: Setting, k: Kind, l: Kind) { (k, l) in c.overlap || (l, k) in c.overlap }

  predicate Same(a: Attempt, page: string, digest: string) { a.page == page && a.digest == digest }

  ghost predicate Permitted(c: Setting, w: World, e: Event)
    requires Possible(w, e)
  {
    && (e.Begin? ==> forall i: nat | Running(w, i) && Same(w.attempts[i], PageID(e.scanID, e.sequence), Sum(e.hex)) ::
          MayOverlap(c, e.kind, w.attempts[i].kind))
    && forall fault | Strikes(fault, w, e) :: fault in c.faults
  }

  ghost function Run(c: Setting, events: seq<Event>): Option<World> {
    if events == [] then Some(START)
    else match Run(c, events[..|events| - 1])
      case None => None
      case Some(w) =>
        var e := events[|events| - 1];
        if Possible(w, e) && Permitted(c, w, e) then Some(Next(w, e)) else None
  }

  ghost predicate Reachable(c: Setting, w: World) {
    exists events :: Run(c, events) == Some(w)
  }

  // ---------------------------------------------------------------- compare and delete

  predicate Owns(ix: Index, page: string, digest: string) { OwnedBy(ix, digest, page) }

  /** Versions are below the counter, and the version an attempt is about to delete can only be that
      of an entry of its own page. */
  ghost predicate Versions(w: World) {
    && (forall d <- w.index.entries :: w.index.entries[d].version < w.index.next)
    && (forall i: nat | i < |w.attempts| :: VersionOK(w.index, w.attempts[i]))
  }

  predicate VersionOK(ix: Index, a: Attempt) {
    a.stage.Deleting? ==>
      a.stage.version < ix.next
      && (a.digest in ix.entries && ix.entries[a.digest].version == a.stage.version ==> Owns(ix, a.page, a.digest))
  }

  predicate NamesOK(a: Attempt) { a.page != "" && a.digest != "" }

  ghost predicate Names(w: World) {
    forall i: nat | i < |w.attempts| :: NamesOK(w.attempts[i])
  }

  lemma VersionsNext(w: World, e: Event)
    requires Versions(w) && Names(w) && Possible(w, e)
    ensures Versions(Next(w, e)) && Names(Next(w, e))
  {}

  lemma {:induction false} ReachableVersions(c: Setting, events: seq<Event>)
    requires Run(c, events).Some?
    ensures Versions(Run(c, events).value) && Names(Run(c, events).value)
  {
    if events != [] {
      ReachableVersions(c, events[..|events| - 1]);
      VersionsNext(Run(c, events[..|events| - 1]).value, events[|events| - 1]);
    }
  }

  /** Whatever interleaves, an entry disappears only through a release by the page that owns that very
      entry, it never changes hands in place, and it appears only for the page that creates it. */
  lemma CompareAndDelete(c: Setting, w: World, e: Event, digest: string)
    requires Reachable(c, w) && Possible(w, e)
    requires digest in w.index.entries
    ensures var q := Next(w, e);
            if digest in q.index.entries then q.index.entries[digest] == w.index.entries[digest]
            else e.Act? && w.attempts[e.attempt].stage.Deleting? && w.attempts[e.attempt].digest == digest
                 && w.attempts[e.attempt].page == w.index.entries[digest].owner
                 && w.attempts[e.attempt].stage.version == w.index.entries[digest].version
  {
    var events :| Run(c, events) == Some(w);
    ReachableVersions(c, events);
    if e.Act? {
      assert VersionOK(w.index, w.attempts[e.attempt]);
    }
  }

  // ---------------------------------------------------------------- ownership

  predicate Held(ix: Index, a: Attempt) {
    && (Holding(a.stage) ==> Owns(ix, a.page, a.digest))
    && (a.stage.Deleting? ==> a.digest in ix.entries && ix.entries[a.digest].version == a.stage.version)
  }

  ghost predicate Reservations(w: World) {
    && (forall i: nat | i < |w.attempts| :: Held(w.index, w.attempts[i]))
    && (forall key <- w.last :: w.last[key] == Indexed ==> Owns(w.index, key.0, key.1))
  }

  predicate Alike(a: Attempt, b: Attempt) { a.page == b.page && a.digest == b.digest }

  /** No reindex runs beside another call for its page and digest, and no entry has two holders. */
  ghost predicate Apart(w: World) {
    forall i: nat, j: nat | i < |w.attempts| && j < |w.attempts| && i != j && Alike(w.attempts[i], w.attempts[j]) ::
      && (Running(w, i) && Running(w, j) ==> !w.attempts[i].kind.Reindex? && !w.attempts[j].kind.Reindex?)
      && !(Holding(w.attempts[i].stage) && Holding(w.attempts[j].stage))
  }

  /** A reindex may not run beside any call for the same page and digest. */
  ghost predicate ReindexAlone(c: Setting) {
    forall k: Kind :: !MayOverlap(c, Reindex, k)
  }

  lemma ApartNext(c: Setting, w: World, e: Event)
    requires Apart(w) && Reservations(w) && Possible(w, e) && Permitted(c, w, e) && ReindexAlone(c)
    ensures Apart(Next(w, e))
  {
    match e
    case Begin(kind, scanID, sequence, hex) =>
      forall i: nat | Running(w, i) && Same(w.attempts[i], PageID(scanID, sequence), Sum(hex))
        ensures !kind.Reindex? && !w.attempts[i].kind.Reindex?
      {
        assert MayOverlap(c, kind, w.attempts[i].kind);
        assert !MayOverlap(c, Reindex, kind) && !MayOverlap(c, Reindex, w.attempts[i].kind);
      }
    case Crash(_) =>
    case Act(i, answer, work) => ActApart(w, i, answer, work);
  }

  lemma ActApart(w: World, i: nat, answer: Answer, work: Work)
    requires Apart(w) && Reservations(w) && Running(w, i)
    ensures Apart(Next(w, Act(i, answer, work)))
  {
    var q := Next(w, Act(i, answer, work));
    forall j: nat | j < |w.attempts| && j != i && Alike(w.attempts[i], w.attempts[j]) && Holding(q.attempts[i].stage)
      ensures !Holding(w.attempts[j].stage)
    {
      assert Held(w.index, w.attempts[j]) && Alike(w.attempts[j], w.attempts[i]);
      TakesHold(w.index, w.attempts[i], answer, work);
    }
  }

  /** An attempt comes to hold an entry by creating it, or as a reindex under the entry of its page. */
  lemma TakesHold(ix: Index, a: Attempt, answer: Answer, work: Work)
    requires !a.stage.Ended? && Holding(NextStage(ix, a, answer, work))
    ensures Holding(a.stage) || a.digest !in ix.entries || a.kind.Reindex?
  {}

  lemma ReservationsNext(w: World, e: Event)
    requires Reservations(w) && Apart(w) && Versions(w) && Names(w) && Possible(w, e)
    ensures Reservations(Next(w, e))
  {
    match e
    case Begin(_, _, _, _) =>
    case Crash(_) =>
    case Act(i, answer, work) => ActReservations(w, i, answer, work);
  }

  lemma ActReservations(w: World, i: nat, answer: Answer, work: Work)
    requires Reservations(w) && Apart(w) && Versions(w) && Names(w) && Running(w, i)
    ensures Reservations(Next(w, Act(i, answer, work)))
  {
    var q := Next(w, Act(i, answer, work));
    var a := w.attempts[i];
    assert Held(w.index, a) && NamesOK(a) && VersionOK(w.index, a);
    OwnStage(w.index, a, answer, work);
    forall j: nat | j < |q.attempts| && j != i ensures Held(q.index, q.attempts[j]) {
      assert Held(w.index, w.attempts[j]);
      if Holding(w.attempts[j].stage) {
        OtherEntry(w, i, j, answer);
      }
    }
    forall key <- q.last | q.last[key] == Indexed ensures Owns(q.index, key.0, key.1) {
      if key != (a.page, a.digest) {
        assert Owns(w.index, key.0, key.1);
        assert a.stage.Deleting? ==> Owns(w.index, a.page, a.digest);
      } else {
        LastStays(w, i, answer, work);
      }
    }
  }

  /** A page that is last indexed and whose call goes on is not losing its entry. */
  lemma LastStays(w: World, i: nat, answer: Answer, work: Work)
    requires Reservations(w) && Running(w, i)
    ensures var q := Next(w, Act(i, answer, work)); var a := w.attempts[i];
            !q.attempts[i].stage.Ended? && (a.page, a.digest) in w.last && w.last[(a.page, a.digest)] == Indexed ==>
              Owns(q.index, a.page, a.digest)
  {
    assert Held(w.index, w.attempts[i]);
  }

  /** The acting attempt still owns what it goes on holding; ending as "indexed" it owns its entry. */
  lemma OwnStage(ix: Index, a: Attempt, answer: Answer, work: Work)
    requires Held(ix, a) && NamesOK(a) && !a.stage.Ended?
    ensures var stage, ix' := NextStage(ix, a, answer, work), NextIndex(ix, a, answer);
            Held(ix', a.(stage := stage)) && (stage == Ended(Indexed) ==> Owns(ix', a.page, a.digest))
  {}

  /** What another attempt holds is not touched. */
  lemma OtherEntry(w: World, i: nat, j: nat, answer: Answer)
    requires Reservations(w) && Apart(w) && Running(w, i) && j < |w.attempts| && j != i && Holding(w.attempts[j].stage)
    ensures var d := w.attempts[j].digest; var ix := NextIndex(w.index, w.attempts[i], answer);
            d in w.index.entries && d in ix.entries && ix.entries[d] == w.index.entries[d]
  {
    assert Held(w.index, w.attempts[j]) && Held(w.index, w.attempts[i]);
    assert Alike(w.attempts[i], w.attempts[j]) ==> !Holding(w.attempts[i].stage);
  }

  lemma {:induction false} ReachableReservations(c: Setting, events: seq<Event>)
    requires Run(c, events).Some? && ReindexAlone(c)
    ensures Reservations(Run(c, events).value) && Apart(Run(c, events).value)
  {
    if events != [] {
      var front, e := events[..|events| - 1], events[|events| - 1];
      ReachableReservations(c, front);
      ReachableVersions(c, front);
      ReservationsNext(Run(c, front).value, e);
      ApartNext(c, Run(c, front).value, e);
    }
  }

  /** Every attempt that stores, indexes or is releasing owns its digest, and so does every page whose
      latest attempt for that digest ended "indexed". */
  ghost predicate Owned(w: World) {
    && (forall i: nat | i < |w.attempts| && Holding(w.attempts[i].stage) :: Owns(w.index, w.attempts[i].page, w.attempts[i].digest))
    && (forall key <- w.last :: w.last[key] == Indexed ==> Owns(w.index, key.0, key.1))
  }

  /** So no digest is worked on, or indexed, for two pages. */
  lemma OnePagePerDigest(c: Setting, w: World, digest: string, p: string, q: string)
    requires Reachable(c, w) && ReindexAlone(c)
    requires (p, digest) in w.last && w.last[(p, digest)] == Indexed
    requires || ((q, digest) in w.last && w.last[(q, digest)] == Indexed)
             || (exists i: nat :: i < |w.attempts| && Holding(w.attempts[i].stage) && Same(w.attempts[i], q, digest))
    ensures p == q
  {
    var events :| Run(c, events) == Some(w);
    ReachableReservations(c, events);
    if i: nat :| i < |w.attempts| && Holding(w.attempts[i].stage) && Same(w.attempts[i], q, digest) {
      assert Held(w.index, w.attempts[i]);
    }
  }

  /** A failed attempt whose two release requests are answered finds its own entry, whatever happened
      since it failed, and removes it: the digest is free for a retry. */
  lemma FailureFreesDigest(c: Setting, w: World, i: nat, work: Work)
    requires Reachable(c, w) && ReindexAlone(c) && i < |w.attempts|
    ensures var a, q := w.attempts[i], w.attempts[i].digest;
            && (a.stage.Rereading? ==>
                  && q in w.index.entries
                  && Next(w, Act(i, Delivered, work)).attempts[i].stage == Deleting(w.index.entries[q].version))
            && (a.stage.Deleting? ==> q in w.index.entries && q !in Next(w, Act(i, Delivered, work)).index.entries)
  {
    var events :| Run(c, events) == Some(w);
    ReachableReservations(c, events);
    assert Held(w.index, w.attempts[i]);
  }

  // ---------------------------------------------------------------- exactly when ownership holds

  /** Worlds that the setting cannot leave. */
  ghost predicate Closed(c: Setting, worlds: iset<World>) {
    forall w, e | w in worlds && Possible(w, e) && Permitted(c, w, e) :: Next(w, e) in worlds
  }

  ghost function Reach(c: Setting): (worlds: iset<World>)
    ensures forall w :: w in worlds <==> Reachable(c, w)
  {
    iset w | Reachable(c, w)
  }

  lemma ReachIsClosed(c: Setting)
    ensures Closed(c, Reach(c)) && START in Reach(c)
  {
    assert Run(c, []) == Some(START);
    forall w, e | Reachable(c, w) && Possible(w, e) && Permitted(c, w, e) ensures Reachable(c, Next(w, e)) {
      var events :| Run(c, events) == Some(w);
      assert (events + [e])[..|events|] == events;
      assert Run(c, events + [e]) == Some(Next(w, e));
    }
  }

  lemma Send(c: Setting, worlds: iset<World>, w: World, e: Event) returns (q: World)
    requires Closed(c, worlds) && w in worlds && Possible(w, e) && Permitted(c, w, e)
    ensures q == Next(w, e) && q in worlds
  {
    q := Next(w, e);
  }

  const PAGE := PageID("s", "1")
  const DIGEST := Sum("aa")

  function Fresh(kind: Kind): Attempt { Attempt(kind, PAGE, DIGEST, Reserving) }

  /** A call of any kind has created its entry. */
  lemma CreatePlay(c: Setting, worlds: iset<World>, kind: Kind) returns (w: World)
    requires Closed(c, worlds) && START in worlds
    ensures w in worlds && w.index == Index(map[DIGEST := Entry(PAGE, 0)], 1) && w.indexed == {} && w.last == map[]
    ensures w.attempts == [Fresh(kind).(stage := if kind == Upload || kind == Local(true) then Storing else Indexing)]
  {
    w := Send(c, worlds, START, Begin(kind, "s", "1", "aa"));
    w := Send(c, worlds, w, Act(0, Delivered, Good));
  }

  /** A reindex of the same page proceeds under that entry. */
  lemma SharePlay(c: Setting, worlds: iset<World>, kind: Kind) returns (w: World)
    requires Closed(c, worlds) && START in worlds && MayOverlap(c, Reindex, kind)
    ensures w in worlds && w.index == Index(map[DIGEST := Entry(PAGE, 0)], 1)
    ensures |w.attempts| == 2 && w.attempts[1] == Fresh(Reindex).(stage := Indexing)
    ensures Same(w.attempts[0], PAGE, DIGEST) && Holding(w.attempts[0].stage)
  {
    w := CreatePlay(c, worlds, kind);
    w := Send(c, worlds, w, Begin(Reindex, "s", "1", "aa"));
    w := Send(c, worlds, w, Act(1, Delivered, Good));
    w := Send(c, worlds, w, Act(1, Delivered, Good));
  }

  /** The reindex fails and releases the entry while the other call is still at work. */
  lemma RivalPlay(c: Setting, worlds: iset<World>, kind: Kind) returns (w: World)
    requires Closed(c, worlds) && START in worlds && MayOverlap(c, Reindex, kind)
    ensures w in worlds && !Owned(w)
  {
    w := SharePlay(c, worlds, kind);
    w := Send(c, worlds, w, Act(1, Delivered, Bad));
    w := Send(c, worlds, w, Act(1, Delivered, Good));
    w := Send(c, worlds, w, Act(1, Delivered, Good));
    assert Holding(w.attempts[0].stage) && !Owns(w.index, w.attempts[0].page, w.attempts[0].digest);
  }

  /** A reindex beside any other call for its page and digest can take that call's reservation away. */
  lemma ReindexBreaksOwnership(c: Setting, kind: Kind) returns (w: World)
    requires MayOverlap(c, Reindex, kind)
    ensures Reachable(c, w) && !Owned(w)
  {
    ReachIsClosed(c);
    w := RivalPlay(c, Reach(c), kind);
    assert w in Reach(c);
  }

  /** Ownership holds in every run, with any faults, exactly when no reindex may run beside another call
      for the same page and digest; local calls and uploads may overlap freely. */
  lemma OwnershipExactly(c: Setting)
    ensures (forall w :: Reachable(c, w) ==> Owned(w)) <==> ReindexAlone(c)
  {
    if ReindexAlone(c) {
      forall w | Reachable(c, w) ensures Owned(w) {
        var events :| Run(c, events) == Some(w);
        ReachableReservations(c, events);
        forall i: nat | i < |w.attempts| && Holding(w.attempts[i].stage)
          ensures Owns(w.index, w.attempts[i].page, w.attempts[i].digest)
        {
          assert Held(w.index, w.attempts[i]);
        }
      }
    } else {
      var kind: Kind :| MayOverlap(c, Reindex, kind);
      var w := ReindexBreaksOwnership(c, kind);
    }
  }

  // ---------------------------------------------------------------- orphaned reservations

  /** The attempt holds this very entry and will index its page or release it. */
  predicate Guards(a: Attempt, digest: string, entry: Entry) {
    Holding(a.stage) && Same(a, entry.owner, digest) && (a.stage.Deleting? ==> a.stage.version == entry.version)
  }

  /** Somebody answers for the entry: a call still holds it, or its page was indexed with that content. */
  ghost predicate Backed(w: World, digest: string)
    requires digest in w.index.entries
  {
    var entry := w.index.entries[digest];
    (entry.owner, digest) in w.indexed || exists i: nat :: i < |w.attempts| && Guards(w.attempts[i], digest, entry)
  }

  ghost predicate NoOrphans(w: World) {
    forall d <- w.index.entries :: Backed(w, d)
  }

  predicate Harmless(w: World, e: Event)
    requires Possible(w, e)
  {
    forall fault :: !Strikes(fault, w, e)
  }

  lemma NoOrphansNext(w: World, e: Event)
    requires NoOrphans(w) && Names(w) && Possible(w, e) && Harmless(w, e)
    ensures NoOrphans(Next(w, e))
  {
    var q := Next(w, e);
    forall d <- q.index.entries ensures Backed(q, d) {
      if d !in w.index.entries {
        Created(w, e, d);
      } else if q.index.entries[d] == w.index.entries[d] {
        assert Backed(w, d);
        if i: nat :| i < |w.attempts| && Guards(w.attempts[i], d, w.index.entries[d]) {
          StillBacked(w, e, d, i);
        }
      }
    }
  }

  /** Whoever creates an entry holds it. */
  lemma Created(w: World, e: Event, d: string)
    requires Possible(w, e) && Harmless(w, e) && d !in w.index.entries && d in Next(w, e).index.entries
    ensures Backed(Next(w, e), d)
  {
    assert !Strikes(CreateReplyLost, w, e);
    assert Guards(Next(w, e).attempts[e.attempt], d, Next(w, e).index.entries[d]);
  }

  /** Without a fault a guard goes on, has its page indexed, or deletes the entry. */
  lemma StillBacked(w: World, e: Event, d: string, i: nat)
    requires Possible(w, e) && Harmless(w, e) && Names(w) && d in w.index.entries && d in Next(w, e).index.entries
    requires Next(w, e).index.entries[d] == w.index.entries[d]
    requires i < |w.attempts| && Guards(w.attempts[i], d, w.index.entries[d])
    ensures Backed(Next(w, e), d)
  {
    var q := Next(w, e);
    if !e.Begin? && e.attempt == i {
      assert !Strikes(RereadLost, w, e) && !Strikes(DeleteLost, w, e) && !Strikes(CrashHolding, w, e)
             && !Strikes(FileLost, w, e);
      assert Guards(q.attempts[i], d, q.index.entries[d]) || (w.attempts[i].page, d) in q.indexed;
    } else {
      assert Guards(q.attempts[i], d, q.index.entries[d]);
    }
  }

  lemma {:induction false} FaultlessRunsLeaveNoOrphan(c: Setting, events: seq<Event>)
    requires Run(c, events).Some? && c.faults == {}
    ensures NoOrphans(Run(c, events).value)
  {
    if events != [] {
      var front := events[..|events| - 1];
      FaultlessRunsLeaveNoOrphan(c, front);
      ReachableVersions(c, front);
      NoOrphansNext(Run(c, front).value, events[|events| - 1]);
    }
  }

  ghost predicate Orphaned(w: World) {
    DIGEST in w.index.entries && w.index.entries[DIGEST].owner == PAGE && w.indexed == {}
    && forall i: nat | i < |w.attempts| :: w.attempts[i].stage.Ended?
  }

  lemma OrphanPlay(c: Setting, worlds: iset<World>, fault: Fault) returns (w: World)
    requires Closed(c, worlds) && START in worlds && fault in c.faults
    ensures w in worlds && Orphaned(w)
  {
    if fault.CreateReplyLost? {
      w := Send(c, worlds, START, Begin(Upload, "s", "1", "aa"));
      w := Send(c, worlds, w, Act(0, LostReply, Good));
    } else if fault.FileLost? {
      w := CreatePlay(c, worlds, Upload);
      w := Send(c, worlds, w, Act(0, Delivered, Unseekable));
    } else if fault.CrashHolding? {
      w := CreatePlay(c, worlds, Reindex);
      w := Send(c, worlds, w, Crash(0));
    } else {
      w := ReleasePlay(c, worlds, fault);
    }
  }

  lemma ReleasePlay(c: Setting, worlds: iset<World>, fault: Fault) returns (w: World)
    requires Closed(c, worlds) && START in worlds && fault in c.faults && (fault.RereadLost? || fault.DeleteLost?)
    ensures w in worlds && Orphaned(w)
  {
    w := CreatePlay(c, worlds, Reindex);
    w := Send(c, worlds, w, Act(0, Delivered, Bad));
    if fault.DeleteLost? {
      w := Send(c, worlds, w, Act(0, Delivered, Good));
    }
    w := Send(c, worlds, w, Act(0, LostRequest, Good));
  }

  /** Each of the faults, alone, can leave an entry that nobody answers for; from then on every other
      page with that content is a duplicate of a page that was never indexed. */
  lemma FaultOrphans(c: Setting, fault: Fault) returns (w: World)
    requires fault in c.faults
    ensures Reachable(c, w) && !NoOrphans(w) && forall i: nat :: !Running(w, i)
    ensures forall a: Attempt | Same(a, a.page, DIGEST) && a.stage.Looking? && a.page != PAGE ::
              NextStage(w.index, a, Delivered, Good) == Ended(Duplicate(PAGE))
  {
    ReachIsClosed(c);
    w := OrphanPlay(c, Reach(c), fault);
    assert w in Reach(c);
    assert !Backed(w, DIGEST);
  }

  /** Every entry is answered for in every run, however calls overlap, exactly when none of the five
      faults can strike. */
  lemma OrphansExactly(c: Setting)
    ensures (forall w :: Reachable(c, w) ==> NoOrphans(w)) <==> c.faults == {}
  {
    if c.faults == {} {
      forall w | Reachable(c, w) ensures NoOrphans(w) {
        var events :| Run(c, events) == Some(w);
        FaultlessRunsLeaveNoOrphan(c, events);
      }
    } else {
      var fault :| fault in c.faults;
      var w := FaultOrphans(c, fault);
    }
  }

  // ---------------------------------------------------------------- exactly how a call ends

  /** What one step of a call met: the index at that moment, the answer, and how the work went. */
  datatype Moment = Moment(index: Index, answer: Answer, work: Work)

  /** The steps of the i-th call in a run, in order. */
  ghost function Moments(c: Setting, events: seq<Event>, i: nat): seq<Moment> {
    if events == [] then []
    else
      var front, e := events[..|events| - 1], events[|events| - 1];
      var before := Run(c, front);
      Moments(c, front, i)
      + if Acts(e, i) && before.Some? then [Moment(before.value.index, e.answer, e.work)] else []
  }

  predicate Stores(kind: Kind) { kind == Upload || kind == Local(true) }

  /** The create request is answered and found the digest free. */
  predicate Creates(m: Moment, digest: string) { m.answer.Delivered? && digest !in m.index.entries }

  /** It is answered and found it taken. */
  predicate Clashes(m: Moment, digest: string) { m.answer.Delivered? && digest in m.index.entries }

  /** The read of the owner is answered with the page itself. */
  predicate ReadsOwn(m: Moment, page: string, digest: string) { m.answer.Delivered? && Owns(m.index, page, digest) }

  /** The read is answered with another owner, or with nobody. */
  predicate ReadsOther(m: Moment, page: string, digest: string, existing: string) {
    m.answer.Delivered? && (if digest in m.index.entries then m.index.entries[digest].owner == existing else existing == "")
  }

  /** All that comes before indexing went well. */
  predicate Prepared(a: Attempt, ms: seq<Moment>) {
    if |ms| == 1 then Creates(ms[0], a.digest) && !Stores(a.kind)
    else |ms| == 2 &&
         if Creates(ms[0], a.digest) then Stores(a.kind) && ms[1].work.Good?
         else a.kind.Reindex? && Clashes(ms[0], a.digest) && ReadsOwn(ms[1], a.page, a.digest)
  }

  predicate Succeeds(a: Attempt, ms: seq<Moment>) {
    |ms| > 1 && Prepared(a, ms[..|ms| - 1]) && ms[|ms| - 1].work.Good?
  }

  /** The digest is reserved for another page, or for this one and the call is no reindex. */
  predicate TurnedAway(a: Attempt, ms: seq<Moment>, existing: string) {
    && |ms| == 2 && Clashes(ms[0], a.digest) && ReadsOther(ms[1], a.page, a.digest, existing)
    && !(a.kind.Reindex? && ReadsOwn(ms[1], a.page, a.digest))
  }

  /** Storing or indexing failed after the call came to hold the entry. */
  predicate Spoiled(a: Attempt, ms: seq<Moment>) {
    |ms| > 1 && !ms[|ms| - 1].work.Good?
    && (Prepared(a, ms[..|ms| - 1]) || (|ms| == 2 && Creates(ms[0], a.digest) && Stores(a.kind)))
  }

  ghost predicate Tale(a: Attempt, ms: seq<Moment>) {
    match a.stage
    case Reserving => ms == []
    case Looking => |ms| == 1 && Clashes(ms[0], a.digest)
    case Storing => |ms| == 1 && Creates(ms[0], a.digest) && Stores(a.kind)
    case Indexing => Prepared(a, ms)
    case Rereading => Spoiled(a, ms)
    case Deleting(_) => |ms| > 2 && Spoiled(a, ms[..|ms| - 1])
    case Ended(Indexed) => Succeeds(a, ms)
    case Ended(Duplicate(existing)) => TurnedAway(a, ms, existing)
    case Ended(_) => !Succeeds(a, ms) && forall existing :: !TurnedAway(a, ms, existing)
  }

  lemma TaleNext(a: Attempt, ms: seq<Moment>, m: Moment)
    requires Tale(a, ms) && !a.stage.Ended? && NamesOK(a)
    ensures Tale(a.(stage := NextStage(m.index, a, m.answer, m.work)), ms + [m])
  {
    assert (ms + [m])[..|ms|] == ms;
  }

  lemma TaleCrashes(a: Attempt, ms: seq<Moment>)
    requires Tale(a, ms) && !a.stage.Ended?
    ensures Tale(a.(stage := Ended(Crashed)), ms)
  {}

  /** A call that has not begun has no tale. */
  ghost predicate Told(w: World, i: nat, ms: seq<Moment>) {
    if i < |w.attempts| then Tale(w.attempts[i], ms) else ms == []
  }

  predicate Acts(e: Event, i: nat) { e.Act? && e.attempt == i }

  lemma ToldNext(w: World, e: Event, i: nat, ms: seq<Moment>)
    requires Told(w, i, ms) && Possible(w, e) && Names(w)
    ensures Told(Next(w, e), i, ms + if Acts(e, i) then [Moment(w.index, e.answer, e.work)] else [])
  {
    assert ms + [] == ms;
    if Acts(e, i) {
      TaleNext(w.attempts[i], ms, Moment(w.index, e.answer, e.work));
    } else if e.Crash? && e.attempt == i {
      TaleCrashes(w.attempts[i], ms);
    } else if i < |w.attempts| {
      assert Next(w, e).attempts[i] == w.attempts[i];
    }
  }

  lemma {:induction false} EveryTale(c: Setting, events: seq<Event>, i: nat)
    requires Run(c, events).Some?
    ensures Told(Run(c, events).value, i, Moments(c, events, i))
  {
    if events != [] {
      var front, e := events[..|events| - 1], events[|events| - 1];
      EveryTale(c, front, i);
      ReachableVersions(c, front);
      ToldNext(Run(c, front).value, e, i, Moments(c, front, i));
    }
  }

  /** In every run a call ends as indexed exactly if it created the entry, or as a reindex read its own page
      as the owner, its storing went well if it stores, and then its indexing did; and it ends as a
      duplicate exactly if it found the entry taken and then read an owner that is not its own, or none. */
  lemma OutcomeExactly(c: Setting, events: seq<Event>, i: nat)
    requires Run(c, events).Some? && i < |Run(c, events).value.attempts|
    ensures var a, ms := Run(c, events).value.attempts[i], Moments(c, events, i);
            && (a.stage == Ended(Indexed) <==> Succeeds(a, ms))
            && forall existing :: a.stage == Ended(Duplicate(existing)) <==> TurnedAway(a, ms, existing)
  {
    EveryTale(c, events, i);
  }

  /** A call that nothing goes wrong with. */
  lemma ActPlay(c: Setting, worlds: iset<World>, w: World, i: nat) returns (q: World)
    requires Closed(c, worlds) && w in worlds && Running(w, i)
    ensures q in worlds && q == Next(w, Act(i, Delivered, Good))
  {
    assert forall fault :: !Strikes(fault, w, Act(i, Delivered, Good));
    q := Send(c, worlds, w, Act(i, Delivered, Good));
  }

  /** From wherever the digest is free, a call of any kind that may begin can run through undisturbed, and
      is then indexed with the entry in its page's name. */
  lemma NewIsIndexed(c: Setting, w: World, kind: Kind, scanID: string, sequence: string, hex: string) returns (q: World)
    requires Reachable(c, w) && Sum(hex) !in w.index.entries
    requires Permitted(c, w, Begin(kind, scanID, sequence, hex))
    ensures Reachable(c, q) && |q.attempts| == |w.attempts| + 1
    ensures q.attempts[|w.attempts|] == Attempt(kind, PageID(scanID, sequence), Sum(hex), Ended(Indexed))
    ensures Owns(q.index, PageID(scanID, sequence), Sum(hex))
    ensures forall i: nat | i < |w.attempts| :: q.attempts[i] == w.attempts[i]
    ensures forall d <- w.index.entries :: d in q.index.entries && q.index.entries[d] == w.index.entries[d]
  {
    ReachIsClosed(c);
    var n, worlds := |w.attempts|, Reach(c);
    q := Send(c, worlds, w, Begin(kind, scanID, sequence, hex));
    q := ActPlay(c, worlds, q, n);
    if Stores(kind) {
      q := ActPlay(c, worlds, q, n);
    }
    q := ActPlay(c, worlds, q, n);
    assert q in worlds;
  }

  /** Nor is a reindex stopped by the entry of its own page, which it leaves as it is. */
  lemma OwnIsReindexed(c: Setting, w: World, scanID: string, sequence: string, hex: string) returns (q: World)
    requires Reachable(c, w) && Owns(w.index, PageID(scanID, sequence), Sum(hex))
    requires Permitted(c, w, Begin(Reindex, scanID, sequence, hex))
    ensures Reachable(c, q) && q.index == w.index && |q.attempts| == |w.attempts| + 1
    ensures q.attempts[|w.attempts|] == Attempt(Reindex, PageID(scanID, sequence), Sum(hex), Ended(Indexed))
  {
    ReachIsClosed(c);
    var n, worlds := |w.attempts|, Reach(c);
    q := Send(c, worlds, w, Begin(Reindex, scanID, sequence, hex));
    q := ActPlay(c, worlds, q, n);
    q := ActPlay(c, worlds, q, n);
    q := ActPlay(c, worlds, q, n);
    assert q in worlds;
  }
}
