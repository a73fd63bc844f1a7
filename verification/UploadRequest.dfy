/** The workers of one upload request against the digest index, interleaved request by request, and the
    client that repeats the request when its answer is lost. */
module UploadRequest {
  import opened Common
  import opened DigestIndex
  import P = DigestProtocol
  import U = Uploads

  /** A file of a request: the page it becomes, the hash of its content, and whether it can be read. */
  datatype File = File(page: string, hex: string, readable: bool)

  /** A file that cannot be read has failed; every other one is about to be reserved. */
  function Worker(file: File): P.Attempt {
    P.Attempt(P.Upload, file.page, P.Sum(file.hex), if file.readable then P.Reserving else P.Ended(P.Failed))
  }

  function Begun(ix: Index, files: seq<File>): P.World {
    P.World(ix, seq(|files|, i requires 0 <= i < |files| => Worker(files[i])), map[], {})
  }

  /** Storing and indexing the page send no request to the digest index. */
  predicate AsksIndex(stage: P.Stage) { !stage.Storing? && !stage.Indexing? }

  /** A worker goes on; a step that sends no request is without an answer that could be lost. */
  predicate Allowed(w: P.World, e: P.Event) {
    e.Act? && P.Possible(w, e) && (AsksIndex(w.attempts[e.attempt].stage) || e.answer.Delivered?)
  }

  /** The request of this step, if it sends one, is answered. */
  predicate Answered(e: P.Event) { e.Act? && e.answer.Delivered? }

  function Serve(ix: Index, files: seq<File>, events: seq<P.Event>): Option<P.World> {
    if events == [] then Some(Begun(ix, files))
    else match Serve(ix, files, events[..|events| - 1])
      case None => None
      case Some(w) =>
        var e := events[|events| - 1];
        if Allowed(w, e) then Some(P.Next(w, e)) else None
  }

  predicate Served(w: P.World) { forall i | 0 <= i < |w.attempts| :: w.attempts[i].stage.Ended? }

  function StatusOf(stage: P.Stage): U.Status {
    match stage
    case Ended(Indexed) => U.Indexed
    case Ended(Duplicate(_)) => U.Duplicate
    case _ => U.Broken
  }

  function Results(w: P.World): seq<U.Status> {
    seq(|w.attempts|, i requires 0 <= i < |w.attempts| => StatusOf(w.attempts[i].stage))
  }

  ghost predicate AllReserved(ix: Index, files: seq<File>) {
    forall i | 0 <= i < |files| :: P.Sum(files[i].hex) in ix.entries
  }

  // ---------------------------------------------------------------- exactly when the answer is a conflict

  /** Same workers, at whatever point. */
  ghost predicate Working(w: P.World, files: seq<File>) {
    |w.attempts| == |files|
    && forall i: nat | i < |files| :: w.attempts[i].kind.Upload? && P.Same(w.attempts[i], files[i].page, P.Sum(files[i].hex))
  }

  predicate Idle(stage: P.Stage) {
    stage.Reserving? || stage.Looking? || (stage.Ended? && (stage.outcome.Duplicate? || stage.outcome.Failed?))
  }

  /** The worker holds an entry, or its file is indexed or has failed. */
  predicate Worked(stage: P.Stage) {
    P.Holding(stage) || (stage.Ended? && (stage.outcome.Indexed? || stage.outcome.Failed?))
  }

  lemma {:induction false} StaysWorking(ix: Index, files: seq<File>, events: seq<P.Event>)
    requires Serve(ix, files, events).Some?
    ensures Working(Serve(ix, files, events).value, files)
  {
    if events != [] {
      StaysWorking(ix, files, events[..|events| - 1]);
    }
  }

  /** Content that was reserved before is never worked on, and its entry stays. */
  ghost predicate LeftAlone(w: P.World, ix: Index) {
    && (forall d <- ix.entries :: d in w.index.entries)
    && (forall i: nat | i < |w.attempts| && w.attempts[i].digest in ix.entries :: Idle(w.attempts[i].stage))
  }

  lemma LeftAloneNext(w: P.World, ix: Index, e: P.Event)
    requires LeftAlone(w, ix) && e.Act? && P.Possible(w, e) && w.attempts[e.attempt].kind.Upload?
    ensures LeftAlone(P.Next(w, e), ix)
  {}

  lemma {:induction false} ReservedIsLeftAlone(ix: Index, files: seq<File>, events: seq<P.Event>)
    requires Serve(ix, files, events).Some?
    ensures LeftAlone(Serve(ix, files, events).value, ix)
  {
    if events != [] {
      var front, e := events[..|events| - 1], events[|events| - 1];
      ReservedIsLeftAlone(ix, files, front);
      StaysWorking(ix, files, front);
      LeftAloneNext(Serve(ix, files, front).value, ix, e);
    }
  }

  /** New content is untouched, or some worker has had it. */
  ghost predicate TakenUp(w: P.World, d: string) {
    || (d !in w.index.entries && forall i: nat | i < |w.attempts| && w.attempts[i].digest == d :: w.attempts[i].stage.Reserving?)
    || exists i: nat :: i < |w.attempts| && w.attempts[i].digest == d && Worked(w.attempts[i].stage)
  }

  lemma TakenUpNext(w: P.World, e: P.Event, d: string)
    requires TakenUp(w, d) && e.Act? && P.Possible(w, e) && w.attempts[e.attempt].kind.Upload?
    ensures TakenUp(P.Next(w, e), d)
  {
    var q, k := P.Next(w, e), e.attempt;
    if i: nat :| i < |w.attempts| && w.attempts[i].digest == d && Worked(w.attempts[i].stage) {
      assert Worked(q.attempts[i].stage);
    } else if w.attempts[k].digest == d {
      assert Worked(q.attempts[k].stage);
    }
  }

  lemma {:induction false} NewIsTakenUp(ix: Index, files: seq<File>, events: seq<P.Event>, d: string)
    requires Serve(ix, files, events).Some? && d !in ix.entries
    ensures TakenUp(Serve(ix, files, events).value, d)
  {
    if events != [] {
      var front, e := events[..|events| - 1], events[|events| - 1];
      NewIsTakenUp(ix, files, front, d);
      StaysWorking(ix, files, front);
      TakenUpNext(Serve(ix, files, front).value, e, d);
    }
  }

  ghost predicate SomeWorked(w: P.World) {
    exists i: nat :: i < |w.attempts| && Worked(w.attempts[i].stage)
  }

  /** A request that gets no answer, and a file that cannot be read, make a file fail. */
  lemma {:induction false} TroubleShows(ix: Index, files: seq<File>, events: seq<P.Event>)
    requires Serve(ix, files, events).Some?
    requires (exists e <- events :: !Answered(e)) || (exists f <- files :: !f.readable)
    ensures SomeWorked(Serve(ix, files, events).value)
  {
    if events == [] {
      var k :| 0 <= k < |files| && !files[k].readable;
      assert Worked(Begun(ix, files).attempts[k].stage);
    } else {
      var front, e := events[..|events| - 1], events[|events| - 1];
      var w := Serve(ix, files, front).value;
      StaysWorking(ix, files, front);
      if Answered(e) {
        assert forall x <- events :: x in front || x == e;
        TroubleShows(ix, files, front);
      }
      WorkedNext(w, e);
    }
  }

  lemma WorkedNext(w: P.World, e: P.Event)
    requires e.Act? && P.Possible(w, e) && w.attempts[e.attempt].kind.Upload? && (SomeWorked(w) || !Answered(e))
    ensures SomeWorked(P.Next(w, e))
  {
    var q := P.Next(w, e);
    if i: nat :| i < |w.attempts| && Worked(w.attempts[i].stage) {
      assert Worked(q.attempts[i].stage);
    } else {
      assert Worked(q.attempts[e.attempt].stage);
    }
  }

  ghost predicate AllAnswered(events: seq<P.Event>) { forall e <- events :: Answered(e) }

  ghost predicate AllReadable(files: seq<File>) { forall f <- files :: f.readable }

  /** However the workers interleave, the answer is a conflict exactly if the content of every file was
      reserved before the request, every file could be read and every request to the index was answered. */
  lemma ConflictExactly(ix: Index, files: seq<File>, events: seq<P.Event>)
    requires files != [] && Serve(ix, files, events).Some? && Served(Serve(ix, files, events).value)
    ensures U.AnswerCode(Results(Serve(ix, files, events).value)) == U.CONFLICT
       <==> AllReserved(ix, files) && AllReadable(files) && AllAnswered(events)
  {
    var w := Serve(ix, files, events).value;
    StaysWorking(ix, files, events);
    if AllReserved(ix, files) && AllReadable(files) && AllAnswered(events) {
      AllDuplicates(ix, files, events);
    } else {
      if !AllReserved(ix, files) {
        NewShows(ix, files, events);
      } else {
        TroubleShows(ix, files, events);
      }
      var i: nat :| i < |w.attempts| && Worked(w.attempts[i].stage);
      assert !Results(w)[i].Duplicate?;
    }
  }

  /** A file with new content is indexed or fails. */
  lemma NewShows(ix: Index, files: seq<File>, events: seq<P.Event>)
    requires Serve(ix, files, events).Some? && Served(Serve(ix, files, events).value) && !AllReserved(ix, files)
    ensures SomeWorked(Serve(ix, files, events).value)
  {
    var w := Serve(ix, files, events).value;
    var k: nat :| k < |files| && P.Sum(files[k].hex) !in ix.entries;
    StaysWorking(ix, files, events);
    NewIsTakenUp(ix, files, events, P.Sum(files[k].hex));
    assert P.Same(w.attempts[k], files[k].page, P.Sum(files[k].hex)) && !w.attempts[k].stage.Reserving?;
  }

  /** Nobody fails over reserved content if nothing goes wrong. */
  lemma {:induction false} AllDuplicates(ix: Index, files: seq<File>, events: seq<P.Event>)
    requires Serve(ix, files, events).Some? && AllReserved(ix, files) && AllReadable(files) && AllAnswered(events)
    ensures forall i: nat | i < |Serve(ix, files, events).value.attempts| ::
              var stage := Serve(ix, files, events).value.attempts[i].stage;
              Idle(stage) && stage != P.Ended(P.Failed)
  {
    if events != [] {
      var front, e := events[..|events| - 1], events[|events| - 1];
      var w := Serve(ix, files, front).value;
      AllDuplicates(ix, files, front);
      StaysWorking(ix, files, front);
      ReservedIsLeftAlone(ix, files, front);
      assert Answered(e) && P.Same(w.attempts[e.attempt], files[e.attempt].page, P.Sum(files[e.attempt].hex));
    } else {
      assert forall i | 0 <= i < |files| :: files[i] in files;
    }
  }

  // ---------------------------------------------------------------- what a request leaves reserved

  /** The pages of one request are different: page numbers are positive and distinct. */
  ghost predicate DistinctPages(files: seq<File>) {
    forall i, j | 0 <= i < j < |files| :: files[i].page != files[j].page
  }

  /** The request is answered, and a stored file can be read again, as it can from memory. */
  predicate Calm(e: P.Event) { Answered(e) && !e.work.Unseekable? }

  predicate Keeps(stage: P.Stage) { P.Holding(stage) || stage == P.Ended(P.Indexed) }

  ghost predicate Kept(ix: Index, a: P.Attempt) {
    && (Keeps(a.stage) ==> P.Owns(ix, a.page, a.digest))
    && (a.stage.Deleting? ==> a.digest in ix.entries && ix.entries[a.digest].version == a.stage.version)
  }

  ghost predicate AllKept(w: P.World) { forall i: nat | i < |w.attempts| :: Kept(w.index, w.attempts[i]) }

  ghost predicate Keeper(w: P.World, d: string) {
    exists i: nat :: i < |w.attempts| && w.attempts[i].digest == d && Keeps(w.attempts[i].stage)
  }

  /** What is reserved was reserved before or is kept by a worker. */
  ghost predicate Explained(w: P.World, ix: Index) {
    forall d <- w.index.entries :: d in ix.entries || Keeper(w, d)
  }

  lemma AllKeptNext(w: P.World, files: seq<File>, e: P.Event)
    requires AllKept(w) && Working(w, files) && DistinctPages(files) && e.Act? && P.Possible(w, e)
    ensures AllKept(P.Next(w, e))
  {
    var q, k := P.Next(w, e), e.attempt;
    forall i: nat | i < |q.attempts| ensures Kept(q.index, q.attempts[i]) {
      assert Kept(w.index, w.attempts[i]) && Kept(w.index, w.attempts[k]);
      assert P.Same(w.attempts[i], files[i].page, P.Sum(files[i].hex)) && P.Same(w.attempts[k], files[k].page, P.Sum(files[k].hex));
    }
  }

  lemma ExplainedNext(w: P.World, ix: Index, e: P.Event)
    requires Explained(w, ix) && AllKept(w) && Calm(e) && P.Possible(w, e) && w.attempts[e.attempt].kind.Upload?
    ensures Explained(P.Next(w, e), ix)
  {
    var q, k := P.Next(w, e), e.attempt;
    assert Kept(w.index, w.attempts[k]);
    forall d <- q.index.entries | d !in ix.entries ensures Keeper(q, d) {
      if d !in w.index.entries {
        assert q.attempts[k].digest == d && Keeps(q.attempts[k].stage);
      } else {
        var i: nat :| i < |w.attempts| && w.attempts[i].digest == d && Keeps(w.attempts[i].stage);
        assert q.attempts[i].digest == d && Keeps(q.attempts[i].stage);
      }
    }
  }

  lemma {:induction false} EveryRunKeeps(ix: Index, files: seq<File>, events: seq<P.Event>)
    requires Serve(ix, files, events).Some? && DistinctPages(files)
    ensures AllKept(Serve(ix, files, events).value)
  {
    if events != [] {
      var front, e := events[..|events| - 1], events[|events| - 1];
      EveryRunKeeps(ix, files, front);
      StaysWorking(ix, files, front);
      AllKeptNext(Serve(ix, files, front).value, files, e);
    }
  }

  lemma {:induction false} CalmRunExplains(ix: Index, files: seq<File>, events: seq<P.Event>)
    requires Serve(ix, files, events).Some? && DistinctPages(files) && forall e <- events :: Calm(e)
    ensures Explained(Serve(ix, files, events).value, ix)
  {
    if events != [] {
      var front, e := events[..|events| - 1], events[|events| - 1];
      CalmRunExplains(ix, files, front);
      EveryRunKeeps(ix, files, front);
      StaysWorking(ix, files, front);
      ExplainedNext(Serve(ix, files, front).value, ix, e);
    }
  }

  /** The request indexed a file with this content. */
  ghost predicate Took(w: P.World, d: string) {
    exists i: nat :: i < |w.attempts| && w.attempts[i].digest == d && Results(w)[i].Indexed?
  }

  /** After a request exactly the content that was reserved before or that it indexed is reserved: every
      failed file has given its reservation up. */
  lemma LeftReserved(ix: Index, files: seq<File>, events: seq<P.Event>, d: string)
    requires Serve(ix, files, events).Some? && Served(Serve(ix, files, events).value)
    requires DistinctPages(files) && forall e <- events :: Calm(e)
    ensures var w := Serve(ix, files, events).value;
            d in w.index.entries <==> d in ix.entries || Took(w, d)
  {
    var w := Serve(ix, files, events).value;
    EveryRunKeeps(ix, files, events);
    CalmRunExplains(ix, files, events);
    ReservedIsLeftAlone(ix, files, events);
    if d in w.index.entries && d !in ix.entries {
      var i: nat :| i < |w.attempts| && w.attempts[i].digest == d && Keeps(w.attempts[i].stage);
      assert Results(w)[i].Indexed?;
    }
    if i: nat :| i < |w.attempts| && w.attempts[i].digest == d && Results(w)[i].Indexed? {
      assert Kept(w.index, w.attempts[i]);
    }
  }

  // ---------------------------------------------------------------- the uploader's reading of the answer

  /** What RemoteBackend makes of the answer: an accepted batch is one that is no conflict and reports no
      failed file. */
  predicate Takes(results: seq<U.Status>) { U.AnswerCode(results) == U.OK && U.Broken !in results }

  /** A batch is accepted exactly if no file of it failed and some content was new: one that holds nothing
      but duplicates counts as refused. */
  lemma TakesExactly(ix: Index, files: seq<File>, events: seq<P.Event>)
    requires files != [] && Serve(ix, files, events).Some? && Served(Serve(ix, files, events).value)
    ensures var results := Results(Serve(ix, files, events).value);
            Takes(results) <==> U.Broken !in results && !AllReserved(ix, files)
  {
    var w := Serve(ix, files, events).value;
    StaysWorking(ix, files, events);
    if AllReserved(ix, files) {
      ReservedIsLeftAlone(ix, files, events);
      forall i: nat | i < |files| ensures !Results(w)[i].Indexed? {
        assert P.Same(w.attempts[i], files[i].page, P.Sum(files[i].hex));
      }
    } else {
      NewShows(ix, files, events);
      var i: nat :| i < |w.attempts| && Worked(w.attempts[i].stage);
      assert Results(w)[i] in Results(w) && !Results(w)[i].Duplicate?;
    }
  }

  /** The content of every file of an accepted batch is reserved afterwards. */
  lemma TakenIsReserved(ix: Index, files: seq<File>, events: seq<P.Event>, k: nat)
    requires DistinctPages(files) && Serve(ix, files, events).Some? && Served(Serve(ix, files, events).value)
    requires k < |files| && Takes(Results(Serve(ix, files, events).value))
    ensures P.Sum(files[k].hex) in Serve(ix, files, events).value.index.entries
  {
    var w, d := Serve(ix, files, events).value, P.Sum(files[k].hex);
    StaysWorking(ix, files, events);
    ReservedIsLeftAlone(ix, files, events);
    EveryRunKeeps(ix, files, events);
    if d !in ix.entries {
      NewIsTakenUp(ix, files, events, d);
      assert P.Same(w.attempts[k], files[k].page, d) && !w.attempts[k].stage.Reserving?;
      var i: nat :| i < |w.attempts| && w.attempts[i].digest == d && Worked(w.attempts[i].stage);
      assert Results(w)[i] in Results(w) && Kept(w.index, w.attempts[i]);
    }
  }

  // ---------------------------------------------------------------- a request whose answer is lost

  function ToClient(code: nat): U.Answer { if code == U.OK then U.Stored else U.Error(code) }

  /** The first answer never arrives, the second does; nobody cancels. */
  function LostThen(answer: U.Answer): nat -> U.Attempt {
    (k: nat) => U.Attempt(if k == 0 then U.Error(0) else answer, false, false)
  }

  /** The chunk as its client sees it: the answer to the first request is lost, so the request is sent again. */
  function ClientEnd(code: nat): U.Outcome { U.ChunkEnd(LostThen(ToClient(code)), 0, 0).0 }

  /** A chunk sent again after its first answer was lost is reported as failed exactly if nothing goes wrong
      with the second request and all its content is reserved by then: where nothing went wrong with the
      first one either, exactly if that has indexed every file that was new. */
  lemma RepeatFailsExactly(ix: Index, files: seq<File>, first: seq<P.Event>, second: seq<P.Event>)
    requires files != [] && DistinctPages(files)
    requires Serve(ix, files, first).Some? && Served(Serve(ix, files, first).value)
    requires var left := Serve(ix, files, first).value.index;
             Serve(left, files, second).Some? && Served(Serve(left, files, second).value)
    ensures var w := Serve(ix, files, first).value;
            var end := ClientEnd(U.AnswerCode(Results(Serve(w.index, files, second).value)));
            && (end.Failed? <==> AllReserved(w.index, files) && AllReadable(files) && AllAnswered(second))
            && (end.Failed? || end.Done?)
            && ((forall e <- first :: Calm(e)) ==>
                  (AllReserved(w.index, files) <==>
                     forall i | 0 <= i < |files| :: P.Sum(files[i].hex) in ix.entries || Took(w, P.Sum(files[i].hex))))
  {
    var w := Serve(ix, files, first).value;
    ConflictExactly(w.index, files, second);
    EndOfRepeat(U.AnswerCode(Results(Serve(w.index, files, second).value)));
    if forall e <- first :: Calm(e) {
      forall i | 0 <= i < |files| {
        LeftReserved(ix, files, first, P.Sum(files[i].hex));
      }
    }
  }

  lemma EndOfRepeat(code: nat)
    requires code == U.OK || code == U.CONFLICT
    ensures ClientEnd(code) == if code == U.OK then U.Done else U.Failed
  {
    assert U.ChunkEnd(LostThen(ToClient(code)), 0, 0).0 == U.ChunkEnd(LostThen(ToClient(code)), 0, 1).0;
  }

  lemma ServeStep(ix: Index, files: seq<File>, events: seq<P.Event>, e: P.Event)
    requires Serve(ix, files, events).Some? && Allowed(Serve(ix, files, events).value, e)
    ensures Serve(ix, files, events + [e]) == Some(P.Next(Serve(ix, files, events).value, e))
  {
    assert (events + [e])[..|events|] == events;
  }

  const EMPTY := Index(map[], 0)
  const GO := P.Act(0, Delivered, P.Good)

  lemma FirstPlay(ix: Index, file: File)
    requires P.Sum(file.hex) !in ix.entries && file.readable
    ensures var w := Serve(ix, [file], [GO, GO, GO]);
            && w.Some? && |w.value.attempts| == 1 && w.value.attempts[0].stage == P.Ended(P.Indexed)
            && P.Owns(w.value.index, file.page, P.Sum(file.hex))
  {
    assert [] + [GO] == [GO] && [GO] + [GO] == [GO, GO] && [GO, GO] + [GO] == [GO, GO, GO];
    ServeStep(ix, [file], [], GO);
    ServeStep(ix, [file], [GO], GO);
    ServeStep(ix, [file], [GO, GO], GO);
  }

  lemma SecondPlay(ix: Index, file: File)
    requires P.Sum(file.hex) in ix.entries && file.readable
    ensures var w := Serve(ix, [file], [GO, GO]);
            w.Some? && |w.value.attempts| == 1 && w.value.attempts[0].stage.Ended? && w.value.attempts[0].stage.outcome.Duplicate?
  {
    assert [] + [GO] == [GO] && [GO] + [GO] == [GO, GO];
    ServeStep(ix, [file], [], GO);
    ServeStep(ix, [file], [GO], GO);
  }

  /** One new file that can be read: it is indexed, the answer is lost, and the client reports that its upload failed. */
  lemma LostAnswer(file: File) returns (first: seq<P.Event>, second: seq<P.Event>)
    requires file.readable
    ensures var w := Serve(EMPTY, [file], first);
            && w.Some? && Served(w.value) && Results(w.value) == [U.Indexed]
            && var v := Serve(w.value.index, [file], second);
            && v.Some? && Served(v.value) && ClientEnd(U.AnswerCode(Results(v.value))).Failed?
  {
    first, second := [GO, GO, GO], [GO, GO];
    FirstPlay(EMPTY, file);
    SecondPlay(Serve(EMPTY, [file], first).value.index, file);
    EndOfRepeat(U.CONFLICT);
  }
}
