/** What a ScanPages run sends is what the upload server takes: the page numbers of every request. */
module ScanRequests {
  import opened Common
  import opened RemoteBackend
  import opened UploadSystem
  import opened ScanPool
  import U = Uploads

  /** The page number a call brings, or 0 if it brings no page. */
  function Number(threads: seq<Thread>, t: nat): int {
    if t < |threads| && threads[t].call.Process? then threads[t].call.page.sequenceID else 0
  }

  /** The page is the one the scanner yielded under its number. */
  predicate Labelled(p: Pool, page: Page) {
    page.scanID == p.scanID && 0 < page.sequenceID <= |p.yielded| && p.yielded[page.sequenceID - 1] == page
  }

  predicate Rising(xs: seq<int>) { forall i, j | 0 <= i < j < |xs| :: xs[i] < xs[j] }

  /** The list of page numbers that uploadBatch sends with a batch. */
  function SequenceIDs(pages: seq<Page>): seq<int> {
    seq(|pages|, i requires 0 <= i < |pages| => pages[i].sequenceID)
  }

  function Started(p: Pool): seq<int> {
    seq(|p.starts|, i requires 0 <= i < |p.starts| => Number(p.sys.threads, p.starts[i]))
  }

  predicate Brings(p: Pool, t: nat) {
    t < |p.sys.threads| && p.sys.threads[t].call.Process? && Labelled(p, p.sys.threads[t].call.page)
  }

  /** What was started and what waits in the channel, in this order, has ever larger page numbers,
      whatever failed or was dropped between. */
  ghost predicate Numbered(p: Pool) {
    && (forall i: nat | i < |p.starts| :: Brings(p, p.starts[i]))
    && (forall i: nat | i < |p.channel| :: Labelled(p, p.channel[i]))
    && Rising(Started(p) + SequenceIDs(p.channel))
  }

  lemma YieldNumbered(p: Pool, data: seq<byte>, readable: bool, cancel: Cancel)
    requires Numbered(p) && Possible(p, Yield(data, readable, cancel))
    ensures Numbered(Scan(p, data, readable, cancel))
  {
    var q := Scan(p, data, readable, cancel);
    assert Started(q) == Started(p);
    if q.channel != p.channel {
      assert SequenceIDs(q.channel) == SequenceIDs(p.channel) + [|p.yielded| + 1];
      assert Started(q) + SequenceIDs(q.channel) == Started(p) + SequenceIDs(p.channel) + [|p.yielded| + 1];
      LineBounded(p);
    }
  }

  lemma LineBounded(p: Pool)
    requires Numbered(p)
    ensures forall n <- Started(p) + SequenceIDs(p.channel) :: n <= |p.yielded|
  {
    forall i | 0 <= i < |p.starts| ensures Started(p)[i] <= |p.yielded| {
      assert Brings(p, p.starts[i]);
    }
  }

  lemma ReceiveNumbered(p: Pool, w: nat, live: bool)
    requires Numbered(p) && Possible(p, Receive(w, live))
    ensures Numbered(Advance(p, Receive(w, live)))
  {
    var q := Advance(p, Receive(w, live));
    assert SequenceIDs(p.channel) == [p.channel[0].sequenceID] + SequenceIDs(q.channel);
    if live {
      forall i: nat | i < |p.starts| ensures Brings(q, p.starts[i]) {
        assert Brings(p, p.starts[i]);
      }
      assert Brings(q, |p.sys.threads|);
      assert Started(q) == Started(p) + [p.channel[0].sequenceID];
      assert Started(q) + SequenceIDs(q.channel) == Started(p) + SequenceIDs(p.channel);
    } else {
      forall i: nat | i < |p.starts| ensures Brings(q, p.starts[i]) {
        assert Brings(p, p.starts[i]);
      }
      assert Started(q) == Started(p);
      RisingDrop(Started(p), p.channel[0].sequenceID, SequenceIDs(q.channel));
    }
  }

  lemma RisingDrop(xs: seq<int>, y: int, zs: seq<int>)
    requires Rising(xs + ([y] + zs))
    ensures Rising(xs + zs)
  {
    var all := xs + ([y] + zs);
    assert forall i | 0 <= i < |xs + zs| :: (xs + zs)[i] == all[if i < |xs| then i else i + 1];
  }

  /** Nothing is started or received, and the calls stay what they are. */
  lemma SameLine(p: Pool, q: Pool)
    requires Numbered(p) && q.starts == p.starts && q.channel == p.channel && q.scanID == p.scanID && q.yielded == p.yielded
    requires |p.sys.threads| <= |q.sys.threads|
    requires forall t: nat | t < |p.sys.threads| :: q.sys.threads[t].call == p.sys.threads[t].call
    ensures Numbered(q)
  {
    forall i: nat | i < |p.starts| ensures Brings(q, p.starts[i]) && Started(q)[i] == Started(p)[i] {
      assert Brings(p, p.starts[i]);
    }
    assert Started(q) == Started(p);
  }

  lemma NumberedNext(p: Pool, e: ScanPool.Event)
    requires Numbered(p) && Possible(p, e)
    ensures Numbered(Advance(p, e))
  {
    match e
    case Yield(data, readable, cancel) => YieldNumbered(p, data, readable, cancel);
    case Receive(w, live) => ReceiveNumbered(p, w, live);
    case Inner(inner) =>
      InnerOnward(p, inner);
      SameLine(p, Advance(p, e));
    case _ => SameLine(p, Advance(p, e));
  }

  lemma {:induction false} PlayNumbered(config: Config, scanID: string, workers: int, events: seq<ScanPool.Event>)
    requires Play(Start(config, scanID, workers), events).Some?
    ensures Numbered(Play(Start(config, scanID, workers), events).value)
  {
    if events != [] {
      PlayNumbered(config, scanID, workers, events[..|events| - 1]);
      NumberedNext(Play(Start(config, scanID, workers), events[..|events| - 1]).value, events[|events| - 1]);
    }
  }

  // ---------------------------------------------------------------- the requests

  lemma {:induction false} FlattenAt<T>(xss: seq<seq<T>>, k: nat) returns (start: nat)
    requires k < |xss|
    ensures start + |xss[k]| <= |Flatten(xss)| && Flatten(xss)[start..start + |xss[k]|] == xss[k]
  {
    var n := |xss| - 1;
    if k == n {
      start := |Flatten(xss[..n])|;
    } else {
      start := FlattenAt(xss[..n], k);
    }
  }

  /** A page in the buffer or in a batch is that of a started call. */
  lemma Origin(p: Pool, i: nat) returns (a: nat)
    requires Inv(p.sys) && Calls(p) && Numbered(p) && i < |p.sys.log.accepted|
    ensures a < |p.starts| && p.starts[a] == p.sys.log.origins[i]
    ensures Labelled(p, p.sys.log.accepted[i]) && Started(p)[a] == p.sys.log.accepted[i].sequenceID
    ensures p.sys.threads[p.starts[a]].ticket == Some(i)
  {
    var t := p.sys.log.origins[i];
    assert p.sys.threads[t].ticket == Some(i) && Ticketed(p.sys.threads[t], t, p.sys.log);
    a :| a < |p.starts| && p.starts[a] == t;
    assert Brings(p, p.starts[a]);
  }

  lemma NumbersDiffer(p: Pool, i: nat, j: nat)
    requires Inv(p.sys) && Calls(p) && Numbered(p) && i < j < |p.sys.log.accepted|
    ensures p.sys.log.accepted[i].sequenceID != p.sys.log.accepted[j].sequenceID
  {
    var a := Origin(p, i);
    var b := Origin(p, j);
    StartsDiffer(Started(p), SequenceIDs(p.channel), a, b);
  }

  lemma StartsDiffer(started: seq<int>, waiting: seq<int>, a: nat, b: nat)
    requires Rising(started + waiting) && a < |started| && b < |started| && a != b
    ensures started[a] != started[b]
  {
    var line := started + waiting;
    assert line[a] == started[a] && line[b] == started[b] && (a < b || b < a);
  }

  lemma BatchAt(p: Pool, k: nat) returns (start: nat)
    requires Inv(p.sys) && k < |p.sys.log.takes|
    ensures start + |p.sys.log.takes[k]| <= |p.sys.log.accepted|
    ensures forall i: nat | i < |p.sys.log.takes[k]| :: p.sys.log.takes[k][i] == p.sys.log.accepted[start + i]
  {
    start := FlattenAt(p.sys.log.takes, k);
    var all := Flatten(p.sys.log.takes);
    forall i: nat | i < |p.sys.log.takes[k]| ensures p.sys.log.takes[k][i] == p.sys.log.accepted[start + i] {
      assert all[start..start + |p.sys.log.takes[k]|][i] == all[start + i];
    }
  }

  lemma BatchLabelled(p: Pool, k: nat)
    requires Inv(p.sys) && Calls(p) && Numbered(p) && k < |p.sys.log.takes|
    ensures forall i: nat | i < |p.sys.log.takes[k]| :: Labelled(p, p.sys.log.takes[k][i])
  {
    var start := BatchAt(p, k);
    forall i: nat | i < |p.sys.log.takes[k]| ensures Labelled(p, p.sys.log.takes[k][i]) {
      var a := Origin(p, start + i);
    }
  }

  lemma BatchDistinct(p: Pool, k: nat)
    requires Inv(p.sys) && Calls(p) && Numbered(p) && k < |p.sys.log.takes|
    ensures Distinct(SequenceIDs(p.sys.log.takes[k]))
  {
    var ids := SequenceIDs(p.sys.log.takes[k]);
    var start := BatchAt(p, k);
    forall i: nat, j: nat | i < j < |ids| ensures ids[i] != ids[j] {
      NumbersDiffer(p, start + i, start + j);
    }
  }

  lemma BatchNumbered(p: Pool, k: nat)
    requires Inv(p.sys) && Calls(p) && Numbered(p) && k < |p.sys.log.takes|
    ensures forall i: nat | i < |p.sys.log.takes[k]| :: Labelled(p, p.sys.log.takes[k][i])
    ensures U.Usable(SequenceIDs(p.sys.log.takes[k]))
  {
    BatchLabelled(p, k);
    BatchDistinct(p, k);
    Positive(p, p.sys.log.takes[k]);
  }

  lemma Positive(p: Pool, pages: seq<Page>)
    requires forall i: nat | i < |pages| :: Labelled(p, pages[i])
    ensures forall i | 0 <= i < |pages| :: SequenceIDs(pages)[i] > 0
  {}

  lemma ReachedNumbered(p: Pool)
    requires Reached(p)
    ensures Inv(p.sys) && Calls(p) && Numbered(p)
  {
    ReachedInv(p);
    var config: Config, scanID, workers, events :|
      config.Valid() && Play(Start(config, scanID, workers), events) == Some(p);
    PlayNumbered(config, scanID, workers, events);
  }

  /** Every request that a scan sends, in any run, whatever failed before, is for this scan alone, and the
      server reads the numbers of its pages from it, whatever offset is sent along. */
  lemma RequestsAreTaken(p: Pool, k: nat, rawOffset: string)
    requires Reached(p) && |p.yielded| <= U.MAX_INT && k < |p.sys.log.takes|
    ensures forall i: nat | i < |p.sys.log.takes[k]| :: p.sys.log.takes[k][i].scanID == p.scanID
    ensures var ids := SequenceIDs(p.sys.log.takes[k]);
            U.Numbers(U.Marshal(ids), rawOffset, |p.sys.log.takes[k]|) == Some(ids)
  {
    ReachedNumbered(p);
    BatchNumbered(p, k);
    Taken(SequenceIDs(p.sys.log.takes[k]), rawOffset);
  }

  lemma Taken(ids: seq<int>, rawOffset: string)
    requires U.Usable(ids) && forall i: nat | i < |ids| :: ids[i] <= U.MAX_INT
    ensures U.Numbers(U.Marshal(ids), rawOffset, |ids|) == Some(ids)
  {
    var ints: seq<U.Int> := ids;
    U.NamedExactly(ints, rawOffset);
  }
}
