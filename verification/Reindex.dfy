/** reindex.go: one run over stored pages against the digest index, with no other client at work. */
module Reindex {
  import opened Common
  import opened DigestIndex
  import DigestProtocol

  /** A listed page and what the requests made for it come to. */
  datatype Job = Job(scanID: string, sequence: string, hex: string, cancelled: bool, retrieved: bool, readable: bool,
                     indexed: bool, replies: Replies)

  datatype Replies = Replies(created: Answer, owner: Answer, read: Answer, deleted: Answer)

  function Id(j: Job): string { DigestProtocol.PageID(j.scanID, j.sequence) }

  datatype Status = Indexed | Duplicate(existing: string) | Failed

  datatype Result = Result(total: nat, processed: nat, duplicates: nat, failed: nat)

  function Tally(statuses: seq<Status>, total: nat): Result {
    if statuses == [] then Result(total, 0, 0, 0)
    else
      var r := Tally(statuses[..|statuses| - 1], total);
      match statuses[|statuses| - 1]
      case Indexed => r.(processed := r.processed + 1)
      case Duplicate(_) => r.(duplicates := r.duplicates + 1)
      case Failed => r.(failed := r.failed + 1)
  }

  lemma {:induction false} TallyCounts(statuses: seq<Status>, total: nat)
    ensures var r := Tally(statuses, total);
            r.total == total && r.processed + r.duplicates + r.failed == |statuses|
  {
    if statuses != [] {
      TallyCounts(statuses[..|statuses| - 1], total);
    }
  }

  /** The last job that is looked at: the first cancelled one, or the last of all. */
  function Visited(jobs: seq<Job>): (n: nat)
    ensures n <= |jobs|
  {
    if jobs == [] then 0 else if jobs[0].cancelled then 1 else 1 + Visited(jobs[1..])
  }

  /** A run accounts for every page exactly if it is not cancelled before the last one. */
  lemma {:induction false} AccountsForAllExactly(jobs: seq<Job>)
    ensures Visited(jobs) == |jobs| <==> forall i | 0 <= i < |jobs| - 1 :: !jobs[i].cancelled
  {
    if |jobs| > 1 {
      AccountsForAllExactly(jobs[1..]);
      assert forall i | 0 < i < |jobs| - 1 :: jobs[i] == jobs[1..][i - 1];
      assert forall i | 0 <= i < |jobs| - 2 :: jobs[1..][i] == jobs[i + 1];
    }
  }

  lemma CountsAll(jobs: seq<Job>, statuses: seq<Status>)
    requires |statuses| == Visited(jobs)
    ensures var r := Tally(statuses, |jobs|);
            r.total == r.processed + r.duplicates + r.failed <==> forall i | 0 <= i < |jobs| - 1 :: !jobs[i].cancelled
  {
    TallyCounts(statuses, |jobs|);
    AccountsForAllExactly(jobs);
  }

  lemma {:induction false} VisitedBehind(jobs: seq<Job>, k: nat)
    requires k <= |jobs| && forall i | 0 <= i < k :: !jobs[i].cancelled
    ensures Visited(jobs) == k + Visited(jobs[k..])
  {
    if k > 0 {
      VisitedBehind(jobs[1..], k - 1);
      assert jobs[1..][k - 1..] == jobs[k..];
    } else {
      assert jobs[0..] == jobs;
    }
  }

  predicate Holds(entries: map<string, Entry>, j: Job) {
    DigestProtocol.Sum(j.hex) in entries && entries[DigestProtocol.Sum(j.hex)].owner == Id(j)
  }

  /** No job between `i` and `n` is for the same page. */
  ghost predicate LastOfPage(jobs: seq<Job>, i: nat, n: nat)
    requires i < n <= |jobs|
  {
    forall k | i < k < n :: Id(jobs[k]) != Id(jobs[i])
  }

  ghost predicate IndexedHold(entries: map<string, Entry>, jobs: seq<Job>, statuses: seq<Status>)
    requires |statuses| <= |jobs|
  {
    forall i: nat | i < |statuses| && statuses[i].Indexed? && LastOfPage(jobs, i, |statuses|) :: Holds(entries, jobs[i])
  }

  /** What one page may change: its own entry. */
  ghost predicate OthersKept(before: map<string, Entry>, after: map<string, Entry>, page: string) {
    forall d <- before | before[d].owner != page :: d in after && after[d] == before[d]
  }

  lemma StillHold(before: map<string, Entry>, after: map<string, Entry>, jobs: seq<Job>, statuses: seq<Status>, s: Status)
    requires |statuses| < |jobs| && IndexedHold(before, jobs, statuses)
    requires OthersKept(before, after, Id(jobs[|statuses|]))
    requires s.Indexed? ==> Holds(after, jobs[|statuses|])
    ensures IndexedHold(after, jobs, statuses + [s])
  {
    var n := |statuses|;
    forall i: nat | i <= n && (statuses + [s])[i].Indexed? && LastOfPage(jobs, i, n + 1) ensures Holds(after, jobs[i]) {
      if i < n {
        assert Id(jobs[n]) != Id(jobs[i]);
        assert LastOfPage(jobs, i, n);
        assert Holds(before, jobs[i]);
      }
    }
  }

  // ---------------------------------------------------------------- one page

  predicate Readable(j: Job) { j.retrieved && j.readable }

  /** The page may be indexed: it creates the entry, or reads that the entry is its own. */
  predicate Admitted(ix: Index, j: Job) {
    j.replies.created.Delivered?
    && (DigestProtocol.Sum(j.hex) !in ix.entries || (j.replies.owner.Delivered? && Holds(ix.entries, j)))
  }

  /** It reads that the entry is another page's. */
  predicate Taken(ix: Index, j: Job) {
    j.replies.created.Delivered? && j.replies.owner.Delivered?
    && DigestProtocol.Sum(j.hex) in ix.entries && !Holds(ix.entries, j)
  }

  /** The status of a page over the index it finds. */
  function StatusOf(ix: Index, j: Job): Status {
    if j.cancelled || !Readable(j) then Failed
    else if Taken(ix, j) then Duplicate(ix.entries[DigestProtocol.Sum(j.hex)].owner)
    else if Admitted(ix, j) && j.indexed then Indexed else Failed
  }

  /** The release gets through. */
  predicate Releases(replies: Replies) { replies.read.Delivered? && !replies.deleted.LostRequest? }

  /** The index it leaves: what its create left, unless indexing failed and its release got through. */
  function Left(ix: Index, j: Job): Index {
    var d := DigestProtocol.Sum(j.hex);
    if j.cancelled || !Readable(j) then ix
    else
      var reserved := Create(ix, d, Id(j), j.replies.created);
      if Admitted(ix, j) && !j.indexed && j.replies.read.Delivered?
      then DeleteIf(reserved, d, reserved.entries[d].version, j.replies.deleted) else reserved
  }

  /** One page: reserve, index, and release again if that fails. Indexed means it now owns its digest;
      after a failed index whose release got through it does not. */
  method RunPage(idx: DigestIndex, j: Job) returns (s: Status)
    requires !j.cancelled
    modifies idx
    ensures s == StatusOf(old(idx.View()), j) && idx.View() == Left(old(idx.View()), j)
    ensures s.Indexed? <==>
              && j.retrieved && j.readable && j.indexed && j.replies.created.Delivered?
              && (DigestProtocol.Sum(j.hex) in old(idx.entries) ==>
                    j.replies.owner.Delivered? && old(idx.entries)[DigestProtocol.Sum(j.hex)].owner == Id(j))
    ensures s.Duplicate? <==>
              && j.retrieved && j.readable && j.replies.created.Delivered? && j.replies.owner.Delivered?
              && DigestProtocol.Sum(j.hex) in old(idx.entries) && old(idx.entries)[DigestProtocol.Sum(j.hex)].owner != Id(j)
    ensures OthersKept(old(idx.entries), idx.entries, Id(j))
    ensures s.Indexed? ==> Holds(idx.entries, j)
    ensures s.Duplicate? ==> idx.entries == old(idx.entries) && DigestProtocol.Sum(j.hex) in idx.entries
                             && idx.entries[DigestProtocol.Sum(j.hex)].owner == s.existing != Id(j)
    ensures Readable(j) && Admitted(old(idx.View()), j) && !j.indexed && Releases(j.replies) ==> !Holds(idx.entries, j)
  {
    if !j.retrieved || !j.readable {
      return Failed;
    }
    var digest, id := DigestProtocol.Sum(j.hex), Id(j);
    assert digest[0] == 's';
    var reserved, existing, error := idx.ReserveContentDigest(digest, id, j.replies.created, None, j.replies.owner);
    if error {
      return Failed;
    }
    if !reserved && existing != id {
      return Duplicate(existing);
    }
    if !j.indexed {
      var _ := idx.ReleaseContentDigest(digest, id, j.replies.read, None, j.replies.deleted);
      return Failed;
    }
    s := Indexed;
  }

  // ---------------------------------------------------------------- the run

  function LeftBy(ix: Index, jobs: seq<Job>): Index {
    if jobs == [] then ix else Left(LeftBy(ix, jobs[..|jobs| - 1]), jobs[|jobs| - 1])
  }

  function Statuses(ix: Index, jobs: seq<Job>): seq<Status> {
    if jobs == [] then []
    else
      var n := |jobs| - 1;
      Statuses(ix, jobs[..n]) + [StatusOf(LeftBy(ix, jobs[..n]), jobs[n])]
  }

  lemma Push(ix: Index, jobs: seq<Job>, k: nat)
    requires k < |jobs|
    ensures LeftBy(ix, jobs[..k + 1]) == Left(LeftBy(ix, jobs[..k]), jobs[k])
    ensures Statuses(ix, jobs[..k + 1]) == Statuses(ix, jobs[..k]) + [StatusOf(LeftBy(ix, jobs[..k]), jobs[k])]
  {
    assert jobs[..k + 1][..k] == jobs[..k];
  }

  /** A whole run: each page is reported as it fares over the index that the pages before it left, the
      counters say what was reported, and every page last reported as indexed owns its digest at the end. */
  method Run(idx: DigestIndex, jobs: seq<Job>) returns (result: Result, statuses: seq<Status>)
    modifies idx
    ensures statuses == Statuses(old(idx.View()), jobs[..Visited(jobs)])
    ensures idx.View() == LeftBy(old(idx.View()), jobs[..Visited(jobs)])
    ensures |statuses| == Visited(jobs) && result == Tally(statuses, |jobs|)
    ensures result.total == result.processed + result.duplicates + result.failed
       <==> forall i | 0 <= i < |jobs| - 1 :: !jobs[i].cancelled
    ensures IndexedHold(idx.entries, jobs, statuses)
  {
    ghost var start := idx.View();
    result, statuses := Result(|jobs|, 0, 0, 0), [];
    for k := 0 to |jobs|
      invariant |statuses| == k && result == Tally(statuses, |jobs|)
      invariant statuses == Statuses(start, jobs[..k]) && idx.View() == LeftBy(start, jobs[..k])
      invariant forall i | 0 <= i < k :: !jobs[i].cancelled
      invariant IndexedHold(idx.entries, jobs, statuses)
    {
      ghost var before := idx.entries;
      VisitedBehind(jobs, k);
      Push(start, jobs, k);
      var status := Failed;
      if !jobs[k].cancelled {
        status := RunPage(idx, jobs[k]);
      }
      StillHold(before, idx.entries, jobs, statuses, status);
      assert (statuses + [status])[..k] == statuses;
      statuses := statuses + [status];
      match status {
        case Indexed => result := result.(processed := result.processed + 1);
        case Duplicate(_) => result := result.(duplicates := result.duplicates + 1);
        case Failed => result := result.(failed := result.failed + 1);
      }
      if jobs[k].cancelled {
        CountsAll(jobs, statuses);
        return;
      }
    }
    VisitedBehind(jobs, |jobs|);
    assert jobs[..|jobs|] == jobs;
    CountsAll(jobs, statuses);
  }
}
