/** upload.go and useUpload.ts: page numbers across the chunks of one upload. */
module Uploads {
  import opened Common
  import opened Json
  import Amount
  import AmountPattern

  const MAX_INT := 0x7FFF_FFFF_FFFF_FFFF

  type Int = x: int | -MAX_INT - 1 <= x <= MAX_INT

  /** strconv.Atoi: an optional sign and decimal digits, in the range of an int. */
  function Atoi(s: string): Option<Int> {
    var signed := s != [] && (s[0] == '-' || s[0] == '+');
    var t := if signed then s[1..] else s;
    if t == [] || !Amount.Digits(t) then None
    else
      var v: int := if signed && s[0] == '-' then 0 - Amount.Value(t) else Amount.Value(t);
      if -MAX_INT - 1 <= v <= MAX_INT then Some(v) else None
  }

  // ---------------------------------------------------------------- page numbers in JSON

  function Ascii(s: JString): string { seq(|s|, i requires 0 <= i < |s| => if s[i] < 0x80 then s[i] as char else '?') }

  predicate IsAscii(s: string) { forall i | 0 <= i < |s| :: s[i] < 128 as char }

  function Units(s: string): (t: JString)
    requires IsAscii(s)
    ensures |t| == |s| && Ascii(t) == s
  {
    seq(|s|, i requires 0 <= i < |s| => s[i] as int)
  }

  /** json.Unmarshal of one item into an int: null leaves the zero, any other number must be a whole one
      in range, without point or exponent. */
  function DecodeItem(v: Value): Option<Int> {
    match v
    case Null => Some(0)
    case Number(lexeme) => Atoi(Ascii(lexeme))
    case _ => None
  }

  /** json.Unmarshal of a text into a list of ints. */
  function Unmarshal(text: JString): Option<seq<Int>> {
    match Parse(text)
    case Some(Null) => Some([])
    case Some(Arr(items)) =>
      if forall v <- items :: DecodeItem(v).Some?
      then Some(seq(|items|, i requires 0 <= i < |items| => DecodeItem(items[i]).value)) else None
    case _ => None
  }

  function IntText(n: int): (s: string)
    ensures IsAscii(s)
  {
    if n < 0 then "-" + Amount.Numerals(-n) else Amount.Numerals(n)
  }

  function Lexemes(ids: seq<int>): seq<JString> {
    seq(|ids|, i requires 0 <= i < |ids| => Units(IntText(ids[i])))
  }

  /** json.Marshal of a list of ints. */
  function Marshal(ids: seq<int>): JString { Brackets(Lexemes(ids), []) }

  function Consecutive(offset: int, count: nat): (ids: seq<int>)
    ensures |ids| == count
  {
    seq(count, i => offset + i + 1)
  }

  ghost predicate Usable(ids: seq<int>) { (forall i | 0 <= i < |ids| :: ids[i] > 0) && Distinct(ids) }

  /** The offset of a client that sends no list. */
  function Offset(rawOffset: string, count: nat): Option<Int> {
    if rawOffset == "" then Some(0)
    else match Atoi(rawOffset)
      case None => None
      case Some(offset) => if offset < 0 || offset > MAX_INT - count then None else Some(offset)
  }

  /** The page numbers of a request for `count` files. */
  ghost function Numbers(rawIDs: JString, rawOffset: string, count: nat): Option<seq<int>> {
    if rawIDs != [] then
      match Unmarshal(rawIDs)
      case Some(ids) => if |ids| == count && Usable(ids) then Some(ids) else None
      case None => None
    else
      match Offset(rawOffset, count)
      case Some(offset) => Some(Consecutive(offset, count))
      case None => None
  }

  method ParseUploadSequenceIDs(rawIDs: JString, rawOffset: string, count: nat) returns (r: Option<seq<int>>)
    requires count <= MAX_INT
    ensures r == Numbers(rawIDs, rawOffset, count)
    ensures r.Some? ==> |r.value| == count && Usable(r.value) && forall i | 0 <= i < count :: r.value[i] <= MAX_INT
  {
    var ids: seq<int>;
    if rawIDs != [] {
      var decoded := Unmarshal(rawIDs);
      if decoded.None? || |decoded.value| != count {
        return None;
      }
      ids := decoded.value;
    } else {
      var offset := 0;
      if rawOffset != "" {
        var parsed := Atoi(rawOffset);
        if parsed.None? || parsed.value < 0 || parsed.value > MAX_INT - count {
          return None;
        }
        offset := parsed.value;
      }
      ids := [];
      for i := 0 to count
        invariant ids == Consecutive(offset, i)
      {
        ids := ids + [offset + i + 1];
      }
    }
    var usable := CheckIDs(ids);
    r := if usable then Some(ids) else None;
  }

  /** Page numbers must be positive and unique. */
  method CheckIDs(ids: seq<int>) returns (usable: bool)
    ensures usable <==> Usable(ids)
  {
    var seen: set<int> := {};
    for i := 0 to |ids|
      invariant Usable(ids[..i])
      invariant forall id :: id in seen <==> id in ids[..i]
    {
      CheckOne(ids, i, seen);
      if ids[i] <= 0 || ids[i] in seen {
        return false;
      }
      seen := seen + {ids[i]};
    }
    assert ids[..|ids|] == ids;
    usable := true;
  }

  lemma CheckOne(ids: seq<int>, i: nat, seen: set<int>)
    requires i < |ids| && Usable(ids[..i]) && forall id :: id in seen <==> id in ids[..i]
    ensures ids[..i + 1] == ids[..i] + [ids[i]]
    ensures if ids[i] > 0 && ids[i] !in seen then Usable(ids[..i + 1]) else !Usable(ids)
  {}

  /** The offset a client prints is the offset the server reads. */
  lemma OffsetRoundTrip(offset: nat, count: nat)
    requires offset + count <= MAX_INT
    ensures Numbers([], Amount.Numerals(offset), count) == Some(Consecutive(offset, count))
  {
    Amount.ValueOfNumerals(offset);
    assert AmountPattern.Digit(Amount.Numerals(offset)[0]);
  }

  lemma {:induction false} NumeralsStart(n: nat)
    ensures Amount.Numerals(n)[0] == '0' ==> n == 0
  {
    if n >= 10 {
      NumeralsStart(n / 10);
      assert Amount.Numerals(n)[0] == Amount.Numerals(n / 10)[0];
    }
  }

  /** A printed int is read as one JSON number. */
  lemma IntPrints(n: int)
    ensures Prints(Units(IntText(n)), Number(Units(IntText(n))))
  {
    var m := if n < 0 then -n else n;
    var s := Units(Amount.Numerals(m));
    NumeralsAreInt(m);
    assert Units(IntText(n)) == Numeral(n < 0, s, [], []);
    NumeralPrints(n < 0, s, [], []);
  }

  lemma NumeralsAreInt(m: nat)
    ensures IsAscii(Amount.Numerals(m)) && IsInt(Units(Amount.Numerals(m)))
  {
    var s := Amount.Numerals(m);
    assert forall i | 0 <= i < |s| :: AmountPattern.Digit(s[i]);
    NumeralsStart(m);
    forall u <- Units(s) ensures IsDigit(u) {}
  }

  /** And is decoded to itself. */
  lemma IntDecodes(n: int)
    requires -MAX_INT - 1 <= n <= MAX_INT
    ensures DecodeItem(Number(Units(IntText(n)))) == Some(n)
  {
    var m := if n < 0 then -n else n;
    Amount.ValueOfNumerals(m);
    assert AmountPattern.Digit(Amount.Numerals(m)[0]);
    if n < 0 {
      assert ("-" + Amount.Numerals(m))[1..] == Amount.Numerals(m);
    }
  }

  function Items(ids: seq<int>): seq<Value> {
    seq(|ids|, i requires 0 <= i < |ids| => Number(Units(IntText(ids[i]))))
  }

  lemma ItemsDecode(ids: seq<Int>)
    ensures forall v <- Items(ids) :: DecodeItem(v).Some?
    ensures seq(|ids|, i requires 0 <= i < |ids| => DecodeItem(Items(ids)[i]).value) == ids
  {
    forall i | 0 <= i < |ids| ensures DecodeItem(Items(ids)[i]) == Some(ids[i]) {
      IntDecodes(ids[i]);
    }
  }

  /** The list that a client marshals is the list that the server unmarshals. */
  lemma MarshalRoundTrip(ids: seq<Int>)
    ensures Unmarshal(Marshal(ids)) == Some(ids)
  {
    forall i | 0 <= i < |ids| ensures Prints(Lexemes(ids)[i], Items(ids)[i]) {
      IntPrints(ids[i]);
    }
    BracketsRoundTrip(Lexemes(ids), Items(ids), []);
    ItemsDecode(ids);
  }

  /** An optional sign and the digits of the number. */
  ghost predicate Spelled(s: string, n: int) {
    exists d: string :: d != [] && Amount.Digits(d) && SpelledBy(s, n, d)
  }

  predicate SpelledBy(s: string, n: int, d: string)
    requires Amount.Digits(d)
  {
    if s == "-" + d then n == 0 - Amount.Value(d) else (s == d || s == "+" + d) && n == Amount.Value(d)
  }

  lemma AtoiExactly(s: string, n: Int)
    ensures Atoi(s) == Some(n) <==> Spelled(s, n)
  {
    if Atoi(s) == Some(n) {
      var d := if s[0] == '-' || s[0] == '+' then s[1..] else s;
      assert AmountPattern.Digit(d[0]);
      assert s == d || s == [s[0]] + d;
    }
    if d: string :| d != [] && Amount.Digits(d) && SpelledBy(s, n, d) {
      SpelledIsRead(s, n, d);
    }
  }

  lemma SpelledIsRead(s: string, n: Int, d: string)
    requires d != [] && Amount.Digits(d) && SpelledBy(s, n, d)
    ensures Atoi(s) == Some(n)
  {
    assert AmountPattern.Digit(d[0]);
    assert s != d ==> s[1..] == d;
  }

  /** What an item may be read as. */
  ghost predicate Reads(v: Value, n: int) { (v.Null? && n == 0) || (v.Number? && Spelled(Ascii(v.lexeme), n)) }

  lemma DecodeExactly(v: Value, n: Int)
    ensures DecodeItem(v) == Some(n) <==> Reads(v, n)
  {
    if v.Number? {
      AtoiExactly(Ascii(v.lexeme), n);
    }
  }

  /** A text is decoded exactly if it is null, as the empty list, or a JSON array of numbers in range without
      point or exponent, where null stands for zero. */
  lemma UnmarshalExactly(text: JString, ids: seq<Int>)
    ensures Unmarshal(text) == Some(ids) <==>
              || (Parse(text) == Some(Null) && ids == [])
              || (exists items :: Parse(text) == Some(Arr(items)) && |items| == |ids|
                                  && forall i | 0 <= i < |ids| :: Reads(items[i], ids[i]))
  {
    if Parse(text).Some? && Parse(text).value.Arr? {
      var items := Parse(text).value.items;
      forall i | 0 <= i < |ids| && i < |items| ensures DecodeItem(items[i]) == Some(ids[i]) <==> Reads(items[i], ids[i]) {
        DecodeExactly(items[i], ids[i]);
      }
      if |items| == |ids| && forall i | 0 <= i < |ids| :: Reads(items[i], ids[i]) {
        Collects(items, ids);
      }
    }
  }

  lemma Collects(items: seq<Value>, ids: seq<Int>)
    requires |items| == |ids| && forall i | 0 <= i < |ids| :: DecodeItem(items[i]) == Some(ids[i])
    ensures forall v <- items :: DecodeItem(v).Some?
    ensures seq(|items|, i requires 0 <= i < |items| => DecodeItem(items[i]).value) == ids
  {}

  /** A request that names its page numbers gets exactly those, whatever offset it also names, if and
      only if they are positive and distinct. */
  lemma NamedExactly(ids: seq<Int>, rawOffset: string)
    ensures Numbers(Marshal(ids), rawOffset, |ids|) == if Usable(ids) then Some(ids) else None
  {
    MarshalRoundTrip(ids);
  }

  // ---------------------------------------------------------------- the server's answer

  datatype Status = Indexed | Duplicate | Broken

  const OK := 200
  const CONFLICT := 409

  /** The status code by what became of the files. */
  function AnswerCode(results: seq<Status>): nat {
    if results != [] && forall i | 0 <= i < |results| :: results[i].Duplicate? then CONFLICT else OK
  }

  /** The counters of the answer and its status code. */
  method Summarize(results: seq<Status>) returns (processed: nat, duplicates: nat, failed: nat, code: nat)
    ensures processed == multiset(results)[Indexed] && duplicates == multiset(results)[Duplicate]
    ensures processed + duplicates + failed == |results|
    ensures code == AnswerCode(results)
  {
    processed, duplicates, failed := 0, 0, 0;
    for k := 0 to |results|
      invariant processed == multiset(results[..k])[Indexed] && duplicates == multiset(results[..k])[Duplicate]
      invariant processed + duplicates + failed == k
      invariant processed == 0 && failed == 0 <==> forall i | 0 <= i < k :: results[i].Duplicate?
    {
      assert results[..k + 1] == results[..k] + [results[k]];
      match results[k] {
        case Indexed => processed := processed + 1;
        case Duplicate => duplicates := duplicates + 1;
        case Broken => failed := failed + 1;
      }
    }
    assert results[..|results|] == results;
    code := if processed == 0 && failed == 0 && duplicates > 0 then CONFLICT else OK;
  }

  // ---------------------------------------------------------------- the client

  const MAX_ATTEMPTS := 3
  const CHUNK_SIZE := 25

  /** An answer without a status is a network error, an abort or an unreadable body. */
  datatype Answer = Stored | Error(status: nat)

  /** One attempt: its answer, and whether the upload is cancelled by then and by the end of the pause. */
  datatype Attempt = Attempt(answer: Answer, cancelled: bool, cancelledLater: bool)

  datatype Request = Request(offset: nat, count: nat)

  /** The requests sent for one chunk: all of them the same. */
  datatype Sent = Sent(request: Request, times: nat)

  datatype Outcome = NotStarted | Cancelled | Failed | Done

  function Chunk(k: nat, n: nat): Request
    requires CHUNK_SIZE * k < n
  {
    Request(CHUNK_SIZE * k, if n - CHUNK_SIZE * k < CHUNK_SIZE then n - CHUNK_SIZE * k else CHUNK_SIZE)
  }

  /** How a chunk ends, and after how many attempts, when `tried` attempts have asked to be repeated. */
  function ChunkEnd(attempts: nat -> Attempt, first: nat, tried: nat): (end: (Outcome, nat))
    requires tried < MAX_ATTEMPTS
    ensures tried < end.1 <= MAX_ATTEMPTS
    decreases MAX_ATTEMPTS - tried
  {
    var now := attempts(first + tried);
    if now.cancelled then (Cancelled, tried + 1)
    else if now.answer.Stored? then (Done, tried + 1)
    else if (now.answer.status != 0 && now.answer.status < 500) || tried + 1 >= MAX_ATTEMPTS then (Failed, tried + 1)
    else if now.cancelledLater then (Cancelled, tried + 1)
    else ChunkEnd(attempts, first, tried + 1)
  }

  predicate Succeeds(a: Attempt) { !a.cancelled && a.answer.Stored? }

  predicate Repeats(attempts: nat -> Attempt, k: nat) {
    var a := attempts(k);
    !a.cancelled && !a.cancelledLater && a.answer.Error? && (a.answer.status == 0 || a.answer.status >= 500)
  }

  /** Attempt k of the chunk is stored, and those before it asked to be repeated. */
  predicate DoneAt(attempts: nat -> Attempt, first: nat, tried: nat, k: nat) {
    Succeeds(attempts(first + k)) && forall j: nat | first + tried <= j < first + k :: Repeats(attempts, j)
  }

  /** A chunk is done exactly if one of three attempts is stored and all before it were not cancelled
      and failed without a status or with one from 500 on. */
  lemma {:induction false} ChunkDone(attempts: nat -> Attempt, first: nat, tried: nat)
    requires tried < MAX_ATTEMPTS
    ensures ChunkEnd(attempts, first, tried).0.Done? <==>
            exists k: nat :: tried <= k < MAX_ATTEMPTS && DoneAt(attempts, first, tried, k)
    decreases MAX_ATTEMPTS - tried
  {
    if Repeats(attempts, first + tried) && tried + 1 < MAX_ATTEMPTS {
      var later := tried + 1;
      ChunkDone(attempts, first, later);
      if k: nat :| later <= k < MAX_ATTEMPTS && DoneAt(attempts, first, later, k) {
        assert DoneAt(attempts, first, tried, k);
      }
      if k: nat :| tried <= k < MAX_ATTEMPTS && DoneAt(attempts, first, tried, k) {
        assert DoneAt(attempts, first, later, k);
      }
    } else {
      assert DoneAt(attempts, first, tried, tried) <==> Succeeds(attempts(first + tried));
      forall k: nat | tried < k < MAX_ATTEMPTS ensures !DoneAt(attempts, first, tried, k) {
        assert !Repeats(attempts, first + tried);
      }
    }
  }

  /** How a chunk ends is decided by its last attempt, and every one before it asked to be repeated: it is
      cancelled if the upload was by then, or while it would have waited to repeat; it is done if the attempt
      is stored; and it fails if the attempt must not be repeated or is the third. */
  lemma {:induction false} ChunkEndsExactly(attempts: nat -> Attempt, first: nat, tried: nat)
    requires tried < MAX_ATTEMPTS
    ensures var (outcome, times) := ChunkEnd(attempts, first, tried);
            var last := attempts(first + times - 1);
            && (forall j: nat | first + tried <= j < first + times - 1 :: Repeats(attempts, j))
            && (outcome.Done? <==> !last.cancelled && last.answer.Stored?)
            && (outcome.Failed? <==> !last.cancelled && last.answer.Error?
                                     && ((last.answer.status != 0 && last.answer.status < 500) || times == MAX_ATTEMPTS))
            && (outcome.Cancelled? <==>
                  last.cancelled || (Retryable(last) && times < MAX_ATTEMPTS && last.cancelledLater))
    decreases MAX_ATTEMPTS - tried
  {
    if Repeats(attempts, first + tried) && tried + 1 < MAX_ATTEMPTS {
      ChunkEndsExactly(attempts, first, tried + 1);
    }
  }

  predicate Retryable(a: Attempt) { a.answer.Error? && (a.answer.status == 0 || a.answer.status >= 500) }

  /** Sends a chunk until it is stored, cancelled, refused for good or out of attempts. */
  method SendChunk(chunk: Request, attempts: nat -> Attempt, first: nat) returns (r: Outcome, sent: Sent, pages: seq<int>)
    requires chunk.offset + chunk.count <= MAX_INT
    ensures (r, sent) == (ChunkEnd(attempts, first, 0).0, Sent(chunk, ChunkEnd(attempts, first, 0).1))
    ensures r.Done? ==> pages == Consecutive(chunk.offset, chunk.count)
  {
    var chunkAttempt := 0;
    while true
      invariant chunkAttempt < MAX_ATTEMPTS
      invariant ChunkEnd(attempts, first, chunkAttempt) == ChunkEnd(attempts, first, 0)
      decreases MAX_ATTEMPTS - chunkAttempt
    {
      var now := attempts(first + chunkAttempt);
      chunkAttempt := chunkAttempt + 1;
      if now.cancelled {
        return Cancelled, Sent(chunk, chunkAttempt), [];
      }
      if now.answer.Stored? {
        var ids := ParseUploadSequenceIDs([], Amount.Numerals(chunk.offset), chunk.count);
        OffsetRoundTrip(chunk.offset, chunk.count);
        return Done, Sent(chunk, chunkAttempt), ids.value;
      }
      if (now.answer.status != 0 && now.answer.status < 500) || chunkAttempt >= MAX_ATTEMPTS {
        return Failed, Sent(chunk, chunkAttempt), [];
      }
      if now.cancelledLater {
        return Cancelled, Sent(chunk, chunkAttempt), [];
      }
    }
  }

  lemma ConsecutiveAppend(n: nat, count: nat)
    ensures Consecutive(0, n) + Consecutive(n, count) == Consecutive(0, n + count)
  {}

  /** The attempt a chunk begins with, when every chunk before it has ended. */
  function StartOf(attempts: nat -> Attempt, k: nat): nat {
    if k == 0 then 0 else StartOf(attempts, k - 1) + ChunkEnd(attempts, StartOf(attempts, k - 1), 0).1
  }

  function EndOf(attempts: nat -> Attempt, k: nat): Outcome { ChunkEnd(attempts, StartOf(attempts, k), 0).0 }

  /** What is sent for chunk k: one request, as often as its answers ask for. */
  function SentFor(n: nat, attempts: nat -> Attempt, k: nat): Sent
    requires CHUNK_SIZE * k < n
  {
    Sent(Chunk(k, n), ChunkEnd(attempts, StartOf(attempts, k), 0).1)
  }

  predicate InTurn(sent: seq<Sent>, n: nat, attempts: nat -> Attempt) {
    forall k: nat | k < |sent| :: CHUNK_SIZE * k < n && sent[k] == SentFor(n, attempts, k)
  }

  ghost predicate AllDone(attempts: nat -> Attempt, count: nat) {
    forall k: nat | k < count :: EndOf(attempts, k).Done?
  }

  lemma NextChunk(sent: seq<Sent>, n: nat, attempts: nat -> Attempt, log: Sent)
    requires InTurn(sent, n, attempts) && CHUNK_SIZE * |sent| < n && log == SentFor(n, attempts, |sent|)
    ensures InTurn(sent + [log], n, attempts)
  {
    forall k: nat | k < |sent + [log]| ensures CHUNK_SIZE * k < n && (sent + [log])[k] == SentFor(n, attempts, k) {
      assert k < |sent| ==> sent[k] == SentFor(n, attempts, k);
    }
  }

  lemma LastChunk(n: nat, attempts: nat -> Attempt, count: nat)
    requires n <= CHUNK_SIZE * count < n + CHUNK_SIZE
    ensures AllDone(attempts, count) <==> forall k: nat | CHUNK_SIZE * k < n :: EndOf(attempts, k).Done?
  {}

  /** Uploads `n` files in chunks up to the first one that does not end well, and ends as that one does;
      `pages` are the page numbers of the pages the server took. */
  method Upload(n: nat, uploading: bool, attempts: nat -> Attempt)
    returns (r: Outcome, sent: seq<Sent>, pages: seq<int>)
    requires n < 0x1_0000_0000
    ensures r.NotStarted? <==> uploading || n == 0
    ensures r.NotStarted? ==> sent == []
    ensures !r.NotStarted? ==>
      && 0 < |sent| && InTurn(sent, n, attempts)
      && AllDone(attempts, |sent| - 1) && r == EndOf(attempts, |sent| - 1)
    ensures r.Done? <==> !uploading && n > 0 && forall k: nat | CHUNK_SIZE * k < n :: EndOf(attempts, k).Done?
    ensures pages == Consecutive(0, if r.Done? then n else if sent == [] then 0 else CHUNK_SIZE * (|sent| - 1))
  {
    sent, pages := [], [];
    if uploading || n == 0 {
      return NotStarted, [], [];
    }
    var attempt: nat, start := 0, 0;
    while start < n
      invariant start == CHUNK_SIZE * |sent| && start < n + CHUNK_SIZE
      invariant attempt == StartOf(attempts, |sent|) && InTurn(sent, n, attempts)
      invariant AllDone(attempts, |sent|)
      invariant pages == Consecutive(0, if start < n then start else n)
      decreases n - start
    {
      var chunk := Request(start, if n - start < CHUNK_SIZE then n - start else CHUNK_SIZE);
      var outcome, log, ids := SendChunk(chunk, attempts, attempt);
      assert log == SentFor(n, attempts, |sent|) && outcome == EndOf(attempts, |sent|);
      NextChunk(sent, n, attempts, log);
      sent, attempt := sent + [log], attempt + log.times;
      if !outcome.Done? {
        return outcome, sent, pages;
      }
      ConsecutiveAppend(start, chunk.count);
      pages := pages + ids;
      start := start + CHUNK_SIZE;
    }
    r := Done;
    LastChunk(n, attempts, |sent|);
  }
}
