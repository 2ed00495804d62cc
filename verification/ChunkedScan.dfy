/**
 The scan of a key-value store in chunks. Each chunk is read from a snapshot
 of its own and then visited with no snapshot held, so that the store may
 change in between; the next chunk starts from the last key read.
 */
module ChunkedScan {
  import opened Wrappers

  datatype Row<T> = Row(key: nat, data: T)

  /**
   Keys are compared as byte strings of at most 511 bytes, and stand for their rank in that order: only the order and
   that there are finitely many of them matters. Number keys are four such bytes.
   */
  const KEY_BYTES: nat := 511
  const KEY_LIMIT: nat := Power(KEY_BYTES)

  function Power(n: nat): nat { if n == 0 then 1 else 257 * Power(n - 1) }

  type byte = b: int | 0 <= b < 256

  /** Less in the order of the store: by the first byte that differs, a prefix before what it is a prefix of. */
  predicate Less(s: seq<byte>, t: seq<byte>) {
    t != [] && (s == [] || s[0] < t[0] || (s[0] == t[0] && Less(s[1..], t[1..])))
  }

  /** The rank of a key of at most n bytes. */
  function Rank(s: seq<byte>, n: nat): (r: nat)
    requires |s| <= n
    ensures r < Power(n)
  {
    if s == [] then PowerPositive(n); 0
    else
      var digit: nat := s[0];
      MulBelow(digit + 1, 257, Power(n - 1));
      (digit + 1) * Power(n - 1) + Rank(s[1..], n - 1)
  }

  lemma {:induction false} MulBelow(a: nat, b: nat, p: nat)
    requires a < b
    ensures a * p + p <= b * p
    decreases b
  {
    if a + 1 < b {
      MulBelow(a, b - 1, p);
    }
    assert b * p == (b - 1) * p + p;
  }

  lemma {:induction false} PowerPositive(n: nat)
    ensures Power(n) > 0
  {
    if n > 0 {
      PowerPositive(n - 1);
    }
  }

  lemma DigitsCompare(a: nat, b: nat, x: nat, y: nat, p: nat)
    requires x < p && y < p && a < b
    ensures (a + 1) * p + x < (b + 1) * p + y
  {
    MulBelow(a + 1, b + 1, p);
  }

  /** Comparing ranks is comparing keys. */
  lemma {:induction false} RankKeepsOrder(s: seq<byte>, t: seq<byte>, n: nat)
    requires |s| <= n && |t| <= n
    ensures Less(s, t) <==> Rank(s, n) < Rank(t, n)
    decreases n
  {
    if s != [] && t != [] {
      var x, y := Rank(s[1..], n - 1), Rank(t[1..], n - 1);
      if s[0] < t[0] {
        DigitsCompare(s[0], t[0], x, y, Power(n - 1));
      } else if t[0] < s[0] {
        DigitsCompare(t[0], s[0], y, x, Power(n - 1));
      } else {
        RankKeepsOrder(s[1..], t[1..], n - 1);
      }
    } else if t != [] {
      PowerPositive(n - 1);
    }
  }

  ghost predicate Ordered<T>(rows: seq<Row<T>>) {
    && (forall i, j :: 0 <= i < j < |rows| ==> rows[i].key < rows[j].key)
    && (forall i :: 0 <= i < |rows| ==> rows[i].key < KEY_LIMIT)
  }

  ghost predicate HasKey<T>(rows: seq<Row<T>>, key: nat) {
    exists i :: 0 <= i < |rows| && rows[i].key == key
  }

  // ------------------------------------------------------------------
  // One snapshot
  // ------------------------------------------------------------------

  /** Where a range seek lands: the first row at or above the key. */
  function LowerBound<T>(rows: seq<Row<T>>, key: nat): (n: nat)
    ensures n <= |rows|
    ensures n < |rows| ==> rows[n].key >= key
    ensures forall i :: 0 <= i < n ==> rows[i].key < key
  {
    if rows == [] || rows[0].key >= key then 0 else 1 + LowerBound(rows[1..], key)
  }

  /** The rows still to read, given the last key read: those strictly beyond it. Reading starts at the near end. */
  function Beyond<T>(rows: seq<Row<T>>, resumeKey: Option<nat>, reverse: bool): (int, int) {
    if resumeKey.None? then (0, |rows|)
    else
      var at := LowerBound(rows, resumeKey.value);
      if reverse then (0, at)
      else if at < |rows| && rows[at].key == resumeKey.value then (at + 1, |rows|)
      else (at, |rows|)
  }

  ghost predicate Past(key: nat, resumeKey: Option<nat>, reverse: bool) {
    resumeKey.None? || if reverse then key < resumeKey.value else key > resumeKey.value
  }

  lemma BeyondIsPast<T>(rows: seq<Row<T>>, resumeKey: Option<nat>, reverse: bool)
    requires Ordered(rows)
    ensures var (from, to) := Beyond(rows, resumeKey, reverse);
            && 0 <= from <= to <= |rows|
            && forall i :: 0 <= i < |rows| ==> (from <= i < to <==> Past(rows[i].key, resumeKey, reverse))
  {
  }

  /** Reads up to `chunkSize` rows in scan order, and says whether that was fewer. */
  method ReadChunk<T>(rows: seq<Row<T>>, resumeKey: Option<nat>, reverse: bool, chunkSize: nat)
    returns (chunk: seq<Row<T>>, last: Option<nat>, done: bool)
    requires Ordered(rows) && chunkSize > 0
    ensures var (from, to) := Beyond(rows, resumeKey, reverse);
            && 0 <= from <= to <= |rows|
            && |chunk| == (if to - from < chunkSize then to - from else chunkSize)
            && (forall i :: 0 <= i < |chunk| ==> chunk[i] == if reverse then rows[to - 1 - i] else rows[from + i])
    ensures done <==> |chunk| < chunkSize
    ensures last == if chunk == [] then resumeKey else Some(chunk[|chunk| - 1].key)
  {
    hide Beyond, Ordered, Past;
    BeyondIsPast(rows, resumeKey, reverse);
    var (from, to) := Beyond(rows, resumeKey, reverse);
    chunk, last := [], resumeKey;
    var found := if reverse then to - 1 else from;
    var count := 0;
    while from <= found < to && count < chunkSize
      invariant 0 <= count <= chunkSize && |chunk| == count <= to - from
      invariant found == if reverse then to - 1 - count else from + count
      invariant forall i :: 0 <= i < count ==> chunk[i] == if reverse then rows[to - 1 - i] else rows[from + i]
      invariant last == if chunk == [] then resumeKey else Some(chunk[count - 1].key)
      decreases chunkSize - count
    {
      chunk := chunk + [rows[found]];
      last := Some(rows[found].key);
      found := if reverse then found - 1 else found + 1;
      count := count + 1;
    }
    done := count < chunkSize;
  }

  // ------------------------------------------------------------------
  // The whole scan, over a store that changes
  // ------------------------------------------------------------------

  /** The keys run strictly in scan order. */
  ghost predicate Monotone<T>(visited: seq<Row<T>>, reverse: bool) {
    forall i, j :: 0 <= i < j < |visited| ==>
      if reverse then visited[i].key > visited[j].key else visited[i].key < visited[j].key
  }

  /** What the chunk contributes: rows past the ones before, in order, and every such row up to the last key read. */
  lemma ChunkExtends<T>(rows: seq<Row<T>>, resumeKey: Option<nat>, reverse: bool, chunk: seq<Row<T>>, last: Option<nat>, done: bool)
    requires Ordered(rows)
    requires var (from, to) := Beyond(rows, resumeKey, reverse);
             && 0 <= from <= to <= |rows| && |chunk| <= to - from
             && (forall i :: 0 <= i < |chunk| ==> chunk[i] == if reverse then rows[to - 1 - i] else rows[from + i])
             && (done ==> |chunk| == to - from)
    requires last == if chunk == [] then resumeKey else Some(chunk[|chunk| - 1].key)
    ensures Monotone(chunk, reverse)
    ensures forall i :: 0 <= i < |chunk| ==> Past(chunk[i].key, resumeKey, reverse) && chunk[i] in rows
    ensures forall i :: 0 <= i < |rows| && Past(rows[i].key, resumeKey, reverse) && (done || !Past(rows[i].key, last, reverse)) ==>
              rows[i] in chunk
  {
    hide Beyond, LowerBound, Power;
    BeyondIsPast(rows, resumeKey, reverse);
    var (from, to) := Beyond(rows, resumeKey, reverse);
    forall i | 0 <= i < |rows| && Past(rows[i].key, resumeKey, reverse) && (done || !Past(rows[i].key, last, reverse))
      ensures rows[i] in chunk
    {
      assert from <= i < to;
      var at := if reverse then to - 1 - i else i - from;
      if at < |chunk| {
        assert chunk[at] == rows[i];
      }
    }
  }

  /**
   Scans a store that is in state `stores(n)` when chunk n is read, whatever visitors and others do to it in
   between. The visited keys are strictly monotone, each row is as it was in its chunk's snapshot, and every key
   that is there throughout is visited, in both directions and for every chunk size.
   */
  method ScanDb<T>(stores: nat -> seq<Row<T>>, reverse: bool, chunkSize: nat) returns (visited: seq<Row<T>>, chunks: nat)
    requires chunkSize > 0 && forall n :: Ordered(stores(n))
    ensures Monotone(visited, reverse)
    ensures forall i :: 0 <= i < |visited| ==> SeenIn(stores, chunks, visited[i])
    ensures forall key :: (forall n :: 0 <= n < chunks ==> HasKey(stores(n), key)) ==> HasKey(visited, key)
  {
    hide Beyond, Ordered, SeenIn, HasKey;
    visited, chunks := [], 0;
    var resumeKey: Option<nat> := None;
    var done := false;
    while !done
      invariant Monotone(visited, reverse)
      invariant forall i :: 0 <= i < |visited| ==> !Past(visited[i].key, resumeKey, reverse)
      invariant forall i :: 0 <= i < |visited| ==> SeenIn(stores, chunks, visited[i])
      invariant Complete(stores, chunks, visited, resumeKey, done, reverse)
      invariant resumeKey.Some? ==> resumeKey.value < KEY_LIMIT
      decreases !done, Distance(resumeKey, reverse)
    {
      var rows := stores(chunks);
      ghost var before, from := visited, resumeKey;
      var chunk, last;
      chunk, last, done := ReadChunk(rows, resumeKey, reverse, chunkSize);
      DoneMeansAll(rows, resumeKey, reverse, chunk, chunkSize);
      ChunkExtends(rows, resumeKey, reverse, chunk, last, done);
      MonotoneJoin(visited, chunk, resumeKey, last, reverse);
      visited := visited + chunk;
      forall i | 0 <= i < |visited|
        ensures SeenIn(stores, chunks + 1, visited[i])
      {
        SeenLater(stores, chunks, visited[i]);
      }
      CompleteStep(stores, chunks, before, from, chunk, last, done, reverse);
      LimitOf(rows, chunk, last, resumeKey);
      chunks := chunks + 1;
      resumeKey := last;
    }
  }

  /** How many keys there can still be ahead. */
  function Distance(resumeKey: Option<nat>, reverse: bool): nat {
    if resumeKey.None? then KEY_LIMIT + 1
    else if reverse then resumeKey.value
    else if resumeKey.value < KEY_LIMIT then KEY_LIMIT - resumeKey.value
    else 0
  }

  lemma LimitOf<T>(rows: seq<Row<T>>, chunk: seq<Row<T>>, last: Option<nat>, resumeKey: Option<nat>)
    requires Ordered(rows) && forall i :: 0 <= i < |chunk| ==> chunk[i] in rows
    requires last == if chunk == [] then resumeKey else Some(chunk[|chunk| - 1].key)
    requires resumeKey.Some? ==> resumeKey.value < KEY_LIMIT
    ensures last.Some? ==> last.value < KEY_LIMIT
  {
  }

  lemma DoneMeansAll<T>(rows: seq<Row<T>>, resumeKey: Option<nat>, reverse: bool, chunk: seq<Row<T>>, chunkSize: nat)
    requires Ordered(rows)
    requires var (from, to) := Beyond(rows, resumeKey, reverse);
             |chunk| == (if to - from < chunkSize then to - from else chunkSize)
    ensures var (from, to) := Beyond(rows, resumeKey, reverse);
            |chunk| < chunkSize ==> |chunk| == to - from
  {
  }

  lemma MonotoneJoin<T>(visited: seq<Row<T>>, chunk: seq<Row<T>>, resumeKey: Option<nat>, last: Option<nat>, reverse: bool)
    requires Monotone(visited, reverse) && Monotone(chunk, reverse)
    requires forall i :: 0 <= i < |visited| ==> !Past(visited[i].key, resumeKey, reverse)
    requires forall i :: 0 <= i < |chunk| ==> Past(chunk[i].key, resumeKey, reverse)
    requires last == if chunk == [] then resumeKey else Some(chunk[|chunk| - 1].key)
    ensures Monotone(visited + chunk, reverse)
    ensures forall i :: 0 <= i < |visited + chunk| ==> !Past((visited + chunk)[i].key, last, reverse)
  {
  }

  /** The row was in the snapshot of one of the chunks. */
  ghost predicate SeenIn<T>(stores: nat -> seq<Row<T>>, chunks: nat, row: Row<T>) {
    exists n :: 0 <= n < chunks && row in stores(n)
  }

  lemma SeenLater<T>(stores: nat -> seq<Row<T>>, chunks: nat, row: Row<T>)
    requires SeenIn(stores, chunks, row) || row in stores(chunks)
    ensures SeenIn(stores, chunks + 1, row)
  {
    if SeenIn(stores, chunks, row) {
      var n :| 0 <= n < chunks && row in stores(n);
      assert 0 <= n < chunks + 1 && row in stores(n);
    }
  }

  /** Every key that was there in all snapshots so far is visited, or still ahead while there is anything ahead. */
  ghost predicate Complete<T>(stores: nat -> seq<Row<T>>, chunks: nat, visited: seq<Row<T>>, resumeKey: Option<nat>, done: bool, reverse: bool) {
    forall key :: (forall n :: 0 <= n < chunks ==> HasKey(stores(n), key)) && (done || !Past(key, resumeKey, reverse)) ==> HasKey(visited, key)
  }

  lemma CompleteStep<T>(stores: nat -> seq<Row<T>>, chunks: nat, visited: seq<Row<T>>, resumeKey: Option<nat>,
                        chunk: seq<Row<T>>, last: Option<nat>, done: bool, reverse: bool)
    requires Complete(stores, chunks, visited, resumeKey, false, reverse)
    requires var rows := stores(chunks);
             forall i :: 0 <= i < |rows| && Past(rows[i].key, resumeKey, reverse) && (done || !Past(rows[i].key, last, reverse)) ==>
               rows[i] in chunk
    requires chunk == [] ==> last == resumeKey
    ensures Complete(stores, chunks + 1, visited + chunk, last, done, reverse)
  {
    forall key | (forall n :: 0 <= n < chunks + 1 ==> HasKey(stores(n), key)) && (done || !Past(key, last, reverse))
      ensures HasKey(visited + chunk, key)
    {
      if Past(key, resumeKey, reverse) {
        assert HasKey(stores(chunks), key);
        var i :| 0 <= i < |stores(chunks)| && stores(chunks)[i].key == key;
        assert stores(chunks)[i] in chunk;
        var j :| 0 <= j < |chunk| && chunk[j] == stores(chunks)[i];
        assert (visited + chunk)[|visited| + j].key == key;
      } else {
        assert HasKey(visited, key);
        var j :| 0 <= j < |visited| && visited[j].key == key;
        assert (visited + chunk)[j].key == key;
      }
    }
  }
}
