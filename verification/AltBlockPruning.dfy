/**
 Pruning the found blocks of other coins: newest first, in chunks, deleting
 in batches while the scan goes on.
 */
module AltBlockPruning {
  import opened Wrappers
  import opened ChunkedScan

  datatype AltBlock = AltBlock(port: nat, unlocked: bool, timestamp: int)

  type Rows = seq<Row<AltBlock>>

  const PORT_LIMIT: nat := 10000
  const YEAR_MS: int := 365 * 24 * 60 * 60 * 1000
  const LMDB_BATCH_SIZE: nat := 500

  // ------------------------------------------------------------------
  // Which blocks are kept
  // ------------------------------------------------------------------

  function OnPort(r: Row<AltBlock>, port: nat): nat { if r.data.port == port then 1 else 0 }

  function CountPort(rows: Rows, port: nat): nat {
    if rows == [] then 0 else OnPort(rows[0], port) + CountPort(rows[1..], port)
  }

  /** The oldest of these rows, whose newer ones are all the others, is kept. */
  predicate Keeps(rows: Rows, now: int)
    requires rows != []
  {
    var b := rows[0].data;
    !b.unlocked || (CountPort(rows, b.port) <= PORT_LIMIT && now - b.timestamp <= YEAR_MS)
  }

  /** Locked blocks, and unlocked ones among the newest of their port that are at most a year old. */
  function Pruned(rows: Rows, now: int): Rows {
    if rows == [] then [] else (if Keeps(rows, now) then [rows[0]] else []) + Pruned(rows[1..], now)
  }

  lemma {:induction false} PrunedCounts(rows: Rows, now: int, port: nat)
    ensures CountPort(Pruned(rows, now), port) <= CountPort(rows, port)
  {
    hide Keeps, OnPort;
    if rows != [] {
      PrunedCounts(rows[1..], now, port);
      if Keeps(rows, now) {
        var rest := Pruned(rows[1..], now);
        assert ([rows[0]] + rest)[1..] == rest;
      } else {
        assert Pruned(rows, now) == Pruned(rows[1..], now);
      }
    }
  }

  /** A second run at the same time deletes nothing. */
  lemma {:induction false} PruningIsFinal(rows: Rows, now: int)
    ensures Pruned(Pruned(rows, now), now) == Pruned(rows, now)
  {
    hide OnPort;
    if rows != [] {
      PruningIsFinal(rows[1..], now);
      if Keeps(rows, now) {
        var rest := Pruned(rows[1..], now);
        var kept := [rows[0]] + rest;
        PrunedCounts(rows[1..], now, rows[0].data.port);
        assert kept[1..] == rest;
        assert CountPort(kept, rows[0].data.port) <= CountPort(rows, rows[0].data.port);
        assert Keeps(kept, now);
      } else {
        assert Pruned(rows, now) == Pruned(rows[1..], now);
      }
    }
  }

  /** By index: a block stays exactly when it is locked, or within its port's newest and young enough. */
  lemma {:induction false} KeptExactly(rows: Rows, now: int, i: nat)
    requires Ordered(rows) && i < |rows|
    ensures rows[i] in Pruned(rows, now) <==>
              !rows[i].data.unlocked
              || (CountPort(rows[i..], rows[i].data.port) <= PORT_LIMIT && now - rows[i].data.timestamp <= YEAR_MS)
  {
    hide CountPort;
    PrunedMembers(rows[1..], now);
    if i == 0 {
      assert rows[0..] == rows;
      assert forall r :: r in rows[1..] ==> r.key > rows[0].key;
    } else {
      assert rows[1..][i - 1] == rows[i] && rows[1..][i - 1..] == rows[i..];
      TailOrdered(rows);
      KeptExactly(rows[1..], now, i - 1);
    }
  }

  lemma {:induction false} PrunedMembers(rows: Rows, now: int)
    ensures forall r :: r in Pruned(rows, now) ==> r in rows
  {
    hide Keeps;
    if rows != [] {
      PrunedMembers(rows[1..], now);
    }
  }

  lemma TailOrdered(rows: Rows)
    requires Ordered(rows) && rows != []
    ensures Ordered(rows[1..])
  {
  }

  // ------------------------------------------------------------------
  // Deleting
  // ------------------------------------------------------------------

  function WithoutKeys(rows: Rows, keys: set<nat>): Rows {
    if rows == [] then [] else (if rows[0].key in keys then [] else [rows[0]]) + WithoutKeys(rows[1..], keys)
  }

  lemma {:induction false} WithoutConcat(a: Rows, b: Rows, keys: set<nat>)
    ensures WithoutKeys(a + b, keys) == WithoutKeys(a, keys) + WithoutKeys(b, keys)
  {
    if a == [] {
      assert a + b == b;
    } else {
      assert (a + b)[1..] == a[1..] + b;
      WithoutConcat(a[1..], b, keys);
    }
  }

  lemma {:induction false} WithoutNone(rows: Rows, keys: set<nat>)
    requires forall i :: 0 <= i < |rows| ==> rows[i].key !in keys
    ensures WithoutKeys(rows, keys) == rows
  {
    if rows != [] {
      WithoutNone(rows[1..], keys);
    }
  }

  lemma {:induction false} WithoutMembers(rows: Rows, keys: set<nat>)
    ensures forall r :: r in WithoutKeys(rows, keys) <==> r in rows && r.key !in keys
  {
    if rows != [] {
      WithoutMembers(rows[1..], keys);
    }
  }

  lemma {:induction false} WithoutOrdered(rows: Rows, keys: set<nat>)
    requires Ordered(rows)
    ensures Ordered(WithoutKeys(rows, keys))
  {
    hide Ordered;
    if rows != [] {
      TailOrdered(rows);
      WithoutOrdered(rows[1..], keys);
      WithoutMembers(rows[1..], keys);
      ConsOrdered(rows, WithoutKeys(rows[1..], keys));
      assert rows[0].key in keys ==> WithoutKeys(rows, keys) == WithoutKeys(rows[1..], keys);
    }
  }

  lemma ConsOrdered(rows: Rows, rest: Rows)
    requires Ordered(rows) && rows != [] && Ordered(rest) && forall r :: r in rest ==> r in rows[1..]
    ensures Ordered([rows[0]] + rest)
  {
    forall i | 0 <= i < |rest|
      ensures rest[i].key > rows[0].key
    {
      assert rest[i] in rest && rest[i] in rows[1..];
      var j :| 0 <= j < |rows[1..]| && rows[1..][j] == rest[i];
      assert rows[j + 1] == rest[i];
    }
  }

  lemma {:induction false} WithoutMore(rows: Rows, keys: set<nat>, key: nat)
    ensures WithoutKeys(WithoutKeys(rows, keys), {key}) == WithoutKeys(rows, keys + {key})
  {
    if rows != [] {
      WithoutMore(rows[1..], keys, key);
      var first := if rows[0].key in keys then [] else [rows[0]];
      WithoutConcat(first, WithoutKeys(rows[1..], keys), {key});
      assert rows[0].key !in keys ==> [rows[0]][1..] == [];
    }
  }

  // ------------------------------------------------------------------
  // The cleanup
  // ------------------------------------------------------------------

  /**
   Half way through, with `todo` rows not yet visited: the store is those rows as they were, followed by newer rows
   that are, but for the keys waiting to be deleted, what is kept of them.
   */
  ghost predicate Midway(all: Rows, db: Rows, todo: nat, deletes: set<nat>, now: int) {
    && todo <= |all| && todo <= |db|
    && db[..todo] == all[..todo]
    && WithoutKeys(db[todo..], deletes) == Pruned(all[todo..], now)
    && (forall i :: 0 <= i < todo ==> all[i].key !in deletes)
    && AtLeast(db, todo, all)
    && Ordered(db)
  }

  /** From `todo` on, the rows are no older than the oldest row visited. */
  ghost predicate AtLeast(db: Rows, todo: nat, all: Rows) {
    && (todo < |db| ==> todo < |all|)
    && forall i :: todo <= i < |db| ==> db[i].key >= all[todo].key
  }

  ghost predicate Counted(counts: map<nat, nat>, rows: Rows) {
    forall port :: (if port in counts then counts[port] else 0) == CountPort(rows, port)
  }

  lemma NewerStayNewer(all: Rows, db: Rows, todo: nat, deletes: set<nat>, after: Rows)
    requires todo <= |all| && todo <= |db| && after == db[..todo] + WithoutKeys(db[todo..], deletes)
    requires AtLeast(db, todo, all)
    ensures AtLeast(after, todo, all)
  {
    hide WithoutKeys;
    var newer := db[todo..];
    WithoutMembers(newer, deletes);
    if |after| > todo {
      assert WithoutKeys(newer, deletes)[0] in newer;
    }
    forall i | todo <= i < |after|
      ensures after[i].key >= all[todo].key
    {
      assert after[i] in newer by { assert after[i] == WithoutKeys(newer, deletes)[i - todo]; }
      var j :| 0 <= j < |newer| && newer[j] == after[i];
      assert db[todo + j] == newer[j];
    }
  }

  /** Deleting what waits to be deleted keeps the picture. */
  lemma FlushMidway(all: Rows, db: Rows, todo: nat, deletes: set<nat>, now: int)
    requires Midway(all, db, todo, deletes, now)
    ensures Midway(all, WithoutKeys(db, deletes), todo, {}, now)
  {
    hide Pruned, Ordered, WithoutKeys;
    var newer := db[todo..];
    assert db == db[..todo] + newer;
    WithoutConcat(db[..todo], newer, deletes);
    assert forall i :: 0 <= i < todo ==> db[..todo][i] == all[..todo][i];
    WithoutNone(db[..todo], deletes);
    WithoutOrdered(db, deletes);
    var after := WithoutKeys(db, deletes);
    assert after[..todo] == db[..todo] && after[todo..] == WithoutKeys(newer, deletes);
    WithoutNone(after[todo..], {});
    NewerStayNewer(all, db, todo, deletes, after);
  }

  /** Visiting one more row, the newest not yet visited. */
  lemma VisitMidway(all: Rows, db: Rows, todo: nat, deletes: set<nat>, now: int)
    requires Ordered(all) && Midway(all, db, todo, deletes, now) && todo > 0
    ensures Midway(all, db, todo - 1, if Keeps(all[todo - 1..], now) then deletes else deletes + {all[todo - 1].key}, now)
  {
    hide Keeps, CountPort, WithoutKeys;
    var k := todo - 1;
    var row := all[k];
    assert db[k] == db[..todo][k] == all[..todo][k] == row;
    assert db[k..] == [row] + db[todo..];
    assert all[k..][0] == row && all[k..][1..] == all[todo..];
    assert db[..k] == db[..todo][..k] && all[..k] == all[..todo][..k];
    var newer := db[todo..];
    assert forall i :: 0 <= i < |newer| ==> newer[i] == db[todo + i];
    if Keeps(all[k..], now) {
      WithoutConcat([row], newer, deletes);
      WithoutOne(row, deletes);
    } else {
      var more := deletes + {row.key};
      WithoutConcat([row], newer, more);
      WithoutOne(row, more);
      WithoutMore(newer, deletes, row.key);
      WithoutMembers(newer, deletes);
      var kept := WithoutKeys(newer, deletes);
      forall i | 0 <= i < |kept|
        ensures kept[i].key !in {row.key}
      {
        assert kept[i] in newer;
      }
      WithoutNone(kept, {row.key});
    }
  }

  lemma WithoutOne(row: Row<AltBlock>, keys: set<nat>)
    ensures WithoutKeys([row], keys) == if row.key in keys then [] else [row]
  {
    assert [row][1..] == [];
  }

  lemma CountStep(counts: map<nat, nat>, all: Rows, k: nat)
    requires k < |all| && Counted(counts, all[k + 1..])
    ensures var port := all[k].data.port;
            var n := (if port in counts then counts[port] else 0) + 1;
            Counted(counts[port := n], all[k..]) && n == CountPort(all[k..], port)
  {
    assert all[k..][1..] == all[k + 1..];
    var port := all[k].data.port;
    var n := (if port in counts then counts[port] else 0) + 1;
    forall p
      ensures (if p in counts[port := n] then counts[port := n][p] else 0) == CountPort(all[k..], p)
    {
      assert (if p in counts then counts[p] else 0) == CountPort(all[k + 1..], p);
    }
  }

  class AltBlockStore {
    var rows: Rows

    constructor (rows: Rows)
      ensures this.rows == rows
    {
      this.rows := rows;
    }

    /** Deletes the given keys in one transaction; keys that are gone already do no harm. */
    method FlushDeletes(keys: set<nat>)
      modifies this
      ensures rows == WithoutKeys(old(rows), keys)
    {
      var kept: Rows := [];
      for i := 0 to |rows|
        invariant rows == old(rows) && kept == WithoutKeys(rows[..i], keys)
      {
        WithoutConcat(rows[..i], [rows[i]], keys);
        assert rows[..i + 1] == rows[..i] + [rows[i]];
        assert [rows[i]][1..] == [];
        if rows[i].key !in keys {
          kept := kept + [rows[i]];
        }
      }
      assert rows[..|rows|] == rows;
      rows := kept;
    }

    /** Visits the rows of a chunk, newest first, flushing deletes whenever a batch of them has gathered. */
    method VisitChunk(chunk: Rows, now: int, counts: map<nat, nat>, deletes: set<nat>, ghost all: Rows, ghost todo: nat)
      returns (counts': map<nat, nat>, deletes': set<nat>)
      requires |chunk| <= todo <= |all| && forall i :: 0 <= i < |chunk| ==> chunk[i] == all[todo - 1 - i]
      requires Ordered(all) && Midway(all, rows, todo, deletes, now) && Counted(counts, all[todo..])
      modifies this
      ensures Midway(all, rows, todo - |chunk|, deletes', now) && Counted(counts', all[todo - |chunk|..])
    {
      hide Midway, Ordered, Counted, CountPort, Pruned, WithoutKeys;
      counts', deletes' := counts, deletes;
      for i := 0 to |chunk|
        invariant Midway(all, rows, todo - i, deletes', now) && Counted(counts', all[todo - i..])
      {
        var row := chunk[i];
        ghost var k := todo - i - 1;
        CountStep(counts', all, k);
        VisitMidway(all, rows, k + 1, deletes', now);
        assert all[k..][0] == row;
        var portCount := (if row.data.port in counts' then counts'[row.data.port] else 0) + 1;
        counts' := counts'[row.data.port := portCount];
        if row.data.unlocked && !(portCount <= PORT_LIMIT && now - row.data.timestamp <= YEAR_MS) {
          deletes' := deletes' + {row.key};
          if |deletes'| >= LMDB_BATCH_SIZE {
            FlushMidway(all, rows, k, deletes', now);
            FlushDeletes(deletes');
            deletes' := {};
          }
        }
      }
    }

    /** The whole cleanup: however it is chunked, what remains is exactly what is to be kept. */
    method CleanAltBlockDB(now: int, chunkSize: nat)
      requires Ordered(rows) && chunkSize > 0
      modifies this
      ensures rows == Pruned(old(rows), now)
    {
      hide Midway, Counted, CountPort, Pruned, WithoutKeys, Ordered;
      ghost var all := rows;
      ghost var todo := |rows|;
      var counts: map<nat, nat> := map[];
      var deletes: set<nat> := {};
      var resumeKey: Option<nat> := None;
      var done := false;
      StartMidway(all, now);
      while !done
        invariant 0 <= todo <= |all| && Ordered(all)
        invariant Midway(all, rows, todo, deletes, now) && Counted(counts, all[todo..])
        invariant resumeKey == (if todo == |all| then None else Some(all[todo].key))
        invariant done ==> todo == 0
        decreases !done, todo
      {
        var chunk;
        MidwayBounds(all, rows, todo, deletes, now, resumeKey);
        chunk, resumeKey, done := ReadChunk(rows, resumeKey, true, chunkSize);
        ChunkIsNewest(all, rows, todo, deletes, now, chunk);
        counts, deletes := VisitChunk(chunk, now, counts, deletes, all, todo);
        todo := todo - |chunk|;
      }
      EndMidway(all, rows, deletes, now);
      FlushDeletes(deletes);
    }
  }

  lemma StartMidway(all: Rows, now: int)
    requires Ordered(all)
    ensures Midway(all, all, |all|, {}, now) && Counted(map[], all[|all|..])
  {
    assert all[|all|..] == [];
  }

  /** The next chunk starts right below what was visited. */
  lemma MidwayBounds(all: Rows, db: Rows, todo: nat, deletes: set<nat>, now: int, resumeKey: Option<nat>)
    requires Ordered(all) && Midway(all, db, todo, deletes, now) && todo <= |all|
    requires resumeKey == if todo == |all| then None else Some(all[todo].key)
    ensures Ordered(db) && todo <= |db| && Beyond(db, resumeKey, true) == (0, todo)
  {
    hide Pruned, WithoutKeys;
    forall i | 0 <= i < todo < |all|
      ensures db[i].key < all[todo].key
    {
      assert db[i] == db[..todo][i] == all[..todo][i];
    }
    if todo < |all| {
      var at := LowerBound(db, all[todo].key);
      assert at < |db| ==> db[at].key >= all[todo].key;
      assert todo < |db| ==> db[todo].key >= all[todo].key;
      assert at == todo;
    }
  }

  lemma ChunkIsNewest(all: Rows, db: Rows, todo: nat, deletes: set<nat>, now: int, chunk: Rows)
    requires Midway(all, db, todo, deletes, now)
    requires |chunk| <= todo <= |db| && forall i :: 0 <= i < |chunk| ==> chunk[i] == db[todo - 1 - i]
    ensures todo <= |all| && forall i :: 0 <= i < |chunk| ==> chunk[i] == all[todo - 1 - i]
  {
    hide Pruned, WithoutKeys;
    forall i | 0 <= i < |chunk|
      ensures chunk[i] == all[todo - 1 - i]
    {
      assert db[todo - 1 - i] == db[..todo][todo - 1 - i] == all[..todo][todo - 1 - i];
    }
  }

  lemma EndMidway(all: Rows, db: Rows, deletes: set<nat>, now: int)
    requires Midway(all, db, 0, deletes, now)
    ensures WithoutKeys(db, deletes) == Pruned(all, now)
  {
    hide Pruned, WithoutKeys;
    assert db[0..] == db && all[0..] == all;
  }
}
