/**
 The API response cache: bounded in entries and in bytes, with expiry, and
 evicting the least recently used entries first. The entries are kept in the
 order of the source's insertion-ordered map.
 */
module ResponseCache {
  import opened Wrappers

  datatype Entry = Entry(key: string, body: string, size: nat, expiresAt: int)

  /** UTF-8 length of one character and of a body. */
  function CharBytes(c: char): nat {
    if c as int < 0x80 then 1 else if c as int < 0x800 then 2 else if c as int < 0x10000 then 3 else 4
  }

  function ByteLength(body: string): nat {
    if body == "" then 0 else CharBytes(body[0]) + ByteLength(body[1..])
  }

  /** The bytes of a character in UTF-8, section 3 of RFC 3629. */
  ghost function Utf8(c: char): seq<int> {
    var n := c as int;
    if n < 0x80 then [n]
    else if n < 0x800 then [0xC0 + n / 0x40, 0x80 + n % 0x40]
    else if n < 0x10000 then [0xE0 + n / 0x1000, 0x80 + n / 0x40 % 0x40, 0x80 + n % 0x40]
    else [0xF0 + n / 0x40000, 0x80 + n / 0x1000 % 0x40, 0x80 + n / 0x40 % 0x40, 0x80 + n % 0x40]
  }

  ghost function Encoded(body: string): seq<int> {
    if body == "" then [] else Utf8(body[0]) + Encoded(body[1..])
  }

  /** The size of a body is the number of its bytes. */
  lemma {:induction false} ByteLengthIsEncoded(body: string)
    ensures ByteLength(body) == |Encoded(body)|
  {
    if body != "" {
      ByteLengthIsEncoded(body[1..]);
    }
  }

  // ------------------------------------------------------------------
  // Entry lists
  // ------------------------------------------------------------------

  function TotalSize(entries: seq<Entry>): nat {
    if entries == [] then 0 else entries[0].size + TotalSize(entries[1..])
  }

  ghost predicate Distinct(entries: seq<Entry>) {
    forall i, j :: 0 <= i < j < |entries| ==> entries[i].key != entries[j].key
  }

  function Find(entries: seq<Entry>, key: string): (r: Option<nat>)
    ensures r.Some? ==> r.value < |entries| && entries[r.value].key == key
    ensures r.None? ==> forall i :: 0 <= i < |entries| ==> entries[i].key != key
  {
    if entries == [] then None
    else if entries[0].key == key then Some(0)
    else
      var rest := Find(entries[1..], key);
      if rest.Some? then Some(rest.value + 1) else None
  }

  function Without(entries: seq<Entry>, key: string): seq<Entry> {
    var at := Find(entries, key);
    if at.None? then entries else entries[..at.value] + entries[at.value + 1..]
  }

  function Unexpired(entries: seq<Entry>, now: int): seq<Entry> {
    if entries == [] then []
    else (if entries[0].expiresAt <= now then [] else [entries[0]]) + Unexpired(entries[1..], now)
  }

  predicate Fits(entries: seq<Entry>, size: nat, maxEntries: int, maxBytes: int) {
    |entries| < maxEntries && TotalSize(entries) + size <= maxBytes
  }

  /** Drops entries from the front until another one of the given size fits. */
  function Evict(entries: seq<Entry>, size: nat, maxEntries: int, maxBytes: int): seq<Entry> {
    if entries == [] || Fits(entries, size, maxEntries, maxBytes) then entries
    else Evict(entries[1..], size, maxEntries, maxBytes)
  }

  /** The victims are a prefix, as short as it can be, and afterwards the new entry always fits. */
  lemma {:induction false} EvictIsShortestPrefix(entries: seq<Entry>, size: nat, maxEntries: int, maxBytes: int) returns (victims: nat)
    requires maxEntries > 0 && size <= maxBytes
    ensures victims <= |entries| && Evict(entries, size, maxEntries, maxBytes) == entries[victims..]
    ensures Fits(Evict(entries, size, maxEntries, maxBytes), size, maxEntries, maxBytes)
    ensures forall k :: 0 <= k < victims ==> !Fits(entries[k..], size, maxEntries, maxBytes)
  {
    if entries == [] || Fits(entries, size, maxEntries, maxBytes) {
      victims := 0;
    } else {
      var rest := EvictIsShortestPrefix(entries[1..], size, maxEntries, maxBytes);
      victims := rest + 1;
      assert entries[0..] == entries;
      assert forall k :: 0 < k <= |entries| ==> entries[k..] == entries[1..][k - 1..];
    }
  }

  lemma {:induction false} TotalConcat(a: seq<Entry>, b: seq<Entry>)
    ensures TotalSize(a + b) == TotalSize(a) + TotalSize(b)
  {
    if a == [] {
      assert a + b == b;
    } else {
      assert (a + b)[1..] == a[1..] + b;
      TotalConcat(a[1..], b);
    }
  }

  lemma {:induction false} TotalWithout(entries: seq<Entry>, k: nat)
    requires k < |entries|
    ensures TotalSize(entries[..k] + entries[k + 1..]) == TotalSize(entries) - entries[k].size
  {
    TotalConcat(entries[..k], entries[k + 1..]);
    TotalConcat(entries[..k], entries[k..]);
    assert entries == entries[..k] + entries[k..];
    assert entries[k..][1..] == entries[k + 1..];
  }

  // ------------------------------------------------------------------
  // Recency
  // ------------------------------------------------------------------

  /** What the cache remembers of its past: the last body set for a key, and when each key was last used. */
  datatype Memory = Memory(latest: map<string, (string, int)>, lastUse: map<string, nat>, uses: nat)

  /** Each entry is the last one set for its key, and the entries are ordered by their last use. */
  ghost predicate Recalls(m: Memory, entries: seq<Entry>) {
    && Distinct(entries)
    && (forall i :: 0 <= i < |entries| ==>
          && entries[i].key in m.latest && m.latest[entries[i].key] == (entries[i].body, entries[i].expiresAt)
          && entries[i].size == ByteLength(entries[i].body)
          && entries[i].key in m.lastUse && m.lastUse[entries[i].key] < m.uses)
    && (forall i, j :: 0 <= i < j < |entries| ==> m.lastUse[entries[i].key] < m.lastUse[entries[j].key])
  }

  function Used(m: Memory, key: string): Memory {
    m.(lastUse := m.lastUse[key := m.uses], uses := m.uses + 1)
  }

  lemma RecallsSubsequence(m: Memory, entries: seq<Entry>, k: nat)
    requires Recalls(m, entries) && k < |entries|
    ensures Recalls(m, entries[..k] + entries[k + 1..])
  {
    var rest := entries[..k] + entries[k + 1..];
    assert forall i :: 0 <= i < |rest| ==> rest[i] == entries[if i < k then i else i + 1];
  }

  lemma RecallsUse(m: Memory, entries: seq<Entry>, e: Entry)
    requires Recalls(m, entries) && forall i :: 0 <= i < |entries| ==> entries[i].key != e.key
    requires e.key in m.latest && m.latest[e.key] == (e.body, e.expiresAt) && e.size == ByteLength(e.body)
    ensures Recalls(Used(m, e.key), entries + [e])
  {
  }

  lemma RecallsForget(m: Memory, entries: seq<Entry>, key: string, value: (string, int))
    requires Recalls(m, entries) && forall i :: 0 <= i < |entries| ==> entries[i].key != key
    ensures Recalls(m.(latest := m.latest[key := value]), entries)
  {
  }

  // ------------------------------------------------------------------
  // The cache
  // ------------------------------------------------------------------

  class ResponseCache {
    const maxEntries: int
    const maxBytes: int
    var entries: seq<Entry>
    var totalBytes: int
    ghost var memory: Memory

    ghost predicate Valid()
      reads this
    {
      && totalBytes == TotalSize(entries)
      && Recalls(memory, entries)
      && (entries != [] ==> |entries| <= maxEntries && totalBytes <= maxBytes)
    }

    constructor (maxEntries: int, maxBytes: int)
      ensures Valid() && entries == [] && this.maxEntries == maxEntries && this.maxBytes == maxBytes
      ensures memory == Memory(map[], map[], 0)
    {
      this.maxEntries, this.maxBytes := maxEntries, maxBytes;
      entries, totalBytes := [], 0;
      memory := Memory(map[], map[], 0);
    }

    method DeleteAt(k: nat)
      requires totalBytes == TotalSize(entries) && Recalls(memory, entries) && k < |entries|
      modifies this`entries, this`totalBytes
      ensures totalBytes == TotalSize(entries) <= old(totalBytes) && Recalls(memory, entries)
      ensures entries == old(entries)[..k] + old(entries)[k + 1..]
    {
      TotalWithout(entries, k);
      RecallsSubsequence(memory, entries, k);
      totalBytes := totalBytes - entries[k].size;
      entries := entries[..k] + entries[k + 1..];
    }

    method DeleteKey(key: string)
      requires totalBytes == TotalSize(entries) && Recalls(memory, entries)
      modifies this`entries, this`totalBytes
      ensures totalBytes == TotalSize(entries) <= old(totalBytes) && Recalls(memory, entries)
      ensures entries == Without(old(entries), key)
      ensures forall i :: 0 <= i < |entries| ==> entries[i].key != key
      ensures |entries| <= |old(entries)|
    {
      var at := Find(entries, key);
      if at.None? { return; }
      DeleteAt(at.value);
      assert forall i :: 0 <= i < |entries| ==> entries[i] == old(entries)[if i < at.value then i else i + 1];
    }

    /** A hit is the body last set for the key, not yet expired, and makes the key the most recently used. */
    method Get(key: string, now: int) returns (body: Option<string>)
      requires Valid()
      modifies this
      ensures Valid()
      ensures body.Some? ==>
        && key in memory.latest && memory.latest[key].0 == body.value && memory.latest[key].1 > now
        && memory == Used(old(memory), key)
      ensures body.None? ==> memory == old(memory)
      ensures var at := Find(old(entries), key);
              if at.None? then
                body.None? && entries == old(entries)
              else if old(entries)[at.value].expiresAt <= now then
                body.None? && entries == Without(old(entries), key)
              else
                body == Some(old(entries)[at.value].body) && entries == Without(old(entries), key) + [old(entries)[at.value]]
    {
      hide TotalSize, Recalls, Find;
      var at := Find(entries, key);
      if at.None? { return None; }
      KeysDiffer(memory, entries);
      var entry := entries[at.value];
      RecalledEntry(memory, entries, at.value);
      TotalWithout(entries, at.value);
      OthersDiffer(entries, at.value);
      DeleteAt(at.value);
      if entry.expiresAt <= now {
        return None;
      }
      TotalConcat(entries, [entry]);
      SizeOfOne(entry);
      RecallsUse(memory, entries, entry);
      totalBytes := totalBytes + entry.size;
      entries := entries + [entry];
      memory := Used(memory, key);
      body := Some(entry.body);
    }

    method PruneExpired(now: int)
      requires totalBytes == TotalSize(entries) && Recalls(memory, entries)
      modifies this`entries, this`totalBytes
      ensures totalBytes == TotalSize(entries) <= old(totalBytes) && Recalls(memory, entries)
      ensures entries == Unexpired(old(entries), now) && |entries| <= |old(entries)|
    {
      hide TotalSize, Recalls;
      ghost var all := entries;
      ghost var seen := 0;
      var i := 0;
      while i < |entries|
        invariant 0 <= i <= |entries| && 0 <= seen <= |all| && i <= seen && |entries| - i == |all| - seen
        invariant entries[..i] == Unexpired(all[..seen], now)
        invariant entries[i..] == all[seen..]
        invariant totalBytes == TotalSize(entries) <= old(totalBytes) && Recalls(memory, entries)
        decreases |all| - seen
      {
        ghost var before := entries;
        assert entries[i] == all[seen] by { assert entries[i..][0] == all[seen..][0]; }
        UnexpiredSnoc(all, seen, now);
        assert entries[i + 1..] == all[seen + 1..] by { assert entries[i..][1..] == all[seen..][1..]; }
        if entries[i].expiresAt <= now {
          DeleteAt(i);
          assert entries[..i] == before[..i] && entries[i..] == before[i + 1..];
        } else {
          assert entries[..i + 1] == entries[..i] + [entries[i]];
          i := i + 1;
        }
        seen := seen + 1;
      }
      assert all[..seen] == all && entries[..i] == entries;
    }

    /** Drops the least recently used entries until the new one fits. */
    method EvictOldest(size: nat)
      requires totalBytes == TotalSize(entries) && Recalls(memory, entries)
      modifies this`entries, this`totalBytes
      ensures totalBytes == TotalSize(entries) && Recalls(memory, entries)
      ensures entries == Evict(old(entries), size, maxEntries, maxBytes)
      ensures forall i :: 0 <= i < |entries| ==> entries[i] in old(entries)
    {
      hide TotalSize, Recalls;
      while |entries| >= maxEntries || totalBytes + size > maxBytes
        invariant totalBytes == TotalSize(entries) && Recalls(memory, entries)
        invariant Evict(entries, size, maxEntries, maxBytes) == Evict(old(entries), size, maxEntries, maxBytes)
        invariant forall i :: 0 <= i < |entries| ==> entries[i] in old(entries)
        decreases |entries|
      {
        if entries == [] { break; }
        ghost var before := entries;
        DeleteAt(0);
        assert entries == before[1..];
      }
    }

    /**
     Replaces the body of a key. Expired entries go first, then the least recently used ones, as few as will do;
     after that the new entry always fits, so that only a body larger than the whole cache is turned away.
     */
    method Set(key: string, ttlMs: int, body: Option<string>, now: int) returns (stored: bool)
      requires Valid()
      modifies this
      ensures Valid()
      ensures stored <==> body.Some? && maxEntries > 0 && maxBytes > 0 && ByteLength(body.value) <= maxBytes
      ensures if body.None? || maxEntries <= 0 || maxBytes <= 0 then
                entries == old(entries) && memory == old(memory)
              else
                var survivors := Unexpired(Without(old(entries), key), now);
                var size := ByteLength(body.value);
                var told := old(memory).(latest := old(memory).latest[key := (body.value, now + ttlMs)]);
                && memory == (if size > maxBytes then told else Used(told, key))
                && entries == if size > maxBytes then survivors
                              else Evict(survivors, size, maxEntries, maxBytes) + [Entry(key, body.value, size, now + ttlMs)]
    {
      hide TotalSize, Recalls, ByteLength, Evict, Unexpired, Find, Without;
      if body.None? || maxEntries <= 0 || maxBytes <= 0 { return false; }
      var size := ByteLength(body.value);
      DeleteKey(key);
      ghost var others := entries;
      PruneExpired(now);
      ghost var survivors := entries;
      UnexpiredMembers(others, now);
      RecallsForget(memory, entries, key, (body.value, now + ttlMs));
      memory := memory.(latest := memory.latest[key := (body.value, now + ttlMs)]);
      if size > maxBytes { return false; }
      EvictOldest(size);
      ghost var victims := EvictIsShortestPrefix(survivors, size, maxEntries, maxBytes);
      // the source checks the limits once more here; the check cannot fail
      assert |entries| < maxEntries && totalBytes + size <= maxBytes;
      var entry := Entry(key, body.value, size, now + ttlMs);
      TotalConcat(entries, [entry]);
      SizeOfOne(entry);
      RecallsUse(memory, entries, entry);
      entries := entries + [entry];
      totalBytes := totalBytes + size;
      memory := Used(memory, key);
      stored := true;
    }

    method Clear()
      requires Valid()
      modifies this
      ensures Valid() && entries == [] && totalBytes == 0 && memory == old(memory)
    {
      entries := [];
      totalBytes := 0;
    }
  }

  lemma {:induction false} UnexpiredSnoc(entries: seq<Entry>, k: nat, now: int)
    requires k < |entries|
    ensures Unexpired(entries[..k + 1], now) == Unexpired(entries[..k], now) + if entries[k].expiresAt <= now then [] else [entries[k]]
  {
    UnexpiredConcat(entries[..k], [entries[k]], now);
    assert entries[..k + 1] == entries[..k] + [entries[k]];
    assert [entries[k]][1..] == [];
  }

  lemma {:induction false} UnexpiredConcat(a: seq<Entry>, b: seq<Entry>, now: int)
    ensures Unexpired(a + b, now) == Unexpired(a, now) + Unexpired(b, now)
  {
    if a == [] {
      assert a + b == b;
    } else {
      assert (a + b)[1..] == a[1..] + b;
      UnexpiredConcat(a[1..], b, now);
    }
  }

  lemma {:induction false} UnexpiredMembers(entries: seq<Entry>, now: int)
    ensures forall i :: 0 <= i < |Unexpired(entries, now)| ==>
              Unexpired(entries, now)[i] in entries && Unexpired(entries, now)[i].expiresAt > now
  {
    if entries != [] {
      UnexpiredMembers(entries[1..], now);
    }
  }

  lemma OthersDiffer(entries: seq<Entry>, k: nat)
    requires Distinct(entries) && k < |entries|
    ensures var rest := entries[..k] + entries[k + 1..];
            forall i :: 0 <= i < |rest| ==> rest[i].key != entries[k].key
  {
    var rest := entries[..k] + entries[k + 1..];
    assert forall i :: 0 <= i < |rest| ==> rest[i] == entries[if i < k then i else i + 1];
  }

  lemma KeysDiffer(m: Memory, entries: seq<Entry>)
    requires Recalls(m, entries)
    ensures Distinct(entries)
  {
  }

  lemma RecalledEntry(m: Memory, entries: seq<Entry>, k: nat)
    requires Recalls(m, entries) && k < |entries|
    ensures var e := entries[k];
            e.key in m.latest && m.latest[e.key] == (e.body, e.expiresAt) && e.size == ByteLength(e.body)
  {
  }

  lemma SizeOfOne(e: Entry)
    ensures TotalSize([e]) == e.size
  {
    assert [e][1..] == [];
  }

  // ------------------------------------------------------------------
  // Every sequence of calls
  // ------------------------------------------------------------------

  datatype Call = GetCall(key: string, now: int) | SetCall(key: string, ttlMs: int, body: Option<string>, now: int) | ClearCall

  /** The body of the last call that set this key to a string, and when that expires. */
  function LatestSet(calls: seq<Call>, key: string): Option<(string, int)> {
    if calls == [] then None
    else
      var last := calls[|calls| - 1];
      if last.SetCall? && last.key == key && last.body.Some? then Some((last.body.value, last.now + last.ttlMs))
      else LatestSet(calls[..|calls| - 1], key)
  }

  lemma LatestSetSnoc(calls: seq<Call>, k: nat, key: string)
    requires k < |calls|
    ensures LatestSet(calls[..k + 1], key) ==
      if calls[k].SetCall? && calls[k].key == key && calls[k].body.Some?
      then Some((calls[k].body.value, calls[k].now + calls[k].ttlMs)) else LatestSet(calls[..k], key)
  {
    assert calls[..k + 1][..k] == calls[..k];
  }

  /** What is remembered as the latest body of each key is what the calls set. */
  ghost predicate Told(latest: map<string, (string, int)>, calls: seq<Call>) {
    forall key :: key in latest ==> LatestSet(calls, key) == Some(latest[key])
  }

  lemma ToldMore(before: map<string, (string, int)>, after: map<string, (string, int)>, calls: seq<Call>, k: nat)
    requires k < |calls| && Told(before, calls[..k])
    requires
      || (calls[k].SetCall? && calls[k].body.Some? && after == before[calls[k].key := (calls[k].body.value, calls[k].now + calls[k].ttlMs)])
      || (after == before && (before == map[] || !(calls[k].SetCall? && calls[k].body.Some?)))
    ensures Told(after, calls[..k + 1])
  {
    hide LatestSet;
    forall key | key in after
      ensures LatestSet(calls[..k + 1], key) == Some(after[key])
    {
      LatestSetSnoc(calls, k, key);
    }
  }

  /** A hit on a call is the unexpired body of the latest set of its key before. */
  ghost predicate GoodHit(calls: seq<Call>, n: nat, hit: Option<string>)
    requires n < |calls|
  {
    hit.Some? ==>
      && calls[n].GetCall? && LatestSet(calls[..n], calls[n].key).Some?
      && LatestSet(calls[..n], calls[n].key).value.0 == hit.value
      && LatestSet(calls[..n], calls[n].key).value.1 > calls[n].now
  }

  method TakeCall(cache: ResponseCache, call: Call) returns (hit: Option<string>)
    requires cache.Valid()
    modifies cache
    ensures cache.Valid()
    ensures hit.Some? ==>
      && call.GetCall? && call.key in old(cache.memory.latest)
      && old(cache.memory.latest)[call.key].0 == hit.value && old(cache.memory.latest)[call.key].1 > call.now
    ensures cache.memory.latest ==
      if call.SetCall? && call.body.Some? && cache.maxEntries > 0 && cache.maxBytes > 0
      then old(cache.memory.latest)[call.key := (call.body.value, call.now + call.ttlMs)] else old(cache.memory.latest)
  {
    hide TotalSize, Recalls, Find, Without, Unexpired, Evict, ByteLength;
    hit := None;
    match call {
      case GetCall(key, now) => hit := cache.Get(key, now);
      case SetCall(key, ttlMs, body, now) => var _ := cache.Set(key, ttlMs, body, now);
      case ClearCall => cache.Clear();
    }
  }

  /** Whatever the calls and the clock, every hit is the unexpired body of the latest set of its key. */
  method RunCalls(maxEntries: int, maxBytes: int, calls: seq<Call>) returns (cache: ResponseCache, hits: seq<Option<string>>)
    ensures fresh(cache) && cache.Valid() && |hits| == |calls|
    ensures forall n :: 0 <= n < |calls| ==> GoodHit(calls, n, hits[n])
  {
    hide LatestSet, Told, TotalSize, Recalls, GoodHit;
    cache := new ResponseCache(maxEntries, maxBytes);
    hits := [];
    NothingTold(calls[..0]);
    for k := 0 to |calls|
      invariant fresh(cache) && cache.Valid() && |hits| == k
      invariant cache.maxEntries == maxEntries && cache.maxBytes == maxBytes
      invariant Told(cache.memory.latest, calls[..k])
      invariant maxEntries <= 0 || maxBytes <= 0 ==> cache.memory.latest == map[]
      invariant forall n :: 0 <= n < k ==> GoodHit(calls, n, hits[n])
    {
      ghost var before := cache.memory.latest;
      var hit := TakeCall(cache, calls[k]);
      HitIsGood(before, calls, k, hit);
      ToldMore(before, cache.memory.latest, calls, k);
      hits := hits + [hit];
    }
  }

  lemma HitIsGood(latest: map<string, (string, int)>, calls: seq<Call>, n: nat, hit: Option<string>)
    requires n < |calls| && Told(latest, calls[..n])
    requires hit.Some? ==> calls[n].GetCall? && calls[n].key in latest && latest[calls[n].key].0 == hit.value && latest[calls[n].key].1 > calls[n].now
    ensures GoodHit(calls, n, hit)
  {
    hide LatestSet;
  }

  lemma NothingTold(calls: seq<Call>)
    ensures Told(map[], calls)
  {
  }
}
