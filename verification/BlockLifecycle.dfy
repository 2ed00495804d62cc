/**
 The life of a found block in the block manager: payout rows are stored, the
 block is marked ready, its recipients are credited, and it is unlocked; or
 it is orphaned and invalidated. Daemon replies, lookups and transactions may
 answer anything or fail; SQL transactions are atomic, writes to the local
 block store succeed, and hashes are distinct.
 */
module BlockLifecycle {
  import opened Wrappers

  type Hash = string

  /** Main-chain blocks are stored by height, blocks of other coins by id. */
  datatype Key = Main(height: nat) | Alt(id: nat)

  datatype Block = Block(
    hash: Hash, valid: bool, unlocked: bool, payReady: bool, pplns: bool,
    value: nat, payValue: nat, anchorHeight: nat, height: nat)

  const BLOCK_HASH_CONFIRM_DELAY: int := 5
  const ALTBLOCK_PRECALC_DELAY: int := 720
  const MAX_ANCHOR_PRECALC_PER_CYCLE: nat := 10

  // ------------------------------------------------------------------
  // What happened to the blocks, in order
  // ------------------------------------------------------------------

  datatype Event = Stored(hash: Hash) | MarkedReady(hash: Hash) | Invalidated(hash: Hash) | CreditedTo(hash: Hash)

  type Log = seq<Event>

  /** Its rows were stored, and after that it was marked ready. */
  ghost predicate ReadyForPayout(log: Log, hash: Hash) {
    exists a, b :: 0 <= a < b < |log| && log[a] == Stored(hash) && log[b] == MarkedReady(hash)
  }

  /** Every credit is the first for its block, comes after its rows and its mark, and not after its invalidation. */
  ghost predicate Lawful(log: Log) {
    forall i :: 0 <= i < |log| && log[i].CreditedTo? ==>
      && CreditedTo(log[i].hash) !in log[..i]
      && Invalidated(log[i].hash) !in log[..i]
      && ReadyForPayout(log[..i], log[i].hash)
  }

  lemma ReadyStays(log: Log, more: Log, hash: Hash)
    requires ReadyForPayout(log, hash)
    ensures ReadyForPayout(log + more, hash)
  {
    var a, b :| 0 <= a < b < |log| && log[a] == Stored(hash) && log[b] == MarkedReady(hash);
    assert (log + more)[a] == Stored(hash) && (log + more)[b] == MarkedReady(hash);
  }

  lemma BecomesReady(log: Log, hash: Hash)
    requires Stored(hash) in log
    ensures ReadyForPayout(log + [MarkedReady(hash)], hash)
  {
    var a :| 0 <= a < |log| && log[a] == Stored(hash);
    assert (log + [MarkedReady(hash)])[a] == Stored(hash) && (log + [MarkedReady(hash)])[|log|] == MarkedReady(hash);
  }

  lemma LawfulAppend(log: Log, e: Event)
    requires Lawful(log)
    requires e.CreditedTo? ==> e !in log && Invalidated(e.hash) !in log && ReadyForPayout(log, e.hash)
    ensures Lawful(log + [e])
  {
    var more := log + [e];
    forall i | 0 <= i < |more| && more[i].CreditedTo?
      ensures CreditedTo(more[i].hash) !in more[..i] && Invalidated(more[i].hash) !in more[..i] && ReadyForPayout(more[..i], more[i].hash)
    {
      assert more[..i] == log[..i];
      assert log[..|log|] == log;
    }
  }

  // ------------------------------------------------------------------
  // Replies
  // ------------------------------------------------------------------

  datatype HeaderReply = HeaderReply(error: bool, hash: Option<Hash>, orphan: bool)

  datatype PrecalcReply = PrecalcOk | PrecalcNothing | PrecalcRowsLost | PrecalcThrows

  /** How a payout attempt can go; the transaction has committed in the last two only. */
  datatype PayoutReply = NotPaid | StopUnpaid | PayoutThrows | PaidThenStop | Paid

  /** Everything the outside answers in one cycle; each question is asked at most once per block and cycle. */
  datatype Replies = Replies(
    top: Option<int>,
    byHeight: Key -> HeaderReply,
    byHash: Key -> HeaderReply,
    skipFallback: Key -> bool,
    headerMatches: Key -> bool,
    anchorHeader: nat -> bool,
    precalc: Key -> PrecalcReply,
    anchorPrecalc: nat -> PrecalcReply,
    payout: Key -> PayoutReply)

  // ------------------------------------------------------------------
  // The block store and the log
  // ------------------------------------------------------------------

  type Table = map<Key, Block>

  /**
   The blocks of one kind that are valid and locked. The cursor takes a key of zero, the least there can be, for the end,
   so that nothing is listed when there is one.
   */
  function Listed(table: Table, zero: Key): Table {
    if zero in table then map[]
    else map k | k in table && k.Main? == zero.Main? && table[k].valid && !table[k].unlocked :: table[k]
  }

  /** What the store says about a block is what happened to it. */
  ghost predicate Settled(b: Block, log: Log) {
    && (b.payReady ==> ReadyForPayout(log, b.hash))
    && (Invalidated(b.hash) in log ==> !b.valid)
  }

  /** Unless credits have been stopped for good, a credited block is unlocked, and will not be looked at again. */
  ghost predicate Consistent(table: Table, log: Log, stopped: bool) {
    && (forall j, k :: j in table && k in table && j != k ==> table[j].hash != table[k].hash)
    && Lawful(log)
    && (forall k :: k in table ==> Settled(table[k], log))
    && (!stopped ==> forall k :: k in table && CreditedTo(table[k].hash) in log ==> table[k].unlocked)
    && (forall e :: e in log ==> Known(table, e.hash))
  }

  ghost predicate Known(table: Table, hash: Hash) {
    exists k :: k in table && table[k].hash == hash
  }

  lemma KnownStays(table: Table, table': Table, log: Log)
    requires forall e :: e in log ==> Known(table, e.hash)
    requires forall k :: k in table ==> k in table' && table'[k].hash == table[k].hash
    ensures forall e :: e in log ==> Known(table', e.hash)
  {
    forall e | e in log
      ensures Known(table', e.hash)
    {
      var k :| k in table && table[k].hash == e.hash;
      assert k in table' && table'[k].hash == e.hash;
    }
  }

  /** A block as the cycle saw it when it began, of which nothing has become of yet. */
  ghost predicate Open(table: Table, log: Log, k: Key, b: Block) {
    && k in table && table[k].hash == b.hash
    && CreditedTo(b.hash) !in log && Invalidated(b.hash) !in log
    && (b.payReady ==> ReadyForPayout(log, b.hash))
  }

  /** The event is about one of the blocks at these keys. */
  ghost predicate About(e: Event, table: Table, keys: set<Key>) {
    exists j :: j in keys && j in table && table[j].hash == e.hash
  }

  /** Only the blocks at these keys were touched, and nothing that happened is forgotten. */
  ghost predicate OnlyTouches(table: Table, log: Log, table': Table, log': Log, keys: set<Key>) {
    && table'.Keys == table.Keys
    && (forall j :: j in table ==> table'[j].hash == table[j].hash)
    && (forall j :: j in table && j !in keys ==> table'[j] == table[j])
    && log <= log'
    && (forall i :: |log| <= i < |log'| ==> About(log'[i], table, keys))
  }

  lemma AboutMore(e: Event, table: Table, keys: set<Key>, table': Table, more: set<Key>)
    requires About(e, table, keys) && keys <= more
    requires forall j :: j in table ==> j in table' && table'[j].hash == table[j].hash
    ensures About(e, table', more)
  {
    var j :| j in keys && j in table && table[j].hash == e.hash;
    assert j in more && j in table' && table'[j].hash == e.hash;
  }

  lemma TouchesCompose(t0: Table, l0: Log, t1: Table, l1: Log, t2: Table, l2: Log, keys: set<Key>, more: set<Key>)
    requires OnlyTouches(t0, l0, t1, l1, keys) && OnlyTouches(t1, l1, t2, l2, more)
    ensures OnlyTouches(t0, l0, t2, l2, keys + more)
  {
    hide About;
    forall i | |l0| <= i < |l2|
      ensures About(l2[i], t0, keys + more)
    {
      if i < |l1| {
        assert l1[i] == l2[i];
        AboutMore(l1[i], t0, keys, t0, keys + more);
      } else {
        AboutMore(l2[i], t1, more, t0, keys + more);
      }
    }
  }

  lemma TouchesMore(table: Table, log: Log, table': Table, log': Log, keys: set<Key>, more: set<Key>)
    requires OnlyTouches(table, log, table', log', keys) && keys <= more
    ensures OnlyTouches(table, log, table', log', more)
  {
    hide About;
    forall i | |log| <= i < |log'|
      ensures About(log'[i], table, more)
    {
      AboutMore(log'[i], table, keys, table, more);
    }
  }

  /** What the cycle has still to look at stays as it was seen. */
  lemma StaysOpen(table: Table, log: Log, stopped: bool, table': Table, log': Log, keys: set<Key>, k: Key, b: Block)
    requires Consistent(table, log, stopped) && OnlyTouches(table, log, table', log', keys)
    requires Open(table, log, k, b) && k !in keys
    ensures Open(table', log', k, b)
  {
    forall i | |log| <= i < |log'|
      ensures log'[i].hash != b.hash
    {
      assert About(log'[i], table, keys);
      var j :| j in keys && j in table && table[j].hash == log'[i].hash;
      assert j != k;
    }
    assert forall e :: e in log' && e.hash == b.hash ==> e in log;
    if b.payReady {
      assert log' == log + log'[|log|..];
      ReadyStays(log, log'[|log|..], b.hash);
    }
  }

  /** One event, and what it does to the record of its block. */
  lemma ConsistentStep(table: Table, log: Log, stopped: bool, k: Key, b: Block, e: Event, stopped': bool)
    requires Consistent(table, log, stopped) && k in table
    requires b.hash == table[k].hash == e.hash && Settled(b, log + [e])
    requires e.CreditedTo? ==> e !in log && Invalidated(e.hash) !in log && ReadyForPayout(log, e.hash)
    requires stopped ==> stopped'
    requires !stopped' && CreditedTo(e.hash) in log + [e] ==> b.unlocked
    ensures Consistent(table[k := b], log + [e], stopped')
    ensures OnlyTouches(table, log, table[k := b], log + [e], {k})
  {
    hide Lawful, ReadyForPayout;
    LawfulAppend(log, e);
    assert About(e, table, {k}) by { assert k in {k} && table[k].hash == e.hash; }
    var more := log + [e];
    KnownStays(table, table[k := b], log);
    assert Known(table[k := b], e.hash) by { assert k in table[k := b]; }
    forall j | j in table && j != k
      ensures Settled(table[j], more)
      ensures CreditedTo(table[j].hash) in more ==> CreditedTo(table[j].hash) in log
    {
      assert Settled(table[j], log);
      if table[j].payReady {
        ReadyStays(log, [e], table[j].hash);
      }
    }
  }

  // ------------------------------------------------------------------
  // What becomes of a block
  // ------------------------------------------------------------------

  datatype State = State(table: Table, rows: set<Hash>, log: Log, stopped: bool)

  /** What becomes of a block: orphaned, marked ready, its rows lost, its recipients credited, and it unlocked after that. */
  datatype Fate = Fate(orphaned: bool, marked: bool, rowsLost: bool, credited: bool, unlocked: bool)

  const NOTHING: Fate := Fate(false, false, false, false, false)

  ghost predicate Happened(log: Log, log': Log, e: Event) {
    exists i :: |log| <= i < |log'| && log'[i] == e
  }

  /** The record, the rows and the events of a block, before and after. */
  ghost predicate Became(s: State, s': State, k: Key, f: Fate) {
    && k in s.table && k in s'.table
    && var b := s.table[k];
       && s'.table[k] == b.(valid := b.valid && !f.orphaned, unlocked := b.unlocked || f.orphaned || f.unlocked, payReady := b.payReady || f.marked)
       && (b.hash in s'.rows <==> f.marked || (b.hash in s.rows && !f.rowsLost))
       && (Happened(s.log, s'.log, Invalidated(b.hash)) <==> f.orphaned)
       && (Happened(s.log, s'.log, Stored(b.hash)) <==> f.marked)
       && (Happened(s.log, s'.log, MarkedReady(b.hash)) <==> f.marked)
       && (Happened(s.log, s'.log, CreditedTo(b.hash)) <==> f.credited)
  }

  /** Payout rows came and went for the blocks at these keys only. */
  ghost predicate RowsWithin(table: Table, rows: set<Hash>, rows': set<Hash>, keys: set<Key>) {
    forall h :: (h in rows) != (h in rows') ==> HashAmong(table, keys, h)
  }

  ghost predicate HashAmong(table: Table, keys: set<Key>, h: Hash) {
    exists j :: j in keys && j in table && table[j].hash == h
  }

  ghost predicate Within(s: State, s': State, keys: set<Key>) {
    OnlyTouches(s.table, s.log, s'.table, s'.log, keys) && RowsWithin(s.table, s.rows, s'.rows, keys)
  }

  ghost predicate DistinctHashes(table: Table) {
    forall j, k :: j in table && k in table && j != k ==> table[j].hash != table[k].hash
  }

  lemma ConsistentIsDistinct(table: Table, log: Log, stopped: bool)
    requires Consistent(table, log, stopped)
    ensures DistinctHashes(table)
  {
  }

  lemma WithinNothing(s: State, s': State)
    requires s'.table == s.table && s'.log == s.log && s'.rows == s.rows
    ensures Within(s, s', {})
  {
  }

  lemma HashAmongMore(table: Table, keys: set<Key>, table': Table, more: set<Key>, h: Hash)
    requires HashAmong(table, keys, h) && keys <= more
    requires forall j :: j in table ==> j in table' && table'[j].hash == table[j].hash
    ensures HashAmong(table', more, h)
  {
    var j :| j in keys && j in table && table[j].hash == h;
    assert j in more && j in table' && table'[j].hash == h;
  }

  lemma WithinMore(s: State, s': State, keys: set<Key>, more: set<Key>)
    requires Within(s, s', keys) && keys <= more
    ensures Within(s, s', more)
  {
    hide HashAmong, OnlyTouches;
    TouchesMore(s.table, s.log, s'.table, s'.log, keys, more);
    forall h | (h in s.rows) != (h in s'.rows)
      ensures HashAmong(s.table, more, h)
    {
      HashAmongMore(s.table, keys, s.table, more, h);
    }
  }

  lemma SameHashes(table: Table, log: Log, table': Table, log': Log, keys: set<Key>)
    requires OnlyTouches(table, log, table', log', keys)
    ensures table'.Keys == table.Keys && forall j :: j in table ==> j in table' && table'[j].hash == table[j].hash
  {
  }

  lemma WithinThen(s: State, s': State, s'': State, keys: set<Key>, more: set<Key>)
    requires Within(s, s', keys) && Within(s', s'', more)
    ensures Within(s, s'', keys + more)
  {
    hide HashAmong, OnlyTouches;
    TouchesCompose(s.table, s.log, s'.table, s'.log, s''.table, s''.log, keys, more);
    SameHashes(s.table, s.log, s'.table, s'.log, keys);
    forall h | (h in s.rows) != (h in s''.rows)
      ensures HashAmong(s.table, keys + more, h)
    {
      if (h in s.rows) != (h in s'.rows) {
        HashAmongMore(s.table, keys, s.table, keys + more, h);
      } else {
        HashAmongMore(s'.table, more, s.table, keys + more, h);
      }
    }
  }

  /** A block outside the keys keeps its record and its rows, and nothing happens to it. */
  lemma OutsideIsUntouched(s: State, s': State, keys: set<Key>, k: Key)
    requires Within(s, s', keys) && DistinctHashes(s.table) && k in s.table && k !in keys
    ensures k in s'.table && s'.table[k] == s.table[k]
    ensures s.table[k].hash in s'.rows <==> s.table[k].hash in s.rows
    ensures forall i :: |s.log| <= i < |s'.log| ==> s'.log[i].hash != s.table[k].hash
    ensures Became(s, s', k, NOTHING)
  {
    var h := s.table[k].hash;
    forall i | |s.log| <= i < |s'.log|
      ensures s'.log[i].hash != h
    {
      assert About(s'.log[i], s.table, keys);
    }
    assert !HashAmong(s.table, keys, h);
  }

  lemma HappenedThen(log: Log, log': Log, log'': Log, e: Event)
    requires log <= log' <= log''
    ensures Happened(log, log'', e) <==> Happened(log, log', e) || Happened(log', log'', e)
  {
    if Happened(log, log', e) {
      var i :| |log| <= i < |log'| && log'[i] == e;
      assert log''[i] == e;
    }
  }

  lemma AllHappenedThen(s: State, s': State, s'': State, h: Hash)
    requires s.log <= s'.log <= s''.log
    ensures forall e: Event :: e.hash == h ==> (Happened(s.log, s''.log, e) <==> Happened(s.log, s'.log, e) || Happened(s'.log, s''.log, e))
  {
    forall e: Event | e.hash == h
      ensures Happened(s.log, s''.log, e) <==> Happened(s.log, s'.log, e) || Happened(s'.log, s''.log, e)
    {
      HappenedThen(s.log, s'.log, s''.log, e);
    }
  }

  /** What became of a block is not changed by what is done to others later. */
  lemma StaysBecome(s: State, s': State, s'': State, keys: set<Key>, k: Key, f: Fate)
    requires s.log <= s'.log && Became(s, s', k, f) && s'.table[k].hash == s.table[k].hash
    requires Within(s', s'', keys) && DistinctHashes(s'.table) && k !in keys
    ensures Became(s, s'', k, f)
  {
    LogGrows(s'.table, s'.log, s''.table, s''.log, keys);
    OutsideIsUntouched(s', s'', keys, k);
    hide Within;
    AllHappenedThen(s, s', s'', s.table[k].hash);
  }

  /** Nor by what was done before that left it alone. */
  lemma LaterBecomes(s: State, s': State, s'': State, k: Key, f: Fate)
    requires s.log <= s'.log <= s''.log && Became(s, s', k, NOTHING) && Became(s', s'', k, f)
    ensures Became(s, s'', k, f)
  {
    AllHappenedThen(s, s', s'', s.table[k].hash);
  }

  /** One event decides. */
  lemma BecameByEvent(s: State, s': State, k: Key, e: Event, unlocked: bool)
    requires k in s.table && k in s'.table && e.hash == s.table[k].hash && (e.Invalidated? || e.CreditedTo?)
    requires s'.log == s.log + [e] && s'.rows == s.rows
    requires s'.table[k] == s.table[k].(valid := s.table[k].valid && !e.Invalidated?, unlocked := s.table[k].unlocked || e.Invalidated? || unlocked)
    ensures Became(s, s', k, Fate(e.Invalidated?, false, false, e.CreditedTo?, unlocked))
  {
    assert s'.log[|s.log|] == e;
  }

  // ------------------------------------------------------------------
  // What a cycle of the main chain is to do
  // ------------------------------------------------------------------

  /** The daemon still has a block at its height, and it is this one, with more than five on top. */
  ghost predicate MainConfirmed(b: Block, k: Key, top: int, r: Replies)
    requires k.Main?
  {
    top - k.height > 5 && b.pplns && !r.byHeight(k).error && r.byHeight(k).hash == Some(b.hash)
  }

  ghost predicate MainPays(b: Block, k: Key, top: int, r: Replies, required: int)
    requires k.Main?
  {
    MainConfirmed(b, k, top, r) && b.payReady && top - k.height > required && r.headerMatches(k)
  }

  ghost function MainFate(b: Block, k: Key, top: int, r: Replies, required: int, hasRows: bool): Fate
    requires k.Main?
  {
    Fate(
      orphaned := top - k.height > 5 && b.pplns && !r.byHeight(k).error && r.byHeight(k).hash != Some(b.hash),
      marked := MainConfirmed(b, k, top, r) && !b.payReady && r.precalc(k) == PrecalcOk,
      rowsLost := MainConfirmed(b, k, top, r) && !b.payReady && r.precalc(k) == PrecalcRowsLost,
      credited := MainPays(b, k, top, r, required) && hasRows && r.payout(k) in {PaidThenStop, Paid},
      unlocked := MainPays(b, k, top, r, required) && hasRows && r.payout(k) == Paid)
  }

  ghost predicate MainThrows(b: Block, k: Key, top: int, r: Replies, required: int)
    requires k.Main?
  {
    || (MainConfirmed(b, k, top, r) && !b.payReady && r.precalc(k) == PrecalcThrows)
    || (MainPays(b, k, top, r, required) && r.payout(k) == PayoutThrows)
  }

  ghost predicate MainStops(b: Block, k: Key, top: int, r: Replies, required: int, hasRows: bool)
    requires k.Main?
  {
    MainPays(b, k, top, r, required) && (r.payout(k) == StopUnpaid || (hasRows && r.payout(k) == PaidThenStop))
  }

  /** Valid and locked; a block at height zero ends the list before it begins. */
  ghost predicate MainWaits(table: Table, k: Key) {
    k in table && k.Main? && Main(0) !in table && table[k].valid && !table[k].unlocked
  }

  /** No block below it has thrown. */
  ghost predicate MainReached(table: Table, k: Key, top: int, r: Replies, required: int) {
    MainWaits(table, k) && forall j :: MainWaits(table, j) && j.height < k.height ==> !MainThrows(table[j], j, top, r, required)
  }

  ghost function MainKeys(table: Table): set<Key> {
    set k | k in table && k.Main?
  }

  ghost function AltKeys(table: Table): set<Key> {
    set k | k in table && k.Alt?
  }

  /** A whole cycle over the blocks of the main chain. */
  ghost predicate MainCycle(s: State, s': State, r: Replies, required: int, threw: bool) {
    if s.stopped || r.top.None? then s' == s && !threw
    else
      var top := r.top.value;
      && Within(s, s', MainKeys(s.table))
      && (forall k :: k in s.table ==>
            Became(s, s', k, if MainReached(s.table, k, top, r, required) then MainFate(s.table[k], k, top, r, required, s.table[k].hash in s.rows) else NOTHING))
      && (threw <==> exists k :: MainWaits(s.table, k) && MainThrows(s.table[k], k, top, r, required))
      && (s'.stopped <==> exists k :: MainReached(s.table, k, top, r, required) && MainStops(s.table[k], k, top, r, required, s.table[k].hash in s.rows))
  }

  // ------------------------------------------------------------------
  // What a cycle of the other coins is to do
  // ------------------------------------------------------------------

  /** Ready, and its worth in the main coin is known. */
  ghost predicate AltAsked(b: Block) {
    b.pplns && b.payReady && b.payValue != 0
  }

  /** Not ready yet, and worth something. */
  ghost predicate AltDue(b: Block) {
    b.pplns && !b.payReady && b.value > 0
  }

  ghost predicate AltPays(b: Block, k: Key, r: Replies) {
    AltAsked(b) && !r.byHash(k).orphan && !r.byHash(k).error && r.headerMatches(k)
  }

  /** What the first pass, block by block, is to do. */
  ghost function AltScanFate(b: Block, k: Key, r: Replies, hasRows: bool): Fate {
    Fate(
      orphaned := AltAsked(b) &&
        (|| r.byHash(k).orphan
         || (&& r.byHash(k).error && !r.skipFallback(k) && !r.byHeight(k).error
             && r.byHeight(k).hash.Some? && r.byHeight(k).hash.value != b.hash)),
      marked := false,
      rowsLost := false,
      credited := AltPays(b, k, r) && hasRows && r.payout(k) in {PaidThenStop, Paid},
      unlocked := AltPays(b, k, r) && hasRows && r.payout(k) == Paid)
  }

  ghost predicate AltThrows(b: Block, k: Key, r: Replies) {
    AltPays(b, k, r) && r.payout(k) == PayoutThrows
  }

  ghost predicate AltStops(b: Block, k: Key, r: Replies, hasRows: bool) {
    AltPays(b, k, r) && (r.payout(k) == StopUnpaid || (hasRows && r.payout(k) == PaidThenStop))
  }

  /** Valid and locked, and more than 720 main blocks on top of its anchor. */
  ghost predicate AltWaits(table: Table, k: Key, top: int) {
    k in table && k.Alt? && Alt(0) !in table && table[k].valid && !table[k].unlocked && top - table[k].anchorHeight > 720
  }

  ghost predicate AltReached(table: Table, k: Key, top: int, r: Replies) {
    AltWaits(table, k, top) && forall j :: AltWaits(table, j, top) && j.id < k.id ==> !AltThrows(table[j], j, r)
  }

  ghost predicate NoAltThrows(table: Table, top: int, r: Replies) {
    forall j :: AltWaits(table, j, top) ==> !AltThrows(table[j], j, r)
  }

  /** The greatest multiple of the round that is not above the anchor of a block. */
  ghost function Anchor(b: Block, round: nat): nat
    requires round > 0
  {
    b.anchorHeight / round * round
  }

  /** The anchors of the blocks that are due, rounded down. */
  ghost function AltAnchors(table: Table, top: int, round: nat): set<nat>
    requires round > 0
  {
    set k | k in table && AltWaits(table, k, top) && AltDue(table[k]) :: Anchor(table[k], round)
  }

  ghost function Below(anchors: set<nat>, a: nat): set<nat> {
    set x | x in anchors && x < a
  }

  /** One of the ten least anchors, and no lesser one has thrown. */
  ghost predicate AnchorReached(anchors: set<nat>, a: nat, r: Replies) {
    && a in anchors && |Below(anchors, a)| < 10
    && forall x :: x in anchors && x < a ==> !AnchorThrows(x, r)
  }

  ghost predicate AnchorThrows(a: nat, r: Replies) {
    r.anchorHeader(a) && r.anchorPrecalc(a) == PrecalcThrows
  }

  /** What the second pass, anchor by anchor, is to do to the blocks of an anchor. */
  ghost function AnchorFate(anchors: set<nat>, a: nat, r: Replies): Fate {
    Fate(
      orphaned := false,
      marked := AnchorReached(anchors, a, r) && r.anchorHeader(a) && r.anchorPrecalc(a) == PrecalcOk,
      rowsLost := AnchorReached(anchors, a, r) && r.anchorHeader(a) && r.anchorPrecalc(a) == PrecalcRowsLost,
      credited := false,
      unlocked := false)
  }

  /** What both passes together are to do to a block. */
  ghost function AltFate(s: State, k: Key, top: int, r: Replies, round: nat): Fate
    requires round > 0 && k in s.table
  {
    var b := s.table[k];
    if AltWaits(s.table, k, top) && AltDue(b) && NoAltThrows(s.table, top, r) then
      AnchorFate(AltAnchors(s.table, top, round), Anchor(b, round), r)
    else if AltReached(s.table, k, top, r) then AltScanFate(b, k, r, b.hash in s.rows)
    else NOTHING
  }

  /** A whole cycle over the blocks of the other coins. */
  ghost predicate AltCycle(s: State, s': State, r: Replies, round: nat, threw: bool)
    requires round > 0
  {
    if s.stopped || r.top.None? then s' == s && !threw
    else
      var top := r.top.value;
      && Within(s, s', AltKeys(s.table))
      && (forall k :: k in s.table ==> Became(s, s', k, AltFate(s, k, top, r, round)))
      && (threw <==>
            || !NoAltThrows(s.table, top, r)
            || exists a :: AnchorReached(AltAnchors(s.table, top, round), a, r) && AnchorThrows(a, r))
      && (s'.stopped <==> exists k :: AltReached(s.table, k, top, r) && AltStops(s.table[k], k, r, s.table[k].hash in s.rows))
  }

  // ------------------------------------------------------------------
  // What a whole cycle is to do
  // ------------------------------------------------------------------

  /** The cycle of the main chain threw, or stopped everything. */
  ghost predicate MainEnds(s: State, r: Replies, required: int) {
    && r.top.Some?
    && (|| (exists k :: MainWaits(s.table, k) && MainThrows(s.table[k], k, r.top.value, r, required))
        || (exists k :: MainReached(s.table, k, r.top.value, r, required)
                        && MainStops(s.table[k], k, r.top.value, r, required, s.table[k].hash in s.rows)))
  }

  /** What becomes of a block in a cycle, from the state at its beginning alone. */
  ghost function CycleFate(s: State, k: Key, main: Replies, alt: Replies, required: int, round: nat): Fate
    requires round > 0 && k in s.table
  {
    if s.stopped then NOTHING
    else if k.Main? then
      if main.top.Some? && MainReached(s.table, k, main.top.value, main, required)
      then MainFate(s.table[k], k, main.top.value, main, required, s.table[k].hash in s.rows)
      else NOTHING
    else
      if alt.top.Some? && !MainEnds(s, main, required) then AltFate(s, k, alt.top.value, alt, round) else NOTHING
  }

  ghost predicate CycleDid(s: State, s': State, main: Replies, alt: Replies, required: int, round: nat)
    requires round > 0
  {
    && Within(s, s', s.table.Keys)
    && (forall k :: k in s.table ==> Became(s, s', k, CycleFate(s, k, main, alt, required, round)))
    && (s.stopped ==> s' == s)
  }

  class BlockManager {
    const blocksRequired: int
    const anchorRound: nat
    var table: Table
    var rows: set<Hash>              // blocks with stored payout rows
    var isFullStop: bool
    var paymentInProgress: bool
    var inFlightPrecalc: set<Key>
    ghost var log: Log

    ghost predicate Sound()
      reads this
    {
      anchorRound > 0 && Consistent(table, log, isFullStop)
    }

    /** Between cycles nothing is half done. */
    ghost predicate Valid()
      reads this
    {
      Sound() && !paymentInProgress && inFlightPrecalc == {}
    }

    ghost function Now(): State
      reads this
    {
      State(table, rows, log, isFullStop)
    }

    /** What a turn keeps when it touches only the given blocks. */
    twostate predicate Touched(keys: set<Key>)
      reads this
    {
      && Sound()
      && Within(old(Now()), Now(), keys)
      && (old(isFullStop) ==> isFullStop)
    }

    constructor (blocksRequired: int, anchorRound: nat)
      requires anchorRound > 0
      ensures Valid() && Now() == State(map[], {}, [], false)
      ensures this.blocksRequired == blocksRequired && this.anchorRound == anchorRound
    {
      this.blocksRequired, this.anchorRound := blocksRequired, anchorRound;
      table, rows, isFullStop, paymentInProgress, inFlightPrecalc, log := map[], {}, false, false, {}, [];
    }

    /** A newly found block enters the store. */
    method AddBlock(key: Key, block: Block)
      requires Valid() && key !in table && block.valid && !block.unlocked && !block.payReady
      requires forall k :: k in table ==> table[k].hash != block.hash
      modifies this`table
      ensures Valid() && table == old(table)[key := block] && log == old(log)
    {
      hide Lawful, ReadyForPayout;
      KnownStays(table, table[key := block], log);
      assert forall e :: e in log ==> e.hash != block.hash;
      table := table[key := block];
    }

    // ---------------- single steps ----------------

    method InvalidateBlock(k: Key, ghost b: Block)
      requires Sound() && Open(table, log, k, b)
      modifies this`table, this`log
      ensures Touched({k}) && table == old(table)[k := old(table)[k].(valid := false, unlocked := true)]
      ensures log == old(log) + [Invalidated(b.hash)]
    {
      hide Lawful, ReadyForPayout;
      var record := table[k].(valid := false, unlocked := true);
      assert Settled(table[k], log);
      if record.payReady { ReadyStays(log, [Invalidated(b.hash)], b.hash); }
      ConsistentStep(table, log, isFullStop, k, record, Invalidated(b.hash), isFullStop);
      log := log + [Invalidated(b.hash)];
      table := table[k := record];
    }

    /** The payout rows of a block are replaced. */
    method StoreRows(k: Key, ghost b: Block)
      requires Sound() && Open(table, log, k, b)
      modifies this`rows, this`log
      ensures Touched({k}) && rows == old(rows) + {b.hash} && log == old(log) + [Stored(b.hash)]
      ensures Open(table, log, k, b)
    {
      hide Lawful, ReadyForPayout;
      assert Settled(table[k], log);
      if table[k].payReady || b.payReady { ReadyStaysIfKnown(log, [Stored(b.hash)], b.hash, table[k].payReady || b.payReady); }
      ConsistentStep(table, log, isFullStop, k, table[k], Stored(b.hash), isFullStop);
      assert table[k := table[k]] == table;
      assert HashAmong(table, {k}, b.hash) by { assert k in {k} && table[k].hash == b.hash; }
      log := log + [Stored(b.hash)];
      rows := rows + {table[k].hash};
    }

    method MarkReady(k: Key, ghost b: Block)
      requires Sound() && Open(table, log, k, b) && Stored(b.hash) in log
      modifies this`table, this`log
      ensures Touched({k}) && table == old(table)[k := old(table)[k].(payReady := true)]
      ensures log == old(log) + [MarkedReady(b.hash)]
    {
      hide Lawful, ReadyForPayout, OnlyTouches, Known;
      var record := table[k].(payReady := true);
      assert Settled(table[k], log);
      BecomesReady(log, b.hash);
      ConsistentStep(table, log, isFullStop, k, record, MarkedReady(b.hash), isFullStop);
      log := log + [MarkedReady(b.hash)];
      table := table[k := record];
    }

    /** Credits the recipients in one transaction, then unlocks the block or, when the books look wrong, stops for good. */
    method CreditBlock(k: Key, b: Block, looksWrong: bool)
      requires Sound() && Open(table, log, k, b) && b.payReady
      modifies this`table, this`log, this`isFullStop
      ensures Touched({k}) && log == old(log) + [CreditedTo(b.hash)]
      ensures isFullStop == (old(isFullStop) || looksWrong)
      ensures table == if looksWrong then old(table) else old(table)[k := old(table)[k].(unlocked := true)]
    {
      hide Lawful, ReadyForPayout, OnlyTouches, Known;
      var record := if looksWrong then table[k] else table[k].(unlocked := true);
      assert Settled(table[k], log);
      ReadyStays(log, [CreditedTo(b.hash)], b.hash);
      ConsistentStep(table, log, isFullStop, k, record, CreditedTo(b.hash), isFullStop || looksWrong);
      assert table[k := table[k]] == table;
      log := log + [CreditedTo(b.hash)];
      table := table[k := record];
      isFullStop := isFullStop || looksWrong;
    }

    // ---------------- payouts ----------------

    /** Pays a block whose rows are stored; an exception reaches the caller with nothing credited. */
    method ExecutePayout(k: Key, b: Block, reply: PayoutReply) returns (threw: bool)
      requires Valid() && Open(table, log, k, b) && b.payReady && table[k] == b
      modifies this
      ensures Touched({k}) && Valid()
      ensures var hasRows := b.hash in old(rows);
        && Became(old(Now()), Now(), k, Fate(false, false, false, hasRows && reply in {PaidThenStop, Paid}, hasRows && reply == Paid))
        && (isFullStop <==> old(isFullStop) || reply == StopUnpaid || (hasRows && reply == PaidThenStop))
      ensures threw <==> reply == PayoutThrows
    {
      hide Consistent, ReadyForPayout, OnlyTouches, Became;
      ghost var before := Now();
      WithinNothing(before, before);
      WithinMore(before, before, {}, {k});
      NothingBecame(before, before, k);
      threw := false;
      paymentInProgress := true;
      if reply.StopUnpaid? {
        StopSound(table, log, isFullStop);
        isFullStop := true;
        NothingBecame(before, Now(), k);
        WithinNothing(before, Now());
        WithinMore(before, Now(), {}, {k});
      } else if reply.PayoutThrows? {
        threw := true;
      } else if b.hash in rows {
        if reply.PaidThenStop? {
          CreditBlock(k, b, true);
          BecameByEvent(before, Now(), k, CreditedTo(b.hash), false);
        } else if reply.Paid? {
          CreditBlock(k, b, false);
          BecameByEvent(before, Now(), k, CreditedTo(b.hash), true);
        }
      }
      paymentInProgress := false;
    }

    // ---------------- precalculation ----------------

    /** Stores the rows of a group of blocks, one by one. */
    method StoreGroup(keys: set<Key>, list: Table)
      requires Sound() && keys <= list.Keys && AllOpen(table, log, keys, list)
      modifies this`rows, this`log
      ensures Touched(keys) && AllOpen(table, log, keys, list)
      ensures forall k :: k in keys ==> Happened(old(log), log, Stored(list[k].hash)) && list[k].hash in rows
      ensures forall i :: |old(log)| <= i < |log| ==> log[i].Stored?
    {
      hide Consistent, Within, AllOpen, Happened;
      ghost var start := Now();
      WithinNothing(start, start);
      var remaining := keys;
      assert keys - remaining == {};
      while remaining != {}
        invariant remaining <= keys && Sound()
        invariant Within(start, Now(), keys - remaining) && start.log <= log
        invariant AllOpen(table, log, keys, list)
        invariant forall k :: k in keys - remaining ==> Happened(old(log), log, Stored(list[k].hash)) && list[k].hash in rows
        invariant forall i :: |old(log)| <= i < |log| ==> log[i].Stored?
        decreases remaining
      {
        var k :| k in remaining;
        ghost var before := Now();
        ghost var done := keys - remaining;
        OneOpen(table, log, k, keys, list);
        StoreRows(k, list[k]);
        WithinTouches(before, Now(), {k});
        OthersStayOpen(table, before.log, isFullStop, table, log, k, keys, list);
        WithinThen(start, before, Now(), done, {k});
        HappenedLast(start.log, before.log, Stored(list[k].hash));
        HappenedStays(start.log, before.log, log);
        remaining := remaining - {k};
        assert done + {k} == keys - remaining;
      }
      assert keys - remaining == keys;
    }

    /** Marks a group of blocks ready, one by one. */
    method MarkGroup(keys: set<Key>, list: Table)
      requires Sound() && keys <= list.Keys && AllOpen(table, log, keys, list)
      requires forall k :: k in keys ==> Stored(list[k].hash) in log
      modifies this`table, this`log
      ensures Touched(keys) && MarkedSoFar(old(Now()), Now(), keys, list)
    {
      hide Consistent, AllOpen, MarkedSoFar, Open, Within;
      ghost var start := Now();
      NoneMarked(start, list);
      var remaining := keys;
      assert keys - remaining == {};
      while remaining != {}
        invariant remaining <= keys && Sound()
        invariant AllOpen(table, log, remaining, list)
        invariant forall k :: k in keys ==> Stored(list[k].hash) in log
        invariant MarkedSoFar(start, Now(), keys - remaining, list)
        decreases remaining
      {
        var k :| k in remaining;
        ghost var before := Now();
        ghost var done := keys - remaining;
        OneOpen(table, log, k, remaining, list);
        OpenHashes(table, log, remaining, list);
        MarkReady(k, list[k]);
        WithinTouches(before, Now(), {k});
        RestStayOpen(before.table, before.log, isFullStop, table, log, {k}, remaining, list);
        OneMarked(start, before, Now(), done, k, list);
        remaining := remaining - {k};
        assert done + {k} == keys - remaining;
      }
      assert keys - remaining == keys;
      MarkedIsWithin(start, Now(), keys, list);
    }

    /** Calculates and stores the payout rows of a group of blocks, and marks them ready only when that succeeded. */
    method PreCalculateAndMark(keys: set<Key>, list: Table, reply: PrecalcReply) returns (threw: bool)
      requires Valid() && keys <= list.Keys && AllOpen(table, log, keys, list)
      modifies this
      ensures Touched(keys) && Valid() && isFullStop == old(isFullStop)
      ensures forall k :: k in keys ==>
        Became(old(Now()), Now(), k, Fate(false, reply == PrecalcOk, reply == PrecalcRowsLost, false, false))
      ensures threw <==> reply == PrecalcThrows
    {
      hide Consistent, AllOpen, Within, Became, Happened;
      threw := reply.PrecalcThrows?;
      ghost var start := Now();
      WithinNothing(start, start);
      WithinMore(start, start, {}, keys);
      OpenHashes(table, log, keys, list);
      if keys * inFlightPrecalc != {} { return; }
      inFlightPrecalc := inFlightPrecalc + keys;
      if reply.PrecalcOk? {
        StoreGroup(keys, list);
        ghost var stored := Now();
        WithinTouches(start, stored, keys);
        HappenedIsIn(start.log, stored.log);
        MarkGroup(keys, list);
        WithinThen(start, stored, Now(), keys, keys);
        assert keys + keys == keys;
        WithinTouches(stored, Now(), keys);
        GroupBecameReady(start, stored, Now(), keys, list);
      } else {
        if reply.PrecalcRowsLost? {
          rows := rows - set k | k in keys :: list[k].hash;
        }
        GroupKeptOrLost(start, Now(), keys, list, reply.PrecalcRowsLost?);
      }
      inFlightPrecalc := inFlightPrecalc - keys;
    }

    // ---------------- the two unlockers ----------------

    method HandleMainBlock(k: Key, b: Block, top: int, r: Replies) returns (threw: bool)
      requires Valid() && k.Main? && Open(table, log, k, b) && table[k] == b
      modifies this
      ensures Touched({k}) && Valid()
      ensures Became(old(Now()), Now(), k, MainFate(b, k, top, r, blocksRequired, b.hash in old(rows)))
      ensures threw <==> MainThrows(b, k, top, r, blocksRequired)
      ensures isFullStop <==> old(isFullStop) || MainStops(b, k, top, r, blocksRequired, b.hash in old(rows))
    {
      hide Consistent, Within, Became;
      threw := false;
      ghost var before := Now();
      WithinNothing(before, before);
      WithinMore(before, before, {}, {k});
      NothingBecame(before, before, k);
      if top - k.height <= BLOCK_HASH_CONFIRM_DELAY { return; }
      if !b.pplns { return; }
      var header := r.byHeight(k);
      if header.error { return; }
      if header.hash.None? || header.hash.value != b.hash {
        InvalidateBlock(k, b);
        BecameByEvent(before, Now(), k, Invalidated(b.hash), false);
        return;
      }
      if !b.payReady {
        var list := map[k := b];
        SingleOpen(table, log, k, b);
        threw := PreCalculateAndMark({k}, list, r.precalc(k));
        return;
      }
      if top - k.height > blocksRequired && r.headerMatches(k) {
        threw := ExecutePayout(k, b, r.payout(k));
      }
    }

    /** One cycle over the valid locked blocks of the main chain, lowest first. */
    method RunBlockUnlocker(r: Replies) returns (threw: bool)
      requires Valid()
      modifies this
      ensures Valid() && MainCycle(old(Now()), Now(), r, blocksRequired, threw)
    {
      hide Consistent, Within, AllOpen, Open, Became, MainFate, MainThrows, MainStops, MainProgress, MainCycle;
      threw := false;
      ghost var start := Now();
      if isFullStop || paymentInProgress {
        MainCycleRests(start, r, blocksRequired);
        return;
      }
      var list := Listed(table, Main(0));
      if r.top.None? {
        MainCycleRests(start, r, blocksRequired);
        return;
      }
      MainBegins(start, list, r.top.value, r, blocksRequired);
      var remaining := list.Keys;
      while remaining != {}
        invariant remaining <= list.Keys && Valid()
        invariant MainProgress(start, Now(), list, remaining, r.top.value, r, blocksRequired)
        decreases remaining
      {
        LeastKey(remaining);
        var k :| k in remaining && IsLeast(remaining, k);
        ghost var before := Now();
        MainNext(start, before, list, remaining, k, r.top.value, r, blocksRequired);
        threw := HandleMainBlock(k, list[k], r.top.value, r);
        if threw {
          MainThrew(start, before, Now(), list, remaining, k, r, blocksRequired);
          return;
        }
        MainAdvances(start, before, Now(), list, remaining, k, r.top.value, r, blocksRequired);
        remaining := remaining - {k};
      }
      MainCycleEnded(start, Now(), list, r, blocksRequired);
    }

    /** A block of another coin: grouped for precalculation, invalidated, paid or left alone. */
    method HandleAltBlock(k: Key, b: Block, r: Replies) returns (threw: bool, group: Option<nat>)
      requires Valid() && Open(table, log, k, b) && table[k] == b
      modifies this
      ensures Touched({k}) && Valid()
      ensures group == if AltDue(b) then Some(Anchor(b, anchorRound)) else None
      ensures group.Some? ==> Open(table, log, k, b)
      ensures Became(old(Now()), Now(), k, AltScanFate(b, k, r, b.hash in old(rows)))
      ensures threw <==> AltThrows(b, k, r)
      ensures isFullStop <==> old(isFullStop) || AltStops(b, k, r, b.hash in old(rows))
    {
      hide Consistent, Within, Became, ReadyForPayout;
      threw, group := false, None;
      ghost var before := Now();
      WithinNothing(before, before);
      WithinMore(before, before, {}, {k});
      NothingBecame(before, before, k);
      if !b.pplns { return; }
      if !b.payReady {
        if b.value > 0 {
          RoundedIsMultiple(b.anchorHeight, anchorRound);
          group := Some(b.anchorHeight - b.anchorHeight % anchorRound);
        }
        return;
      }
      if b.payValue == 0 { return; }
      var header := r.byHash(k);
      if header.orphan {
        InvalidateBlock(k, b);
        BecameByEvent(before, Now(), k, Invalidated(b.hash), false);
        return;
      }
      if header.error {
        if r.skipFallback(k) { return; }
        var byHeight := r.byHeight(k);
        if !byHeight.error && byHeight.hash.Some? && byHeight.hash.value != b.hash {
          InvalidateBlock(k, b);
          BecameByEvent(before, Now(), k, Invalidated(b.hash), false);
        }
        return;
      }
      if r.headerMatches(k) {
        threw := ExecutePayout(k, b, r.payout(k));
      }
    }

    /** The first pass over the blocks of other coins, in the order of their ids. */
    method ScanAltBlocks(list: Table, top: int, r: Replies) returns (threw: bool, groups: map<nat, set<Key>>, ghost done: set<Key>)
      requires Valid() && !isFullStop && list == Listed(table, Alt(0))
      modifies this
      ensures Valid()
      ensures Done(old(Now()), Now(), done, AltFates(old(Now()), top, r), AltStopping(old(Now()), top, r))
      ensures forall k :: k in done <==> AltReached(old(table), k, top, r)
      ensures threw <==> !NoAltThrows(old(table), top, r)
      ensures !threw ==> GroupsOf(groups, old(table), done, anchorRound) && AllOpen(table, log, Grouped(groups), list)
    {
      hide Consistent, Within, AllOpen, Open, Became, Done, AltScanFate, AltThrows, AltStops, AltDue, GroupsOf, Grouped, AltProgress, AltReached, NoAltThrows, Anchor, AltFates, AltStopping, AltWaits;
      threw, groups, done := false, map[], {};
      ghost var start := Now();
      AltBegins(start, list, top, r, anchorRound);
      var remaining := list.Keys;
      while remaining != {}
        invariant remaining <= list.Keys && Valid()
        invariant AltProgress(start, Now(), list, remaining, done, groups, top, r, anchorRound)
        decreases remaining
      {
        LeastKey(remaining);
        var k :| k in remaining && IsLeast(remaining, k);
        ghost var before := Now();
        AltNext(start, before, list, remaining, done, groups, k, top, r, anchorRound);
        if top - list[k].anchorHeight > ALTBLOCK_PRECALC_DELAY {
          var group;
          threw, group := HandleAltBlock(k, list[k], r);
          if threw {
            AltThrew(start, before, Now(), list, remaining, done, groups, k, top, r, anchorRound);
            done := done + {k};
            return;
          }
          AltAdvances(start, before, Now(), list, remaining, done, groups, k, top, r, anchorRound);
          done := done + {k};
          if group.Some? {
            groups := groups[group.value := (if group.value in groups then groups[group.value] else {}) + {k}];
          }
        } else {
          AltSkips(start, before, list, remaining, done, groups, k, top, r, anchorRound);
        }
        remaining := remaining - {k};
      }
      AltScanned(start, Now(), list, done, groups, top, r, anchorRound);
    }

    /** One cycle over the valid locked blocks of other coins. */
    method RunAltblockUnlocker(r: Replies) returns (threw: bool)
      requires Valid()
      modifies this
      ensures Valid() && AltCycle(old(Now()), Now(), r, anchorRound, threw)
    {
      hide Consistent, Within, AllOpen, Open, Became, DistinctHashes, Done, AltReached, AltFates, AltStopping, GroupsOf, Grouped, AltCycle, AnchorReached, AnchorThrows;
      threw := false;
      ghost var start := Now();
      if isFullStop || paymentInProgress {
        AltCycleRests(start, r, anchorRound);
        return;
      }
      var list := Listed(table, Alt(0));
      if r.top.None? {
        AltCycleRests(start, r, anchorRound);
        return;
      }
      ConsistentIsDistinct(table, log, isFullStop);
      var groups;
      ghost var done;
      threw, groups, done := ScanAltBlocks(list, r.top.value, r);
      ghost var scanned := Now();
      if threw {
        AltCycleThrew(start, scanned, done, r, anchorRound);
        return;
      }
      AltListIs(start.table, list, r.top.value);
      AltReachedIsListed(start.table, done, r.top.value, r);
      GroupsAreWell(groups, start.table, list, done, anchorRound);
      ConsistentIsDistinct(table, log, isFullStop);
      threw := PrecalculateGroups(list, groups, r);
      AltCycleEnded(start, scanned, Now(), done, groups, r, anchorRound, threw);
    }

    /** The second pass: at most ten anchors a cycle, the least first. */
    method PrecalculateGroups(list: Table, groups: map<nat, set<Key>>, r: Replies) returns (threw: bool)
      requires Valid()
      requires WellGrouped(groups, list, anchorRound)
      requires AllOpen(table, log, Grouped(groups), list)
      modifies this
      ensures Valid() && isFullStop == old(isFullStop)
      ensures GroupsDone(old(Now()), Now(), groups, r)
      ensures threw <==> exists a :: AnchorReached(groups.Keys, a, r) && AnchorThrows(a, r)
    {
      hide Consistent, Within, AllOpen, Open, WellGrouped, GroupedOver, Became, AnchorThrows, AnchorReached, GroupProgress, GroupsDone, PlainFate;
      threw := false;
      ghost var start := Now();
      var remaining := groups.Keys;
      var preCalcCount := 0;
      GroupsBegin(start, list, groups, r, anchorRound);
      while remaining != {} && preCalcCount < MAX_ANCHOR_PRECALC_PER_CYCLE
        invariant remaining <= groups.Keys && Valid() && isFullStop == start.stopped
        invariant preCalcCount == |groups.Keys - remaining| <= 10
        invariant GroupProgress(start, Now(), list, groups, remaining, r, anchorRound)
        decreases remaining
      {
        LeastAnchor(remaining);
        var a :| a in remaining && IsLeastAnchor(remaining, a);
        ghost var before := Now();
        NextGroup(start, before, list, groups, remaining, a, r, anchorRound);
        preCalcCount := preCalcCount + 1;
        if r.anchorHeader(a) {
          threw := PreCalculateAndMark(groups[a], list, r.anchorPrecalc(a));
          PlainFateIs(a, r);
          if threw {
            GroupThrew(start, before, Now(), list, groups, remaining, a, r, anchorRound);
            return;
          }
          GroupAdvances(start, before, Now(), list, groups, remaining, a, r, anchorRound);
        } else {
          GroupSkips(start, before, list, groups, remaining, a, r, anchorRound);
        }
        OneFewer(groups.Keys, remaining, a);
        remaining := remaining - {a};
      }
      GroupsEnded(start, Now(), list, groups, remaining, r, anchorRound);
    }

    /** The main chain first, then the other coins unless that threw or stopped everything. */
    method RunCycle(main: Replies, alt: Replies)
      requires Valid()
      modifies this
      ensures Valid() && CycleDid(old(Now()), Now(), main, alt, blocksRequired, anchorRound)
    {
      hide Consistent, MainCycle, AltCycle, CycleDid;
      ghost var start := Now();
      ConsistentIsDistinct(table, log, isFullStop);
      var threw := RunBlockUnlocker(main);
      ghost var middle := Now();
      if threw {
        CycleThrew(start, middle, main, alt, blocksRequired, anchorRound);
        return;
      }
      threw := RunAltblockUnlocker(alt);
      CycleComposes(start, middle, Now(), main, alt, blocksRequired, anchorRound, threw);
    }
  }

  lemma WithinTouches(s: State, s': State, keys: set<Key>)
    requires Within(s, s', keys)
    ensures OnlyTouches(s.table, s.log, s'.table, s'.log, keys) && s.log <= s'.log
    ensures s'.table.Keys == s.table.Keys && forall j :: j in s.table && j !in keys ==> j in s'.table && s'.table[j] == s.table[j]
  {
  }

  lemma NothingBecame(s: State, s': State, k: Key)
    requires k in s.table && s'.table == s.table && s'.rows == s.rows && s'.log == s.log
    ensures Became(s, s', k, NOTHING)
  {
  }

  lemma HappenedLast(log: Log, log': Log, e: Event)
    requires log <= log'
    ensures Happened(log, log' + [e], e)
  {
    assert (log' + [e])[|log'|] == e;
  }

  lemma HappenedStays(log: Log, log': Log, log'': Log)
    requires log <= log' <= log''
    ensures forall e :: Happened(log, log', e) ==> Happened(log, log'', e)
  {
    forall e | Happened(log, log', e)
      ensures Happened(log, log'', e)
    {
      HappenedThen(log, log', log'', e);
    }
  }

  lemma HappenedIsIn(log: Log, log': Log)
    ensures forall e :: Happened(log, log', e) ==> e in log'
  {
  }

  ghost predicate NewlyMarked(s: State, s': State, k: Key, h: Hash) {
    && k in s.table && k in s'.table && s'.table[k] == s.table[k].(payReady := true)
    && Happened(s.log, s'.log, MarkedReady(h))
  }

  /** These blocks were marked ready, and nothing else happened. */
  ghost predicate MarkedSoFar(s: State, s': State, done: set<Key>, list: Table) {
    && Within(s, s', done) && s.log <= s'.log
    && (forall k :: k in done ==> k in list && NewlyMarked(s, s', k, list[k].hash))
    && (forall i :: |s.log| <= i < |s'.log| ==> s'.log[i].MarkedReady?)
  }

  lemma NoneMarked(s: State, list: Table)
    ensures MarkedSoFar(s, s, {}, list)
  {
    WithinNothing(s, s);
  }

  lemma MarkedIsWithin(s: State, s': State, done: set<Key>, list: Table)
    requires MarkedSoFar(s, s', done, list)
    ensures Within(s, s', done)
  {
  }

  lemma OneMarked(s: State, s': State, s'': State, done: set<Key>, k: Key, list: Table)
    requires MarkedSoFar(s, s', done, list) && k !in done && k in list && k in s'.table && s'.table[k].hash == list[k].hash
    requires Within(s', s'', {k}) && s''.table == s'.table[k := s'.table[k].(payReady := true)]
    requires s''.log == s'.log + [MarkedReady(list[k].hash)]
    ensures MarkedSoFar(s, s'', done + {k}, list)
  {
    hide Within, Happened;
    WithinThen(s, s', s'', done, {k});
    WithinTouches(s, s', done);
    HappenedLast(s.log, s'.log, MarkedReady(list[k].hash));
    HappenedStays(s.log, s'.log, s''.log);
  }

  /** Rows stored and then marked, of a group of blocks. */
  lemma GroupBecameReady(s: State, s': State, s'': State, keys: set<Key>, list: Table)
    requires s'.table == s.table && s.log <= s'.log && s''.rows == s'.rows && keys <= list.Keys
    requires forall k :: k in keys ==>
      && k in s.table && s.table[k].hash == list[k].hash && Happened(s.log, s'.log, Stored(list[k].hash)) && list[k].hash in s'.rows
    requires forall i :: |s.log| <= i < |s'.log| ==> s'.log[i].Stored?
    requires MarkedSoFar(s', s'', keys, list)
    ensures forall k :: k in keys ==> Became(s, s'', k, Fate(false, true, false, false, false))
  {
    hide Within;
    forall k | k in keys
      ensures Became(s, s'', k, Fate(false, true, false, false, false))
    {
      AllHappenedThen(s, s', s'', s.table[k].hash);
    }
  }

  lemma GroupKeptOrLost(s: State, s': State, keys: set<Key>, list: Table, lost: bool)
    requires s'.table == s.table && s.log == s'.log && keys <= list.Keys
    requires forall k :: k in keys ==> k in s.table && s.table[k].hash == list[k].hash
    requires s'.rows == if lost then s.rows - set k | k in keys :: list[k].hash else s.rows
    ensures Within(s, s', keys)
    ensures forall k :: k in keys ==> Became(s, s', k, Fate(false, false, lost, false, false))
  {
    forall h | (h in s.rows) != (h in s'.rows)
      ensures HashAmong(s.table, keys, h)
    {
      var k :| k in keys && list[k].hash == h;
      assert k in keys && k in s.table && s.table[k].hash == h;
    }
  }

  function Rank(k: Key): nat {
    match k
    case Main(height) => height
    case Alt(id) => id
  }

  predicate IsLeast(keys: set<Key>, k: Key) {
    k in keys && forall j :: j in keys ==> Rank(k) <= Rank(j)
  }

  lemma {:induction false} LeastKey(keys: set<Key>)
    requires keys != {}
    ensures exists k :: k in keys && IsLeast(keys, k)
    decreases |keys|
  {
    var k :| k in keys;
    var rest := keys - {k};
    if rest == {} {
      assert keys == {k};
      assert IsLeast(keys, k);
    } else {
      LeastKey(rest);
      var m :| m in rest && IsLeast(rest, m);
      assert IsLeast(keys, if Rank(m) <= Rank(k) then m else k);
    }
  }

  // ------------------------------------------------------------------
  // A cycle of the main chain, block by block
  // ------------------------------------------------------------------

  lemma MainListIs(table: Table, list: Table)
    requires list == Listed(table, Main(0))
    ensures forall k :: k in list <==> MainWaits(table, k)
    ensures forall k :: k in list ==> k.Main? && list[k] == table[k]
  {
  }

  /** These blocks have been handled, and no others. */
  ghost predicate Done(s: State, s': State, done: set<Key>, fates: map<Key, Fate>, stops: set<Key>) {
    && Within(s, s', done)
    && (forall k :: k in done ==> k in fates && Became(s, s', k, fates[k]))
    && (s'.stopped <==> s.stopped || exists k :: k in done && k in stops)
  }

  lemma NoneDone(s: State, fates: map<Key, Fate>, stops: set<Key>)
    ensures Done(s, s, {}, fates, stops)
  {
    WithinNothing(s, s);
  }

  lemma DoneKeeps(s: State, s': State, done: set<Key>, fates: map<Key, Fate>, stops: set<Key>, k: Key)
    requires Done(s, s', done, fates, stops) && DistinctHashes(s.table) && k in s.table && k !in done
    ensures k in s'.table && s'.table[k] == s.table[k]
    ensures s.table[k].hash in s'.rows <==> s.table[k].hash in s.rows
    ensures Became(s, s', k, NOTHING)
  {
    OutsideIsUntouched(s, s', done, k);
  }

  lemma DoneStep(s: State, m: State, s': State, done: set<Key>, k: Key, fates: map<Key, Fate>, stops: set<Key>)
    requires DistinctHashes(s.table) && DistinctHashes(m.table)
    requires Done(s, m, done, fates, stops) && k in s.table && k !in done
    requires Within(m, s', {k}) && k in fates && Became(m, s', k, fates[k])
    requires s'.stopped <==> m.stopped || k in stops
    ensures Done(s, s', done + {k}, fates, stops)
  {
    hide Within, Became, DistinctHashes;
    WithinThen(s, m, s', done, {k});
    WithinTouches(s, m, done);
    WithinTouches(m, s', {k});
    OutsideIsUntouched(s, m, done, k);
    LaterBecomes(s, m, s', k, fates[k]);
    SameHashes(s.table, s.log, m.table, m.log, done);
    forall j | j in done
      ensures Became(s, s', j, fates[j])
    {
      BecameInTable(s, m, j, fates[j]);
      StaysBecome(s, m, s', {k}, j, fates[j]);
    }
  }

  lemma BecameInTable(s: State, s': State, k: Key, f: Fate)
    requires Became(s, s', k, f)
    ensures k in s.table && k in s'.table
  {
  }

  ghost function MainFates(s: State, top: int, r: Replies, required: int): map<Key, Fate> {
    map k | k in s.table && MainWaits(s.table, k) :: MainFate(s.table[k], k, top, r, required, s.table[k].hash in s.rows)
  }

  ghost function MainStopping(s: State, top: int, r: Replies, required: int): set<Key> {
    set k | k in s.table && MainWaits(s.table, k) && MainStops(s.table[k], k, top, r, required, s.table[k].hash in s.rows)
  }

  /** When the blocks handled are the ones reached, the cycle is done. */
  lemma MainCycleIs(s: State, s': State, done: set<Key>, r: Replies, required: int, threw: bool)
    requires !s.stopped && r.top.Some? && DistinctHashes(s.table) && Done(s, s', done, MainFates(s, r.top.value, r, required), MainStopping(s, r.top.value, r, required))
    requires forall k :: k in done <==> MainReached(s.table, k, r.top.value, r, required)
    requires threw <==> exists k :: MainWaits(s.table, k) && MainThrows(s.table[k], k, r.top.value, r, required)
    ensures MainCycle(s, s', r, required, threw)
  {
    hide Within, Became, MainFate, MainStops, MainThrows, DistinctHashes;
    forall k | k in s.table && k !in done
      ensures Became(s, s', k, NOTHING)
    {
      OutsideIsUntouched(s, s', done, k);
    }
    WithinMore(s, s', done, MainKeys(s.table));
  }

  lemma MainCycleRests(s: State, r: Replies, required: int)
    requires s.stopped || r.top.None?
    ensures MainCycle(s, s, r, required, false)
  {
  }

  /** The listed blocks up to some height have been handled, and none of them threw. */
  ghost predicate MainProgress(s: State, s': State, list: Table, rest: set<Key>, top: int, r: Replies, required: int) {
    && list == Listed(s.table, Main(0)) && rest <= list.Keys && !s.stopped && DistinctHashes(s.table)
    && Done(s, s', list.Keys - rest, MainFates(s, top, r, required), MainStopping(s, top, r, required))
    && (forall j, k :: j in list.Keys - rest && k in rest ==> Rank(j) < Rank(k))
    && (forall j :: j in list.Keys - rest ==> MainWaits(s.table, j) && !MainThrows(s.table[j], j, top, r, required))
    && AllOpen(s'.table, s'.log, rest, list)
  }

  lemma MainBegins(s: State, list: Table, top: int, r: Replies, required: int)
    requires !s.stopped && Consistent(s.table, s.log, s.stopped) && list == Listed(s.table, Main(0))
    ensures MainProgress(s, s, list, list.Keys, top, r, required)
  {
    hide Consistent, AllOpen, MainThrows, MainFates, MainStopping;
    ConsistentIsDistinct(s.table, s.log, s.stopped);
    ListIsOpen(s.table, s.log, list);
    assert list.Keys - list.Keys == {};
    NoneDone(s, MainFates(s, top, r, required), MainStopping(s, top, r, required));
  }

  lemma MainNext(s: State, s': State, list: Table, rest: set<Key>, k: Key, top: int, r: Replies, required: int)
    requires MainProgress(s, s', list, rest, top, r, required) && k in rest
    ensures k in list && Open(s'.table, s'.log, k, list[k]) && MainWaits(s.table, k)
    ensures s'.table[k] == s.table[k] == list[k] && (s.table[k].hash in s'.rows <==> s.table[k].hash in s.rows)
  {
    hide Done, Open, DistinctHashes, MainThrows, MainFates, MainStopping;
    OneOpen(s'.table, s'.log, k, rest, list);
    DoneKeeps(s, s', list.Keys - rest, MainFates(s, top, r, required), MainStopping(s, top, r, required), k);
  }

  lemma DistinctStays(s: State, s': State, keys: set<Key>)
    requires DistinctHashes(s.table) && Within(s, s', keys)
    ensures DistinctHashes(s'.table)
  {
    SameHashes(s.table, s.log, s'.table, s'.log, keys);
    hide Within;
  }

  lemma DoneIsWithin(s: State, s': State, done: set<Key>, fates: map<Key, Fate>, stops: set<Key>)
    requires Done(s, s', done, fates, stops)
    ensures Within(s, s', done)
  {
  }

  /** One more block, whether it threw or not. */
  lemma MainHandled(s: State, m: State, s': State, list: Table, rest: set<Key>, k: Key, top: int, r: Replies, required: int)
    requires MainProgress(s, m, list, rest, top, r, required) && k in rest && MainWaits(s.table, k)
    requires Within(m, s', {k}) && Became(m, s', k, MainFate(s.table[k], k, top, r, required, s.table[k].hash in s.rows))
    requires s'.stopped <==> m.stopped || MainStops(s.table[k], k, top, r, required, s.table[k].hash in s.rows)
    ensures Done(s, s', list.Keys - (rest - {k}), MainFates(s, top, r, required), MainStopping(s, top, r, required))
  {
    hide Done, DistinctHashes, MainThrows, Became, Within, MainFate, MainStops, AllOpen;
    var done := list.Keys - rest;
    DoneIsWithin(s, m, done, MainFates(s, top, r, required), MainStopping(s, top, r, required));
    DistinctStays(s, m, done);
    DoneStep(s, m, s', done, k, MainFates(s, top, r, required), MainStopping(s, top, r, required));
    assert done + {k} == list.Keys - (rest - {k});
  }

  lemma MainAdvances(s: State, m: State, s': State, list: Table, rest: set<Key>, k: Key, top: int, r: Replies, required: int)
    requires MainProgress(s, m, list, rest, top, r, required) && k in rest && IsLeast(rest, k) && MainWaits(s.table, k)
    requires Within(m, s', {k}) && Became(m, s', k, MainFate(s.table[k], k, top, r, required, s.table[k].hash in s.rows))
    requires s'.stopped <==> m.stopped || MainStops(s.table[k], k, top, r, required, s.table[k].hash in s.rows)
    requires !MainThrows(s.table[k], k, top, r, required) && Consistent(m.table, m.log, m.stopped)
    ensures MainProgress(s, s', list, rest - {k}, top, r, required)
  {
    hide Done, DistinctHashes, MainThrows, Became, Within, MainFate, MainStops, AllOpen, Consistent, MainFates, MainStopping, MainWaits;
    MainHandled(s, m, s', list, rest, k, top, r, required);
    WithinTouches(m, s', {k});
    RestStayOpen(m.table, m.log, m.stopped, s'.table, s'.log, {k}, rest, list);
    MainListIs(s.table, list);
    assert forall j :: j in list.Keys - (rest - {k}) ==> j == k || j in list.Keys - rest;
    forall j | j in rest - {k}
      ensures Rank(k) < Rank(j)
    {
      KeysDiffer(k, j);
    }
  }

  lemma KeysDiffer(j: Key, k: Key)
    requires j != k && (j.Main? <==> k.Main?)
    ensures Rank(j) != Rank(k)
  {
  }

  lemma MainThrew(s: State, m: State, s': State, list: Table, rest: set<Key>, k: Key, r: Replies, required: int)
    requires r.top.Some? && MainProgress(s, m, list, rest, r.top.value, r, required) && k in rest && IsLeast(rest, k) && MainWaits(s.table, k)
    requires Within(m, s', {k}) && Became(m, s', k, MainFate(s.table[k], k, r.top.value, r, required, s.table[k].hash in s.rows))
    requires s'.stopped <==> m.stopped || MainStops(s.table[k], k, r.top.value, r, required, s.table[k].hash in s.rows)
    requires MainThrows(s.table[k], k, r.top.value, r, required)
    ensures MainCycle(s, s', r, required, true)
  {
    hide Done, DistinctHashes, MainThrows, Became, Within, MainFate, MainStops, AllOpen, MainFates, MainStopping, MainCycle;
    MainHandled(s, m, s', list, rest, k, r.top.value, r, required);
    MainListIs(s.table, list);
    var done := list.Keys - (rest - {k});
    assert forall j :: j in done ==> j == k || j in list.Keys - rest;
    forall j
      ensures j in done <==> MainReached(s.table, j, r.top.value, r, required)
    {
    }
    MainCycleIs(s, s', done, r, required, true);
  }

  lemma MainCycleEnded(s: State, s': State, list: Table, r: Replies, required: int)
    requires r.top.Some? && MainProgress(s, s', list, {}, r.top.value, r, required)
    ensures MainCycle(s, s', r, required, false)
  {
    hide Done, MainThrows, MainCycle, MainFates, MainStopping, AllOpen, DistinctHashes;
    assert list.Keys - {} == list.Keys;
    MainListIs(s.table, list);
    MainCycleIs(s, s', list.Keys, r, required, false);
  }

  // ------------------------------------------------------------------
  // The first pass over the other coins, block by block
  // ------------------------------------------------------------------

  lemma RoundedIsMultiple(height: nat, round: nat)
    requires round > 0
    ensures height - height % round == height / round * round
  {
  }

  lemma AltListIs(table: Table, list: Table, top: int)
    requires list == Listed(table, Alt(0))
    ensures forall k :: k in list ==> k.Alt? && k in table && list[k] == table[k]
    ensures forall k :: AltWaits(table, k, top) <==> k in list && top - list[k].anchorHeight > 720
  {
  }

  ghost function AltFates(s: State, top: int, r: Replies): map<Key, Fate> {
    map k | k in s.table && AltWaits(s.table, k, top) :: AltScanFate(s.table[k], k, r, s.table[k].hash in s.rows)
  }

  ghost function AltStopping(s: State, top: int, r: Replies): set<Key> {
    set k | k in s.table && AltWaits(s.table, k, top) && AltStops(s.table[k], k, r, s.table[k].hash in s.rows)
  }

  lemma AltThrewAt(table: Table, done: set<Key>, k: Key, rest: set<Key>, top: int, r: Replies)
    requires forall j :: j in done ==> AltWaits(table, j, top) && Rank(j) < Rank(k) && !AltThrows(table[j], j, r)
    requires AltWaits(table, k, top) && AltThrows(table[k], k, r)
    requires forall j :: AltWaits(table, j, top) ==> j in done || j == k || j in rest
    requires forall j :: j in rest ==> Rank(k) < Rank(j)
    ensures forall j :: j in done + {k} <==> AltReached(table, j, top, r)
    ensures !NoAltThrows(table, top, r)
  {
    hide AltThrows;
  }

  lemma AltNoneThrew(table: Table, done: set<Key>, top: int, r: Replies)
    requires forall j :: j in done <==> AltWaits(table, j, top)
    requires forall j :: j in done ==> j in table && !AltThrows(table[j], j, r)
    ensures forall j :: j in done <==> AltReached(table, j, top, r)
    ensures NoAltThrows(table, top, r)
  {
    hide AltThrows, AltWaits;
  }

  lemma AltReachedIsListed(table: Table, done: set<Key>, top: int, r: Replies)
    requires NoAltThrows(table, top, r) && forall k :: k in done <==> AltReached(table, k, top, r)
    ensures forall k :: k in done <==> AltWaits(table, k, top)
  {
    hide AltThrows, AltWaits;
  }

  /** The due blocks among those handled, each under its rounded anchor. */
  ghost predicate GroupsOf(groups: map<nat, set<Key>>, table: Table, done: set<Key>, round: nat)
    requires round > 0
  {
    && (forall a, k :: a in groups && k in groups[a] ==> k in done && k in table && AltDue(table[k]) && a == Anchor(table[k], round))
    && (forall k :: k in done && k in table && AltDue(table[k]) ==>
          Anchor(table[k], round) in groups && k in groups[Anchor(table[k], round)])
    && (forall a :: a in groups ==> groups[a] != {})
  }

  ghost function Grouped(groups: map<nat, set<Key>>): set<Key> {
    GroupedOver(groups, groups.Keys)
  }

  lemma NoGroups(table: Table, round: nat)
    requires round > 0
    ensures GroupsOf(map[], table, {}, round) && Grouped(map[]) == {}
  {
  }

  lemma GroupsAreDone(groups: map<nat, set<Key>>, table: Table, done: set<Key>, round: nat)
    requires round > 0 && GroupsOf(groups, table, done, round)
    ensures Grouped(groups) <= done
  {
    hide Anchor, AltDue;
  }

  lemma GroupStep(groups: map<nat, set<Key>>, table: Table, done: set<Key>, k: Key, round: nat)
    requires round > 0 && GroupsOf(groups, table, done, round) && k in table && k !in done
    ensures var a := Anchor(table[k], round);
      var more := if AltDue(table[k]) then groups[a := (if a in groups then groups[a] else {}) + {k}] else groups;
      && GroupsOf(more, table, done + {k}, round)
      && Grouped(more) == if AltDue(table[k]) then Grouped(groups) + {k} else Grouped(groups)
  {
    hide Anchor, AltDue, GroupedOver, Grouped;
    if AltDue(table[k]) {
      GroupAdd(groups, Anchor(table[k], round), k);
    }
  }

  lemma GroupAdd(groups: map<nat, set<Key>>, a: nat, k: Key)
    ensures Grouped(groups[a := (if a in groups then groups[a] else {}) + {k}]) == Grouped(groups) + {k}
  {
    var more := groups[a := (if a in groups then groups[a] else {}) + {k}];
    forall j | j in Grouped(groups) + {k}
      ensures j in Grouped(more)
    {
      if j == k {
        assert a in more.Keys && k in more[a];
      } else {
        var b :| b in groups.Keys && b in groups && j in groups[b];
        assert b in more.Keys && b in more && j in more[b];
      }
    }
  }

  /** The listed blocks up to some id have been handled and grouped, and none of them threw. */
  ghost predicate AltProgress(s: State, s': State, list: Table, rest: set<Key>, done: set<Key>, groups: map<nat, set<Key>>, top: int, r: Replies,
                              round: nat)
  {
    && round > 0 && list == Listed(s.table, Alt(0)) && rest <= list.Keys && !s.stopped && DistinctHashes(s.table)
    && Done(s, s', done, AltFates(s, top, r), AltStopping(s, top, r))
    && (forall k :: k in done <==> k in list.Keys - rest && AltWaits(s.table, k, top))
    && (forall j, k :: j in list.Keys - rest && k in rest ==> Rank(j) < Rank(k))
    && (forall j :: j in done ==> j in s.table && !AltThrows(s.table[j], j, r))
    && GroupsOf(groups, s.table, done, round)
    && AllOpen(s'.table, s'.log, rest + Grouped(groups), list)
  }

  lemma AltBegins(s: State, list: Table, top: int, r: Replies, round: nat)
    requires round > 0 && !s.stopped && Consistent(s.table, s.log, s.stopped) && list == Listed(s.table, Alt(0))
    ensures AltProgress(s, s, list, list.Keys, {}, map[], top, r, round)
  {
    hide Consistent, AllOpen, AltThrows, AltFates, AltStopping, GroupsOf, Done, AltWaits, Grouped;
    ConsistentIsDistinct(s.table, s.log, s.stopped);
    ListIsOpen(s.table, s.log, list);
    assert list.Keys - list.Keys == {};
    NoneDone(s, AltFates(s, top, r), AltStopping(s, top, r));
    NoGroups(s.table, round);
    assert list.Keys + {} == list.Keys;
  }

  lemma AltNext(s: State, s': State, list: Table, rest: set<Key>, done: set<Key>, groups: map<nat, set<Key>>, k: Key, top: int, r: Replies, round: nat)
    requires AltProgress(s, s', list, rest, done, groups, top, r, round) && k in rest
    ensures k in list && k in s.table && k !in done && Open(s'.table, s'.log, k, list[k])
    ensures AltWaits(s.table, k, top) <==> top - list[k].anchorHeight > 720
    ensures s'.table[k] == s.table[k] == list[k] && (s.table[k].hash in s'.rows <==> s.table[k].hash in s.rows)
  {
    hide Done, Open, DistinctHashes, AltThrows, AltFates, AltStopping, GroupsOf, Grouped, AllOpen;
    AltListIs(s.table, list, top);
    OneOpen(s'.table, s'.log, k, rest + Grouped(groups), list);
    DoneKeeps(s, s', done, AltFates(s, top, r), AltStopping(s, top, r), k);
  }

  /** One more block, whether it threw or not. */
  lemma AltHandled(s: State, m: State, s': State, done: set<Key>, k: Key, top: int, r: Replies)
    requires DistinctHashes(s.table) && Done(s, m, done, AltFates(s, top, r), AltStopping(s, top, r)) && AltWaits(s.table, k, top) && k !in done
    requires Within(m, s', {k}) && Became(m, s', k, AltScanFate(s.table[k], k, r, s.table[k].hash in s.rows))
    requires s'.stopped <==> m.stopped || AltStops(s.table[k], k, r, s.table[k].hash in s.rows)
    ensures Done(s, s', done + {k}, AltFates(s, top, r), AltStopping(s, top, r))
  {
    hide Done, DistinctHashes, Became, Within, AltScanFate, AltStops;
    DoneIsWithin(s, m, done, AltFates(s, top, r), AltStopping(s, top, r));
    DistinctStays(s, m, done);
    DoneStep(s, m, s', done, k, AltFates(s, top, r), AltStopping(s, top, r));
  }

  lemma AltAdvances(s: State, m: State, s': State, list: Table, rest: set<Key>, done: set<Key>, groups: map<nat, set<Key>>, k: Key, top: int,
                    r: Replies, round: nat)
    requires AltProgress(s, m, list, rest, done, groups, top, r, round) && k in rest && IsLeast(rest, k) && AltWaits(s.table, k, top)
    requires Within(m, s', {k}) && Became(m, s', k, AltScanFate(s.table[k], k, r, s.table[k].hash in s.rows))
    requires s'.stopped <==> m.stopped || AltStops(s.table[k], k, r, s.table[k].hash in s.rows)
    requires !AltThrows(s.table[k], k, r) && Consistent(m.table, m.log, m.stopped)
    requires k in list && (AltDue(s.table[k]) ==> Open(s'.table, s'.log, k, list[k]))
    ensures var a := Anchor(s.table[k], round);
      var more := if AltDue(s.table[k]) then groups[a := (if a in groups then groups[a] else {}) + {k}] else groups;
      AltProgress(s, s', list, rest - {k}, done + {k}, more, top, r, round)
  {
    hide Done, DistinctHashes, AltThrows, Became, Within, AltScanFate, AltStops, AllOpen, Consistent, AltFates, AltStopping, AltWaits, Open, GroupsOf, Grouped, AltDue, Anchor;
    var a := Anchor(s.table[k], round);
    var more := if AltDue(s.table[k]) then groups[a := (if a in groups then groups[a] else {}) + {k}] else groups;
    AltHandled(s, m, s', done, k, top, r);
    WithinTouches(m, s', {k});
    GroupStep(groups, s.table, done, k, round);
    GroupsAreDone(groups, s.table, done, round);
    var open := rest + Grouped(groups);
    RestStayOpen(m.table, m.log, m.stopped, s'.table, s'.log, {k}, open, list);
    if AltDue(s.table[k]) {
      AddOpen(s'.table, s'.log, k, open - {k}, list);
      SubsetOpen(s'.table, s'.log, open - {k} + {k}, rest - {k} + Grouped(more), list);
    } else {
      SubsetOpen(s'.table, s'.log, open - {k}, rest - {k} + Grouped(more), list);
    }
    AltOrder(list, rest, k, s.table, top);
    assert list.Keys - (rest - {k}) == list.Keys - rest + {k};
  }

  lemma AltOrder(list: Table, rest: set<Key>, k: Key, table: Table, top: int)
    requires list == Listed(table, Alt(0)) && rest <= list.Keys && k in rest && IsLeast(rest, k)
    requires forall i, j :: i in list.Keys - rest && j in rest ==> Rank(i) < Rank(j)
    ensures forall i, j :: i in list.Keys - (rest - {k}) && j in rest - {k} ==> Rank(i) < Rank(j)
  {
    AltListIs(table, list, top);
    assert forall j :: j in list.Keys - (rest - {k}) ==> j == k || j in list.Keys - rest;
    forall j | j in rest - {k}
      ensures Rank(k) < Rank(j)
    {
      KeysDiffer(k, j);
    }
  }

  lemma AltSkips(s: State, s': State, list: Table, rest: set<Key>, done: set<Key>, groups: map<nat, set<Key>>, k: Key, top: int, r: Replies, round: nat)
    requires AltProgress(s, s', list, rest, done, groups, top, r, round) && k in rest && IsLeast(rest, k) && !AltWaits(s.table, k, top)
    ensures AltProgress(s, s', list, rest - {k}, done, groups, top, r, round)
  {
    hide Done, DistinctHashes, AltThrows, AllOpen, AltFates, AltStopping, AltWaits, GroupsOf, Grouped;
    SubsetOpen(s'.table, s'.log, rest + Grouped(groups), rest - {k} + Grouped(groups), list);
    AltOrder(list, rest, k, s.table, top);
    assert list.Keys - (rest - {k}) == list.Keys - rest + {k};
  }

  lemma AltThrew(s: State, m: State, s': State, list: Table, rest: set<Key>, done: set<Key>, groups: map<nat, set<Key>>, k: Key, top: int,
                 r: Replies, round: nat)
    requires AltProgress(s, m, list, rest, done, groups, top, r, round) && k in rest && IsLeast(rest, k) && AltWaits(s.table, k, top)
    requires Within(m, s', {k}) && Became(m, s', k, AltScanFate(s.table[k], k, r, s.table[k].hash in s.rows))
    requires s'.stopped <==> m.stopped || AltStops(s.table[k], k, r, s.table[k].hash in s.rows)
    requires AltThrows(s.table[k], k, r)
    ensures Done(s, s', done + {k}, AltFates(s, top, r), AltStopping(s, top, r))
    ensures forall j :: j in done + {k} <==> AltReached(s.table, j, top, r)
    ensures !NoAltThrows(s.table, top, r)
  {
    hide Done, DistinctHashes, AltThrows, Became, Within, AltScanFate, AltStops, AllOpen, AltFates, AltStopping, GroupsOf, Grouped, AltReached, NoAltThrows;
    AltHandled(s, m, s', done, k, top, r);
    AltListIs(s.table, list, top);
    AltOrder(list, rest, k, s.table, top);
    assert k in list.Keys - (rest - {k});
    assert forall j :: j in done ==> j in list.Keys - rest;
    AltThrewAt(s.table, done, k, rest - {k}, top, r);
  }

  lemma AltScanned(s: State, s': State, list: Table, done: set<Key>, groups: map<nat, set<Key>>, top: int, r: Replies, round: nat)
    requires AltProgress(s, s', list, {}, done, groups, top, r, round)
    ensures Done(s, s', done, AltFates(s, top, r), AltStopping(s, top, r))
    ensures forall k :: k in done <==> AltReached(s.table, k, top, r)
    ensures NoAltThrows(s.table, top, r)
    ensures GroupsOf(groups, s.table, done, round) && AllOpen(s'.table, s'.log, Grouped(groups), list)
  {
    hide Done, DistinctHashes, AltThrows, AllOpen, AltFates, AltStopping, GroupsOf, Grouped, AltReached, NoAltThrows;
    AltListIs(s.table, list, top);
    assert list.Keys - {} == list.Keys;
    AltNoneThrew(s.table, done, top, r);
    assert {} + Grouped(groups) == Grouped(groups);
  }

  // ------------------------------------------------------------------
  // The second pass, anchor by anchor
  // ------------------------------------------------------------------

  /** The groups are of listed blocks, each under its rounded anchor. */
  ghost predicate WellGrouped(groups: map<nat, set<Key>>, list: Table, anchorRound: nat)
    requires anchorRound > 0
  {
    forall a, k :: a in groups && k in groups[a] ==> k in list && a == Anchor(list[k], anchorRound)
  }

  lemma GroupsAreWell(groups: map<nat, set<Key>>, table: Table, list: Table, done: set<Key>, round: nat)
    requires round > 0 && GroupsOf(groups, table, done, round)
    requires forall k :: k in done ==> k in list && k in table && list[k] == table[k]
    ensures WellGrouped(groups, list, round)
  {
    hide Anchor, AltDue;
  }

  lemma GroupsAreDisjoint(groups: map<nat, set<Key>>, list: Table, anchorRound: nat, anchors: set<nat>, a: nat)
    requires anchorRound > 0 && WellGrouped(groups, list, anchorRound) && a in anchors && a in groups
    ensures GroupedOver(groups, anchors - {a}) <= GroupedOver(groups, anchors) - groups[a]
    ensures groups[a] <= GroupedOver(groups, anchors) && groups[a] <= list.Keys
  {
    hide Anchor;
    forall k | k in GroupedOver(groups, anchors - {a})
      ensures k in GroupedOver(groups, anchors) && k !in groups[a]
    {
      var b :| b in anchors - {a} && b in groups && k in groups[b];
      assert b in anchors && b in groups && k in groups[b];
      assert b == Anchor(list[k], anchorRound);
    }
    forall k | k in groups[a]
      ensures k in GroupedOver(groups, anchors)
    {
      assert a in anchors && a in groups && k in groups[a];
    }
  }

  /** A group is in no other group's anchors. */
  lemma GroupIsApart(groups: map<nat, set<Key>>, list: Table, round: nat, done: set<nat>, a: nat, k: Key)
    requires round > 0 && WellGrouped(groups, list, round) && a in groups && k in groups[a] && a !in done
    ensures k !in GroupedOver(groups, done)
  {
    hide Anchor;
    forall b | b in groups && k in groups[b]
      ensures b == a
    {
      assert b == Anchor(list[k], round);
    }
  }

  predicate IsLeastAnchor(anchors: set<nat>, a: nat) {
    a in anchors && forall x :: x in anchors ==> a <= x
  }

  lemma {:induction false} LeastAnchor(anchors: set<nat>)
    requires anchors != {}
    ensures exists a :: a in anchors && IsLeastAnchor(anchors, a)
    decreases |anchors|
  {
    var a :| a in anchors;
    var rest := anchors - {a};
    if rest == {} {
      assert anchors == {a};
      assert IsLeastAnchor(anchors, a);
    } else {
      LeastAnchor(rest);
      var m :| m in rest && IsLeastAnchor(rest, m);
      assert forall x :: x in anchors ==> x == a || x in rest;
      assert IsLeastAnchor(anchors, if m <= a then m else a);
    }
  }

  ghost function PlainFate(a: nat, r: Replies): Fate {
    Fate(false, r.anchorHeader(a) && r.anchorPrecalc(a) == PrecalcOk, r.anchorHeader(a) && r.anchorPrecalc(a) == PrecalcRowsLost, false, false)
  }

  /** The blocks of these anchors have been handled, and no others. */
  ghost predicate AnchorsDone(s: State, s': State, groups: map<nat, set<Key>>, done: set<nat>, r: Replies) {
    && Within(s, s', GroupedOver(groups, done))
    && forall a, k :: a in done && a in groups && k in groups[a] ==> Became(s, s', k, PlainFate(a, r))
  }

  lemma NoAnchorsDone(s: State, groups: map<nat, set<Key>>, r: Replies)
    ensures AnchorsDone(s, s, groups, {}, r)
  {
    WithinNothing(s, s);
    assert GroupedOver(groups, {}) == {};
  }

  lemma OverMore(groups: map<nat, set<Key>>, done: set<nat>, a: nat)
    requires a in groups
    ensures GroupedOver(groups, done + {a}) == GroupedOver(groups, done) + groups[a]
  {
    forall k | k in groups[a]
      ensures k in GroupedOver(groups, done + {a})
    {
      assert a in done + {a} && a in groups && k in groups[a];
    }
    forall k | k in GroupedOver(groups, done)
      ensures k in GroupedOver(groups, done + {a})
    {
      var b :| b in done && b in groups && k in groups[b];
      assert b in done + {a} && b in groups && k in groups[b];
    }
  }

  lemma AnchorStep(s: State, m: State, s': State, groups: map<nat, set<Key>>, list: Table, round: nat, done: set<nat>, a: nat, r: Replies)
    requires round > 0 && WellGrouped(groups, list, round) && a in groups && a !in done && done <= groups.Keys
    requires DistinctHashes(s.table) && DistinctHashes(m.table) && Grouped(groups) <= s.table.Keys
    requires AnchorsDone(s, m, groups, done, r) && Within(m, s', groups[a])
    requires forall k :: k in groups[a] ==> Became(m, s', k, PlainFate(a, r))
    ensures AnchorsDone(s, s', groups, done + {a}, r)
  {
    hide Within, Became, DistinctHashes, WellGrouped, PlainFate;
    var over := GroupedOver(groups, done);
    OverMore(groups, done, a);
    WithinThen(s, m, s', over, groups[a]);
    WithinTouches(s, m, over);
    WithinTouches(m, s', groups[a]);
    SameHashes(s.table, s.log, m.table, m.log, over);
    forall k | k in groups[a]
      ensures Became(s, s', k, PlainFate(a, r))
    {
      GroupIsApart(groups, list, round, done, a, k);
      InGroups(groups, a, k);
      OutsideIsUntouched(s, m, over, k);
      LaterBecomes(s, m, s', k, PlainFate(a, r));
    }
    forall b, k | b in done && b in groups && k in groups[b]
      ensures Became(s, s', k, PlainFate(b, r))
    {
      GroupIsApart(groups, list, round, {a}, b, k);
      OverOne(groups, a);
      BecameInTable(s, m, k, PlainFate(b, r));
      StaysBecome(s, m, s', groups[a], k, PlainFate(b, r));
    }
  }

  lemma InGroups(groups: map<nat, set<Key>>, a: nat, k: Key)
    requires a in groups && k in groups[a]
    ensures k in Grouped(groups)
  {
    assert a in groups.Keys && a in groups && k in groups[a];
  }

  lemma OverOne(groups: map<nat, set<Key>>, a: nat)
    requires a in groups
    ensures GroupedOver(groups, {a}) == groups[a]
  {
    OverMore(groups, {}, a);
    assert {} + {a} == {a};
    assert GroupedOver(groups, {}) == {};
  }

  /** An anchor whose header did not come is passed over, and counted. */
  lemma AnchorSkipped(s: State, s': State, groups: map<nat, set<Key>>, list: Table, round: nat, done: set<nat>, a: nat, r: Replies)
    requires round > 0 && WellGrouped(groups, list, round) && a in groups && a !in done && done <= groups.Keys
    requires DistinctHashes(s.table) && DistinctHashes(s'.table) && Grouped(groups) <= s.table.Keys
    requires AnchorsDone(s, s', groups, done, r) && !r.anchorHeader(a)
    ensures AnchorsDone(s, s', groups, done + {a}, r)
  {
    hide Within, Became, DistinctHashes, WellGrouped;
    var over := GroupedOver(groups, done);
    OverMore(groups, done, a);
    WithinMore(s, s', over, over + groups[a]);
    forall k | k in groups[a]
      ensures Became(s, s', k, PlainFate(a, r))
    {
      GroupIsApart(groups, list, round, done, a, k);
      InGroups(groups, a, k);
      OutsideIsUntouched(s, s', over, k);
    }
  }

  /** The blocks of all anchors, handled as far as the pass came. */
  ghost predicate GroupsDone(s: State, s': State, groups: map<nat, set<Key>>, r: Replies) {
    && Within(s, s', Grouped(groups))
    && forall a, k :: a in groups && k in groups[a] ==> Became(s, s', k, AnchorFate(groups.Keys, a, r))
  }

  lemma GroupsAreAllDone(s: State, s': State, groups: map<nat, set<Key>>, list: Table, round: nat, done: set<nat>, r: Replies)
    requires round > 0 && WellGrouped(groups, list, round) && DistinctHashes(s.table) && Grouped(groups) <= s.table.Keys
    requires AnchorsDone(s, s', groups, done, r) && done <= groups.Keys
    requires forall a :: a in done <==> AnchorReached(groups.Keys, a, r)
    ensures GroupsDone(s, s', groups, r)
  {
    hide Within, Became, DistinctHashes, WellGrouped, AnchorReached;
    var over := GroupedOver(groups, done);
    OverSubset(groups, done);
    WithinMore(s, s', over, Grouped(groups));
    forall a, k | a in groups && k in groups[a]
      ensures Became(s, s', k, AnchorFate(groups.Keys, a, r))
    {
      if a !in done {
        GroupIsApart(groups, list, round, done, a, k);
        InGroups(groups, a, k);
        OutsideIsUntouched(s, s', over, k);
      }
    }
  }

  lemma OverSubset(groups: map<nat, set<Key>>, done: set<nat>)
    requires done <= groups.Keys
    ensures GroupedOver(groups, done) <= Grouped(groups)
  {
    forall k | k in GroupedOver(groups, done)
      ensures k in Grouped(groups)
    {
      var a :| a in done && a in groups && k in groups[a];
      InGroups(groups, a, k);
    }
  }

  lemma Fewer(some: set<nat>, all: set<nat>)
    requires some <= all
    ensures |some| <= |all|
  {
    assert all == some + (all - some);
  }

  /** The anchors handled, least first, are the ones reached. */
  lemma DoneIsReached(anchors: set<nat>, done: set<nat>, rest: set<nat>, r: Replies)
    requires anchors == done + rest && |done| <= 10
    requires forall x, y :: x in done && y in rest ==> x < y
    requires forall x, y :: x in done && y in done && x < y ==> !AnchorThrows(x, r)
    requires rest == {} || |done| == 10 || exists x :: x in done && AnchorThrows(x, r)
    ensures forall a :: a in done <==> AnchorReached(anchors, a, r)
  {
    hide AnchorThrows;
    forall a | a in done
      ensures AnchorReached(anchors, a, r)
    {
      assert Below(anchors, a) <= done - {a};
      Fewer(Below(anchors, a), done - {a});
      assert forall x :: x in anchors && x < a ==> x in done;
    }
    forall a | a in rest
      ensures !AnchorReached(anchors, a, r)
    {
      assert done <= Below(anchors, a);
      Fewer(done, Below(anchors, a));
    }
  }

  lemma AnchorsThrew(s: State, s': State, groups: map<nat, set<Key>>, list: Table, round: nat, done: set<nat>, a: nat, rest: set<nat>, r: Replies)
    requires round > 0 && WellGrouped(groups, list, round) && DistinctHashes(s.table) && Grouped(groups) <= s.table.Keys
    requires AnchorsDone(s, s', groups, done + {a}, r) && groups.Keys == done + {a} + rest && |done| < 10
    requires forall x :: x in done ==> x < a && !AnchorThrows(x, r)
    requires forall x, y :: x in done + {a} && y in rest ==> x < y
    requires AnchorThrows(a, r)
    ensures GroupsDone(s, s', groups, r)
    ensures exists x :: AnchorReached(groups.Keys, x, r) && AnchorThrows(x, r)
  {
    hide AnchorThrows, AnchorsDone, GroupsDone, AnchorReached, WellGrouped, GroupedOver;
    assert |done + {a}| <= |done| + 1;
    DoneIsReached(groups.Keys, done + {a}, rest, r);
    GroupsAreAllDone(s, s', groups, list, round, done + {a}, r);
    assert a in done + {a};
  }

  lemma AnchorsEnded(s: State, s': State, groups: map<nat, set<Key>>, list: Table, round: nat, done: set<nat>, rest: set<nat>, r: Replies)
    requires round > 0 && WellGrouped(groups, list, round) && DistinctHashes(s.table) && Grouped(groups) <= s.table.Keys
    requires AnchorsDone(s, s', groups, done, r) && groups.Keys == done + rest && |done| <= 10
    requires forall x :: x in done ==> !AnchorThrows(x, r)
    requires forall x, y :: x in done && y in rest ==> x < y
    requires rest == {} || |done| == 10
    ensures GroupsDone(s, s', groups, r)
    ensures !exists x :: AnchorReached(groups.Keys, x, r) && AnchorThrows(x, r)
  {
    hide AnchorThrows, AnchorsDone, GroupsDone, AnchorReached, WellGrouped, GroupedOver;
    DoneIsReached(groups.Keys, done, rest, r);
    GroupsAreAllDone(s, s', groups, list, round, done, r);
  }

  /** The groups of the lesser anchors have been handled, and none of them threw. */
  ghost predicate GroupProgress(s: State, s': State, list: Table, groups: map<nat, set<Key>>, rest: set<nat>, r: Replies, round: nat) {
    && round > 0 && WellGrouped(groups, list, round) && rest <= groups.Keys && DistinctHashes(s.table) && Grouped(groups) <= s.table.Keys
    && AnchorsDone(s, s', groups, groups.Keys - rest, r)
    && (forall x, y :: x in groups.Keys - rest && y in rest ==> x < y)
    && (forall x :: x in groups.Keys - rest ==> !AnchorThrows(x, r))
    && AllOpen(s'.table, s'.log, GroupedOver(groups, rest), list)
  }

  lemma GroupsBegin(s: State, list: Table, groups: map<nat, set<Key>>, r: Replies, round: nat)
    requires round > 0 && WellGrouped(groups, list, round) && Consistent(s.table, s.log, s.stopped)
    requires AllOpen(s.table, s.log, Grouped(groups), list)
    ensures GroupProgress(s, s, list, groups, groups.Keys, r, round)
    ensures |groups.Keys - groups.Keys| == 0
  {
    hide AllOpen, WellGrouped, Consistent, AnchorsDone, AnchorThrows;
    ConsistentIsDistinct(s.table, s.log, s.stopped);
    OpenHashes(s.table, s.log, Grouped(groups), list);
    assert groups.Keys - groups.Keys == {};
    NoAnchorsDone(s, groups, r);
  }

  lemma NextGroup(s: State, s': State, list: Table, groups: map<nat, set<Key>>, rest: set<nat>, a: nat, r: Replies, round: nat)
    requires GroupProgress(s, s', list, groups, rest, r, round) && a in rest
    ensures a in groups && groups[a] <= list.Keys && AllOpen(s'.table, s'.log, groups[a], list)
  {
    hide AllOpen, WellGrouped, AnchorsDone, AnchorThrows, DistinctHashes, GroupedOver;
    GroupsAreDisjoint(groups, list, round, rest, a);
    SubsetOpen(s'.table, s'.log, GroupedOver(groups, rest), groups[a], list);
  }

  lemma PlainFateIs(a: nat, r: Replies)
    ensures r.anchorHeader(a) ==> PlainFate(a, r) == Fate(false, r.anchorPrecalc(a) == PrecalcOk, r.anchorPrecalc(a) == PrecalcRowsLost, false, false)
    ensures AnchorThrows(a, r) <==> r.anchorHeader(a) && r.anchorPrecalc(a) == PrecalcThrows
  {
  }

  lemma OneFewer(all: set<nat>, rest: set<nat>, a: nat)
    requires a in rest && rest <= all
    ensures |all - (rest - {a})| == |all - rest| + 1
  {
    assert all - (rest - {a}) == all - rest + {a};
  }

  lemma AnchorsAreWithin(s: State, s': State, groups: map<nat, set<Key>>, done: set<nat>, r: Replies)
    requires AnchorsDone(s, s', groups, done, r) && DistinctHashes(s.table)
    ensures DistinctHashes(s'.table)
  {
    DistinctStays(s, s', GroupedOver(groups, done));
  }

  lemma GroupHandled(s: State, m: State, s': State, list: Table, groups: map<nat, set<Key>>, rest: set<nat>, a: nat, r: Replies, round: nat)
    requires GroupProgress(s, m, list, groups, rest, r, round) && a in rest
    requires Within(m, s', groups[a]) && forall k :: k in groups[a] ==> Became(m, s', k, PlainFate(a, r))
    ensures AnchorsDone(s, s', groups, groups.Keys - (rest - {a}), r)
  {
    hide AllOpen, WellGrouped, AnchorsDone, AnchorThrows, DistinctHashes, GroupedOver, Within, Became, PlainFate;
    var done := groups.Keys - rest;
    AnchorsAreWithin(s, m, groups, done, r);
    AnchorStep(s, m, s', groups, list, round, done, a, r);
    assert done + {a} == groups.Keys - (rest - {a});
  }

  lemma AnchorOrder(anchors: set<nat>, rest: set<nat>, a: nat)
    requires a in rest && rest <= anchors && IsLeastAnchor(rest, a)
    requires forall x, y :: x in anchors - rest && y in rest ==> x < y
    ensures forall x, y :: x in anchors - (rest - {a}) && y in rest - {a} ==> x < y
    ensures forall x :: x in anchors - (rest - {a}) <==> x == a || x in anchors - rest
  {
    forall x: nat
      ensures x in anchors - (rest - {a}) <==> x == a || x in anchors - rest
    {
    }
    forall x: nat, y: nat | x in anchors - (rest - {a}) && y in rest - {a}
      ensures x < y
    {
    }
  }

  lemma GroupAdvances(s: State, m: State, s': State, list: Table, groups: map<nat, set<Key>>, rest: set<nat>, a: nat, r: Replies, round: nat)
    requires GroupProgress(s, m, list, groups, rest, r, round) && a in rest && IsLeastAnchor(rest, a)
    requires Within(m, s', groups[a]) && forall k :: k in groups[a] ==> Became(m, s', k, PlainFate(a, r))
    requires !AnchorThrows(a, r) && Consistent(m.table, m.log, m.stopped)
    ensures GroupProgress(s, s', list, groups, rest - {a}, r, round)
  {
    hide AllOpen, WellGrouped, AnchorsDone, AnchorThrows, DistinctHashes, GroupedOver, Within, Became, PlainFate, Consistent, IsLeastAnchor;
    GroupHandled(s, m, s', list, groups, rest, a, r, round);
    AnchorOrder(groups.Keys, rest, a);
    var open := GroupedOver(groups, rest);
    GroupsAreDisjoint(groups, list, round, rest, a);
    WithinTouches(m, s', groups[a]);
    RestStayOpen(m.table, m.log, m.stopped, s'.table, s'.log, groups[a], open, list);
    SubsetOpen(s'.table, s'.log, open - groups[a], GroupedOver(groups, rest - {a}), list);
  }

  lemma GroupSkips(s: State, s': State, list: Table, groups: map<nat, set<Key>>, rest: set<nat>, a: nat, r: Replies, round: nat)
    requires GroupProgress(s, s', list, groups, rest, r, round) && a in rest && IsLeastAnchor(rest, a) && !r.anchorHeader(a)
    ensures GroupProgress(s, s', list, groups, rest - {a}, r, round)
  {
    hide AllOpen, WellGrouped, AnchorsDone, DistinctHashes, GroupedOver, IsLeastAnchor, AnchorThrows;
    PlainFateIs(a, r);
    AnchorsAreWithin(s, s', groups, groups.Keys - rest, r);
    AnchorSkipped(s, s', groups, list, round, groups.Keys - rest, a, r);
    assert groups.Keys - rest + {a} == groups.Keys - (rest - {a});
    AnchorOrder(groups.Keys, rest, a);
    GroupsAreDisjoint(groups, list, round, rest, a);
    SubsetOpen(s'.table, s'.log, GroupedOver(groups, rest), GroupedOver(groups, rest - {a}), list);
  }

  lemma GroupThrew(s: State, m: State, s': State, list: Table, groups: map<nat, set<Key>>, rest: set<nat>, a: nat, r: Replies, round: nat)
    requires GroupProgress(s, m, list, groups, rest, r, round) && a in rest && IsLeastAnchor(rest, a) && |groups.Keys - rest| < 10
    requires Within(m, s', groups[a]) && forall k :: k in groups[a] ==> Became(m, s', k, PlainFate(a, r))
    requires AnchorThrows(a, r)
    ensures GroupsDone(s, s', groups, r)
    ensures exists x :: AnchorReached(groups.Keys, x, r) && AnchorThrows(x, r)
  {
    hide AllOpen, WellGrouped, AnchorsDone, AnchorThrows, DistinctHashes, GroupedOver, Within, Became, PlainFate, GroupsDone, AnchorReached, IsLeastAnchor, Grouped;
    GroupHandled(s, m, s', list, groups, rest, a, r, round);
    AnchorOrder(groups.Keys, rest, a);
    var done := groups.Keys - rest;
    assert groups.Keys - (rest - {a}) == done + {a};
    AnchorsThrew(s, s', groups, list, round, done, a, rest - {a}, r);
  }

  lemma GroupsEnded(s: State, s': State, list: Table, groups: map<nat, set<Key>>, rest: set<nat>, r: Replies, round: nat)
    requires GroupProgress(s, s', list, groups, rest, r, round) && |groups.Keys - rest| <= 10 && (rest == {} || |groups.Keys - rest| == 10)
    ensures GroupsDone(s, s', groups, r)
    ensures !exists x :: AnchorReached(groups.Keys, x, r) && AnchorThrows(x, r)
  {
    hide AllOpen, WellGrouped, AnchorsDone, AnchorThrows, DistinctHashes, GroupedOver, GroupsDone, AnchorReached, Grouped;
    AnchorsEnded(s, s', groups, list, round, groups.Keys - rest, rest, r);
  }

  // ------------------------------------------------------------------
  // A cycle of the other coins, both passes
  // ------------------------------------------------------------------

  lemma AltCycleRests(s: State, r: Replies, round: nat)
    requires round > 0 && (s.stopped || r.top.None?)
    ensures AltCycle(s, s, r, round, false)
  {
  }

  lemma AltCycleThrew(s: State, s': State, done: set<Key>, r: Replies, round: nat)
    requires round > 0 && !s.stopped && r.top.Some? && DistinctHashes(s.table)
    requires Done(s, s', done, AltFates(s, r.top.value, r), AltStopping(s, r.top.value, r))
    requires forall k :: k in done <==> AltReached(s.table, k, r.top.value, r)
    requires !NoAltThrows(s.table, r.top.value, r)
    ensures AltCycle(s, s', r, round, true)
  {
    hide Within, Became, AltScanFate, AltStops, AltThrows, DistinctHashes, NoAltThrows, AltDue;
    forall k | k in s.table && k !in done
      ensures Became(s, s', k, NOTHING)
    {
      OutsideIsUntouched(s, s', done, k);
    }
    WithinMore(s, s', done, AltKeys(s.table));
  }

  lemma GroupsAreAnchors(groups: map<nat, set<Key>>, table: Table, done: set<Key>, top: int, round: nat)
    requires round > 0 && GroupsOf(groups, table, done, round)
    requires forall k :: k in done <==> AltWaits(table, k, top)
    ensures groups.Keys == AltAnchors(table, top, round)
  {
    hide AltWaits, AltDue, Anchor;
    forall a | a in groups
      ensures a in AltAnchors(table, top, round)
    {
      var k :| k in groups[a];
      assert k in done && k in table && AltDue(table[k]) && a == Anchor(table[k], round);
    }
  }

  /** A block after both passes. */
  lemma AltBothPasses(s: State, m: State, s': State, done: set<Key>, groups: map<nat, set<Key>>, r: Replies, round: nat, k: Key)
    requires round > 0 && !s.stopped && r.top.Some? && DistinctHashes(s.table) && DistinctHashes(m.table)
    requires Done(s, m, done, AltFates(s, r.top.value, r), AltStopping(s, r.top.value, r))
    requires forall k :: k in done <==> AltWaits(s.table, k, r.top.value)
    requires forall k :: k in done <==> AltReached(s.table, k, r.top.value, r)
    requires NoAltThrows(s.table, r.top.value, r)
    requires GroupsOf(groups, s.table, done, round) && GroupsDone(m, s', groups, r) && Within(s, s', done)
    requires groups.Keys == AltAnchors(s.table, r.top.value, round)
    requires k in s.table
    ensures Became(s, s', k, AltFate(s, k, r.top.value, r, round))
  {
    hide Within, Became, AltScanFate, AltStops, AltThrows, DistinctHashes, NoAltThrows, AltDue, Anchor, AltWaits, AltReached, AltAnchors, AnchorFate, Grouped;
    WithinTouches(s, m, done);
    WithinTouches(m, s', Grouped(groups));
    if k !in done {
      OutsideIsUntouched(s, s', done, k);
    } else if AltDue(s.table[k]) {
      DueIsLeftAlone(s.table[k], k, r, s.table[k].hash in s.rows);
      LaterBecomes(s, m, s', k, AnchorFate(groups.Keys, Anchor(s.table[k], round), r));
    } else {
      NotDueNotGrouped(groups, s.table, done, round, k);
      SameHashes(s.table, s.log, m.table, m.log, done);
      StaysBecome(s, m, s', Grouped(groups), k, AltScanFate(s.table[k], k, r, s.table[k].hash in s.rows));
    }
  }

  lemma DueIsLeftAlone(b: Block, k: Key, r: Replies, hasRows: bool)
    requires AltDue(b)
    ensures AltScanFate(b, k, r, hasRows) == NOTHING
  {
  }

  lemma NotDueNotGrouped(groups: map<nat, set<Key>>, table: Table, done: set<Key>, round: nat, k: Key)
    requires round > 0 && GroupsOf(groups, table, done, round) && k in table && !AltDue(table[k])
    ensures k !in Grouped(groups)
  {
    hide AltDue, Anchor;
  }

  lemma AltCycleEnded(s: State, m: State, s': State, done: set<Key>, groups: map<nat, set<Key>>, r: Replies, round: nat, threw: bool)
    requires round > 0 && !s.stopped && r.top.Some? && DistinctHashes(s.table) && DistinctHashes(m.table)
    requires Done(s, m, done, AltFates(s, r.top.value, r), AltStopping(s, r.top.value, r))
    requires forall k :: k in done <==> AltWaits(s.table, k, r.top.value)
    requires forall k :: k in done <==> AltReached(s.table, k, r.top.value, r)
    requires NoAltThrows(s.table, r.top.value, r)
    requires GroupsOf(groups, s.table, done, round) && GroupsDone(m, s', groups, r) && s'.stopped == m.stopped
    requires threw <==> exists a :: AnchorReached(groups.Keys, a, r) && AnchorThrows(a, r)
    ensures AltCycle(s, s', r, round, threw)
  {
    hide Within, Became, AltScanFate, AltStops, AltThrows, DistinctHashes, NoAltThrows, AltDue, Anchor, AltFate, AnchorFate, Grouped, GroupsOf, AnchorReached, AnchorThrows, AltAnchors;
    GroupsAreDone(groups, s.table, done, round);
    GroupsAreAnchors(groups, s.table, done, r.top.value, round);
    WithinThen(s, m, s', done, Grouped(groups));
    assert done + Grouped(groups) == done;
    forall k | k in s.table
      ensures Became(s, s', k, AltFate(s, k, r.top.value, r, round))
    {
      AltBothPasses(s, m, s', done, groups, r, round, k);
    }
    WithinMore(s, s', done, AltKeys(s.table));
  }

  // ------------------------------------------------------------------
  // Both unlockers, one after the other
  // ------------------------------------------------------------------

  lemma MainCycleKeeps(s: State, s': State, main: Replies, required: int, threw: bool)
    requires MainCycle(s, s', main, required, threw) && DistinctHashes(s.table)
    ensures Within(s, s', MainKeys(s.table))
    ensures forall k :: k in s.table && k.Alt? ==>
      && k in s'.table && s'.table[k] == s.table[k] && (s.table[k].hash in s'.rows <==> s.table[k].hash in s.rows)
      && Became(s, s', k, NOTHING)
    ensures forall k :: k in s.table && k.Main? && !s.stopped ==>
      Became(s, s', k,
        if main.top.Some? && MainReached(s.table, k, main.top.value, main, required)
        then MainFate(s.table[k], k, main.top.value, main, required, s.table[k].hash in s.rows) else NOTHING)
    ensures !s.stopped && !threw ==> (s'.stopped <==> MainEnds(s, main, required))
    ensures threw ==> MainEnds(s, main, required)
    ensures s.stopped ==> s' == s
  {
    hide Within, Became, MainFate, MainReached, MainThrows, MainStops, DistinctHashes;
    var keys := MainKeys(s.table);
    if s.stopped || main.top.None? {
      WithinNothing(s, s);
      WithinMore(s, s, {}, keys);
    }
    forall k | k in s.table && k.Alt?
      ensures k in s'.table && s'.table[k] == s.table[k] && (s.table[k].hash in s'.rows <==> s.table[k].hash in s.rows)
      ensures Became(s, s', k, NOTHING)
    {
      OutsideIsUntouched(s, s', keys, k);
    }
    forall k | k in s.table && k.Main? && !s.stopped && main.top.None?
      ensures Became(s, s', k, NOTHING)
    {
      NothingBecame(s, s', k);
    }
  }

  lemma CycleThrew(s: State, s': State, main: Replies, alt: Replies, required: int, round: nat)
    requires round > 0 && MainCycle(s, s', main, required, true) && DistinctHashes(s.table)
    ensures CycleDid(s, s', main, alt, required, round)
  {
    hide Within, Became, MainFate, MainReached, MainCycle, DistinctHashes, MainEnds;
    MainCycleKeeps(s, s', main, required, true);
    WithinMore(s, s', MainKeys(s.table), s.table.Keys);
    assert !s.stopped by { MainThrewIsRunning(s, s', main, required); }
  }

  lemma MainThrewIsRunning(s: State, s': State, main: Replies, required: int)
    requires MainCycle(s, s', main, required, true)
    ensures !s.stopped
  {
  }

  lemma AltFateSame(s: State, s': State, k: Key, top: int, r: Replies, round: nat)
    requires round > 0 && s'.table.Keys == s.table.Keys && forall j :: j in s.table && j.Alt? ==> s'.table[j] == s.table[j]
    requires k in s.table && k.Alt? && (s.table[k].hash in s'.rows <==> s.table[k].hash in s.rows)
    ensures AltFate(s', k, top, r, round) == AltFate(s, k, top, r, round)
  {
    hide AltThrows, AltScanFate, AnchorFate, AltDue, Anchor;
    assert forall j :: AltWaits(s'.table, j, top) <==> AltWaits(s.table, j, top);
    hide AltWaits;
    assert AltAnchors(s'.table, top, round) == AltAnchors(s.table, top, round);
  }

  lemma AltCycleKeeps(s: State, s': State, alt: Replies, round: nat, threw: bool)
    requires round > 0 && AltCycle(s, s', alt, round, threw)
    ensures Within(s, s', AltKeys(s.table))
    ensures forall k :: k in s.table && k.Alt? ==>
      Became(s, s', k, if !s.stopped && alt.top.Some? then AltFate(s, k, alt.top.value, alt, round) else NOTHING)
    ensures s.stopped ==> s' == s
  {
    hide Within, Became, AltFate, AltReached, AltStops, NoAltThrows, AnchorReached, AnchorThrows, AltAnchors;
    if s.stopped || alt.top.None? {
      WithinNothing(s, s);
      WithinMore(s, s, {}, AltKeys(s.table));
      forall k | k in s.table
        ensures Became(s, s', k, NOTHING)
      {
        NothingBecame(s, s', k);
      }
    }
  }

  /** A block of the main chain, which the second unlocker leaves alone. */
  lemma MainThenAlt(s: State, m: State, s': State, k: Key, main: Replies, alt: Replies, required: int, round: nat)
    requires round > 0 && MainCycle(s, m, main, required, false) && DistinctHashes(s.table) && !s.stopped
    requires Within(m, s', AltKeys(m.table)) && k in s.table && k.Main?
    ensures Became(s, s', k, CycleFate(s, k, main, alt, required, round))
  {
    hide Within, Became, MainFate, MainReached, MainCycle, DistinctHashes, MainEnds, AltFate;
    MainCycleKeeps(s, m, main, required, false);
    var keys := MainKeys(s.table);
    WithinTouches(s, m, keys);
    SameHashes(s.table, s.log, m.table, m.log, keys);
    DistinctStays(s, m, keys);
    StaysBecome(s, m, s', AltKeys(m.table), k, CycleFate(s, k, main, alt, required, round));
  }

  /** A block of another coin, which the first unlocker leaves alone. */
  lemma AltAfterMain(s: State, m: State, s': State, k: Key, main: Replies, alt: Replies, required: int, round: nat, threw: bool)
    requires round > 0 && MainCycle(s, m, main, required, false) && DistinctHashes(s.table) && !s.stopped
    requires AltCycle(m, s', alt, round, threw) && k in s.table && k.Alt?
    ensures Became(s, s', k, CycleFate(s, k, main, alt, required, round))
  {
    hide Within, Became, MainFate, MainReached, MainCycle, DistinctHashes, MainEnds, AltFate, AltCycle;
    MainCycleKeeps(s, m, main, required, false);
    WithinTouches(s, m, MainKeys(s.table));
    AltCycleKeeps(m, s', alt, round, threw);
    WithinTouches(m, s', AltKeys(m.table));
    if alt.top.Some? {
      AltFateSame(s, m, k, alt.top.value, alt, round);
    }
    LaterBecomes(s, m, s', k, CycleFate(s, k, main, alt, required, round));
  }

  lemma CycleComposes(s: State, m: State, s': State, main: Replies, alt: Replies, required: int, round: nat, threw: bool)
    requires round > 0 && MainCycle(s, m, main, required, false) && AltCycle(m, s', alt, round, threw) && DistinctHashes(s.table)
    ensures CycleDid(s, s', main, alt, required, round)
  {
    hide Within, Became, MainCycle, AltCycle, DistinctHashes;
    MainCycleKeeps(s, m, main, required, false);
    AltCycleKeeps(m, s', alt, round, threw);
    var mains, alts := MainKeys(s.table), AltKeys(m.table);
    WithinTouches(s, m, mains);
    WithinThen(s, m, s', mains, alts);
    WithinMore(s, s', mains + alts, s.table.Keys);
    forall k | k in s.table
      ensures Became(s, s', k, CycleFate(s, k, main, alt, required, round))
    {
      if s.stopped {
        NothingBecame(s, s', k);
      } else if k.Main? {
        MainThenAlt(s, m, s', k, main, alt, required, round);
      } else {
        AltAfterMain(s, m, s', k, main, alt, required, round, threw);
      }
    }
  }

  /**
   A block credited in a cycle was ready with its rows stored, and deep enough: a main block below more than five and more
   than the required number of blocks, with the daemon still naming its hash; any other with its anchor below more than 720.
   */
  lemma CreditedIsDeep(s: State, s': State, main: Replies, alt: Replies, required: int, round: nat, h: Hash) returns (k: Key)
    requires round > 0 && CycleDid(s, s', main, alt, required, round) && Happened(s.log, s'.log, CreditedTo(h))
    ensures k in s.table && s.table[k].hash == h && h in s.rows
    ensures s.table[k].payReady && s.table[k].pplns && s.table[k].valid && !s.table[k].unlocked && !s.stopped
    ensures k.Main? ==> main.top.Some? && main.top.value - k.height > 5 && main.top.value - k.height > required && main.byHeight(k).hash == Some(h)
    ensures k.Alt? ==> alt.top.Some? && alt.top.value - s.table[k].anchorHeight > 720 && !alt.byHash(k).orphan
  {
    hide CycleFate, Became, OnlyTouches, Happened, Within;
    k := CreditedKey(s, s', s.table.Keys, h);
    BecameCredited(s, s', k, CycleFate(s, k, main, alt, required, round));
    CreditFateIsDeep(s, k, main, alt, required, round);
  }

  lemma CreditedKey(s: State, s': State, keys: set<Key>, h: Hash) returns (k: Key)
    requires Within(s, s', keys) && Happened(s.log, s'.log, CreditedTo(h))
    ensures k in keys && k in s.table && s.table[k].hash == h
  {
    var i :| |s.log| <= i < |s'.log| && s'.log[i] == CreditedTo(h);
    assert About(s'.log[i], s.table, keys);
    k :| k in keys && k in s.table && s.table[k].hash == h;
  }

  lemma BecameCredited(s: State, s': State, k: Key, f: Fate)
    requires Became(s, s', k, f) && Happened(s.log, s'.log, CreditedTo(s.table[k].hash))
    ensures f.credited
  {
  }

  lemma CreditFateIsDeep(s: State, k: Key, main: Replies, alt: Replies, required: int, round: nat)
    requires round > 0 && k in s.table && CycleFate(s, k, main, alt, required, round).credited
    ensures var b := s.table[k];
      && b.hash in s.rows && b.payReady && b.pplns && b.valid && !b.unlocked && !s.stopped
      && (k.Main? ==> main.top.Some? && main.top.value - k.height > 5 && main.top.value - k.height > required && main.byHeight(k).hash == Some(b.hash))
      && (k.Alt? ==> alt.top.Some? && alt.top.value - b.anchorHeight > 720 && !alt.byHash(k).orphan)
  {
    hide AnchorReached, AltAnchors, MainThrows, MainStops, AltThrows, MainEnds, NoAltThrows;
  }

  ghost function GroupedOver(groups: map<nat, set<Key>>, anchors: set<nat>): set<Key> {
    set a, k | a in anchors && a in groups && k in groups[a] :: k
  }

  ghost predicate AllOpen(table: Table, log: Log, keys: set<Key>, list: Table) {
    forall k :: k in keys ==> k in list && Open(table, log, k, list[k])
  }

  lemma OneOpen(table: Table, log: Log, k: Key, keys: set<Key>, list: Table)
    requires AllOpen(table, log, keys, list) && k in keys
    ensures k in list && Open(table, log, k, list[k])
  {
  }

  lemma OpenHashes(table: Table, log: Log, keys: set<Key>, list: Table)
    requires AllOpen(table, log, keys, list)
    ensures forall k :: k in keys ==> k in list && k in table && table[k].hash == list[k].hash
  {
  }

  lemma AddOpen(table: Table, log: Log, k: Key, keys: set<Key>, list: Table)
    requires AllOpen(table, log, keys, list) && k in list && Open(table, log, k, list[k])
    ensures AllOpen(table, log, keys + {k}, list)
  {
  }

  lemma SubsetOpen(table: Table, log: Log, keys: set<Key>, some: set<Key>, list: Table)
    requires AllOpen(table, log, keys, list) && some <= keys
    ensures AllOpen(table, log, some, list)
  {
  }

  lemma SingleOpen(table: Table, log: Log, k: Key, b: Block)
    requires Open(table, log, k, b)
    ensures AllOpen(table, log, {k}, map[k := b])
  {
  }

  lemma RestStayOpen(table: Table, log: Log, stopped: bool, table': Table, log': Log, touched: set<Key>, keys: set<Key>, list: Table)
    requires Consistent(table, log, stopped) && OnlyTouches(table, log, table', log', touched)
    requires AllOpen(table, log, keys, list)
    ensures AllOpen(table', log', keys - touched, list)
  {
    hide Consistent, OnlyTouches, Open;
    forall k | k in keys - touched
      ensures k in list && Open(table', log', k, list[k])
    {
      StaysOpen(table, log, stopped, table', log', touched, k, list[k]);
    }
  }

  lemma OthersStayOpen(table: Table, log: Log, stopped: bool, table': Table, log': Log, k: Key, keys: set<Key>, list: Table)
    requires Consistent(table, log, stopped) && OnlyTouches(table, log, table', log', {k})
    requires AllOpen(table, log, keys, list) && k in list && Open(table', log', k, list[k])
    ensures AllOpen(table', log', keys, list)
  {
    hide Consistent, OnlyTouches, Open;
    RestStayOpen(table, log, stopped, table', log', {k}, keys, list);
    AddOpen(table', log', k, keys - {k}, list);
    SubsetOpen(table', log', (keys - {k}) + {k}, keys, list);
  }

  lemma LogGrows(table: Table, log: Log, table': Table, log': Log, keys: set<Key>)
    requires OnlyTouches(table, log, table', log', keys)
    ensures log <= log'
  {
  }

  lemma StopSound(table: Table, log: Log, stopped: bool)
    requires Consistent(table, log, stopped)
    ensures Consistent(table, log, true)
  {
  }

  /** The valid locked blocks at the start of a cycle have been neither credited nor invalidated. */
  lemma ListIsOpen(table: Table, log: Log, list: Table)
    requires Consistent(table, log, false)
    requires forall k :: k in list ==> k in table && list[k] == table[k] && table[k].valid && !table[k].unlocked
    ensures AllOpen(table, log, list.Keys, list)
  {
    hide ReadyForPayout, Lawful;
    forall k | k in list.Keys
      ensures k in list && Open(table, log, k, list[k])
    {
      assert Settled(table[k], log);
    }
  }

  lemma ReadyStaysIfKnown(log: Log, more: Log, hash: Hash, known: bool)
    requires known ==> ReadyForPayout(log, hash)
    ensures known ==> ReadyForPayout(log + more, hash)
  {
    if known { ReadyStays(log, more, hash); }
  }

  // ------------------------------------------------------------------
  // Every run
  // ------------------------------------------------------------------

  datatype Turn = Found(key: Key, block: Block) | Cycle(main: Replies, alt: Replies)

  /** A new block with a new key and a new hash. */
  ghost predicate Admissible(table: Table, key: Key, block: Block) {
    && key !in table && block.valid && !block.unlocked && !block.payReady
    && forall k :: k in table ==> table[k].hash != block.hash
  }

  ghost predicate TurnDid(s: State, s': State, turn: Turn, required: int, round: nat)
    requires round > 0
  {
    match turn
    case Found(key, block) => s' == if Admissible(s.table, key, block) then s.(table := s.table[key := block]) else s
    case Cycle(main, alt) => CycleDid(s, s', main, alt, required, round)
  }

  /**
   Any blocks found and any cycles run, with any replies: every block is credited at most once, only after its
   rows were stored and it was marked ready, and never after it was invalidated; and every cycle does to every block
   what the replies say, and no more.
   */
  method Run(blocksRequired: int, anchorRound: nat, turns: seq<Turn>) returns (manager: BlockManager, ghost states: seq<State>)
    requires anchorRound > 0
    ensures fresh(manager) && manager.Valid()
    ensures Lawful(manager.log)
    ensures |states| == |turns| + 1 && states[0] == State(map[], {}, [], false) && states[|turns|] == manager.Now()
    ensures forall i :: 0 <= i < |turns| ==> TurnDid(states[i], states[i + 1], turns[i], blocksRequired, anchorRound)
  {
    hide CycleDid;
    manager := new BlockManager(blocksRequired, anchorRound);
    states := [manager.Now()];
    for i := 0 to |turns|
      invariant fresh(manager) && manager.Valid() && manager.blocksRequired == blocksRequired && manager.anchorRound == anchorRound
      invariant |states| == i + 1 && states[0] == State(map[], {}, [], false) && states[i] == manager.Now()
      invariant forall j :: 0 <= j < i ==> TurnDid(states[j], states[j + 1], turns[j], blocksRequired, anchorRound)
    {
      ghost var before := manager.Now();
      match turns[i] {
        case Found(key, block) =>
          if key !in manager.table && block.valid && !block.unlocked && !block.payReady
             && (forall k :: k in manager.table ==> manager.table[k].hash != block.hash) {
            manager.AddBlock(key, block);
          }
        case Cycle(main, alt) =>
          manager.RunCycle(main, alt);
      }
      assert TurnDid(before, manager.Now(), turns[i], blocksRequired, anchorRound);
      states := states + [manager.Now()];
    }
  }
}
