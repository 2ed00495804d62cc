/**
 From the credits of a block to the balance table: concurrent lookup workers
 resolve the recipients to balance rows, the amounts are added up per row,
 and updates of a hundred rows at a time go through in one transaction or not
 at all.
 */
module BalanceCredits {
  import opened Wrappers

  type Id = nat

  /** The address, pool type and payment id that identify a balance row. */
  datatype Recipient = Recipient(address: string, poolType: string, paymentId: Option<string>)

  datatype Payment = Payment(recipient: Recipient, amount: int)
  datatype Credit = Credit(id: Id, amount: int)

  const BALANCE_UPDATE_BATCH_SIZE: nat := 100

  // ------------------------------------------------------------------
  // Concurrent lookups
  // ------------------------------------------------------------------

  /** What can happen next: an idle worker claims the next payment, or a busy worker's lookup returns. */
  datatype LookupEvent = Claim(worker: nat) | Resolve(worker: nat)

  ghost predicate Injective(ids: map<Recipient, Id>) {
    forall a, b :: a in ids && b in ids && a != b ==> ids[a] != ids[b]
  }

  /** Recipients keep their rows. */
  ghost predicate Extends(before: map<Recipient, Id>, after: map<Recipient, Id>) {
    forall r :: r in before ==> r in after && after[r] == before[r]
  }

  lemma ExtendsSelf(ids: map<Recipient, Id>)
    ensures Extends(ids, ids)
  {
  }

  lemma ExtendsThen(a: map<Recipient, Id>, b: map<Recipient, Id>, c: map<Recipient, Id>)
    requires Extends(a, b) && Extends(b, c)
    ensures Extends(a, c)
  {
  }

  class CreditResolver {
    const payments: seq<Payment>
    const workers: nat
    var nextIndex: nat
    var busy: map<nat, nat>                    // the payment each busy worker has claimed
    var resolved: seq<Option<Credit>>
    var ids: map<Recipient, Id>                // the balance rows there are
    var nextId: Id

    /** Every claimed payment is resolved or claimed by exactly one worker, and no other is. */
    ghost predicate Valid()
      reads this
    {
      && nextIndex <= |payments| == |resolved|
      && (forall w :: w in busy ==> w < workers && busy[w] < nextIndex && resolved[busy[w]].None?)
      && (forall v, w :: v in busy && w in busy && v != w ==> busy[v] != busy[w])
      && (forall i :: 0 <= i < nextIndex ==> resolved[i].Some? || i in busy.Values)
      && (forall i :: nextIndex <= i < |payments| ==> resolved[i].None?)
      && (forall i :: 0 <= i < |payments| && resolved[i].Some? ==>
            && payments[i].recipient in ids
            && resolved[i].value == Credit(ids[payments[i].recipient], payments[i].amount))
      && Injective(ids) && (forall r :: r in ids ==> ids[r] < nextId)
    }

    constructor (payments: seq<Payment>, workers: nat, ids: map<Recipient, Id>, nextId: Id)
      requires Injective(ids) && forall r :: r in ids ==> ids[r] < nextId
      ensures Valid() && this.payments == payments && this.workers == workers && nextIndex == 0 && busy == map[] && this.ids == ids
    {
      this.payments, this.workers := payments, workers;
      nextIndex, busy, this.ids, this.nextId := 0, map[], ids, nextId;
      resolved := seq(|payments|, _ => None);
    }

    /** An idle worker takes the next payment, if there is one. */
    method ClaimNext(w: nat)
      requires Valid() && w < workers && w !in busy
      modifies this
      ensures Valid() && ids == old(ids) && resolved == old(resolved)
      ensures nextIndex == old(nextIndex) + (if old(nextIndex) < |payments| then 1 else 0)
      ensures busy == if old(nextIndex) < |payments| then old(busy)[w := old(nextIndex)] else old(busy)
    {
      if nextIndex < |payments| {
        var index := nextIndex;
        nextIndex := nextIndex + 1;
        forall i | 0 <= i < nextIndex && !resolved[i].Some?
          ensures i in busy[w := index].Values
        {
          if i == index {
            assert busy[w := index][w] == i;
          } else {
            var v :| v in busy && busy[v] == i;
            assert v in busy[w := index] && busy[w := index][v] == i;
          }
        }
        busy := busy[w := index];
      }
    }

    /** The balance row of a recipient, created when there is none; racing lookups end up with the same row. */
    method GetOrCreateBalanceId(recipient: Recipient) returns (id: Id)
      requires Injective(ids) && forall r :: r in ids ==> ids[r] < nextId
      modifies this`ids, this`nextId
      ensures Injective(ids) && forall r :: r in ids ==> ids[r] < nextId
      ensures recipient in ids && ids[recipient] == id
      ensures ids.Keys == old(ids).Keys + {recipient}
      ensures forall r :: r in old(ids) ==> ids[r] == old(ids)[r]
    {
      if recipient !in ids {
        ids := ids[recipient := nextId];
        nextId := nextId + 1;
      }
      id := ids[recipient];
    }

    /** A lookup returns and the worker is idle again. */
    method ResolveClaimed(w: nat)
      requires Valid() && w in busy
      modifies this
      ensures Valid() && nextIndex == old(nextIndex) && busy == old(busy) - {w}
      ensures forall i :: 0 <= i < |payments| && i != old(busy)[w] ==> resolved[i] == old(resolved)[i]
      ensures resolved[old(busy)[w]].Some?
      ensures Extends(old(ids), ids)
    {
      var index := busy[w];
      ghost var before := resolved;
      var id := GetOrCreateBalanceId(payments[index].recipient);
      resolved := resolved[index := Some(Credit(id, payments[index].amount))];
      forall i | 0 <= i < nextIndex && !resolved[i].Some?
        ensures i in (busy - {w}).Values
      {
        assert i in busy.Values;
        var v :| v in busy && busy[v] == i;
        assert v in busy - {w} && (busy - {w})[v] == i;
      }
      busy := busy - {w};
    }

    /**
     Runs the workers in any order. When none is busy and no payment is left, every payment has been resolved
     to its recipient's row: claimed by exactly one worker, in whatever order the lookups came back.
     */
    method Interleave(events: seq<LookupEvent>) returns (finished: bool)
      requires Valid()
      modifies this
      ensures Valid()
      ensures finished <==> nextIndex == |payments| && busy == map[]
      ensures finished ==> forall i :: 0 <= i < |payments| ==>
        && payments[i].recipient in ids
        && resolved[i] == Some(Credit(ids[payments[i].recipient], payments[i].amount))
      ensures |resolved| == |payments| && Extends(old(ids), ids)
    {
      hide Extends;
      ExtendsSelf(ids);
      for n := 0 to |events|
        invariant Valid()
        invariant Extends(old(ids), ids)
      {
        ghost var before := ids;
        ExtendsSelf(ids);
        match events[n] {
          case Claim(w) => if w < workers && w !in busy { ClaimNext(w); }
          case Resolve(w) => if w in busy { ResolveClaimed(w); }
        }
        ExtendsThen(old(ids), before, ids);
      }
      finished := nextIndex == |payments| && busy == map[];
    }

    /** Waits for what is still to come: the lookups in progress return, and the payments left are taken one after the other. */
    method AwaitAll()
      requires Valid() && (workers > 0 || payments == [])
      modifies this
      ensures Valid()
      ensures forall i :: 0 <= i < |payments| ==>
        && payments[i].recipient in ids
        && resolved[i] == Some(Credit(ids[payments[i].recipient], payments[i].amount))
      ensures |resolved| == |payments| && Extends(old(ids), ids)
    {
      hide Extends;
      ExtendsSelf(ids);
      while busy != map[] || nextIndex < |payments|
        invariant Valid()
        invariant Extends(old(ids), ids)
        decreases |payments| - nextIndex, |busy|
      {
        ghost var before := ids;
        ExtendsSelf(ids);
        if busy != map[] {
          var w :| w in busy;
          ResolveClaimed(w);
        } else {
          ClaimNext(0);
        }
        ExtendsThen(old(ids), before, ids);
      }
    }
  }

  // ------------------------------------------------------------------
  // Adding up per row
  // ------------------------------------------------------------------

  function SumFor(credits: seq<Credit>, id: Id): int {
    if credits == [] then 0 else (if credits[0].id == id then credits[0].amount else 0) + SumFor(credits[1..], id)
  }

  function Total(credits: seq<Credit>): int {
    if credits == [] then 0 else credits[0].amount + Total(credits[1..])
  }

  ghost predicate Distinct(credits: seq<Credit>) {
    forall i, j :: 0 <= i < j < |credits| ==> credits[i].id != credits[j].id
  }

  lemma {:induction false} SumsConcat(a: seq<Credit>, b: seq<Credit>, id: Id)
    ensures SumFor(a + b, id) == SumFor(a, id) + SumFor(b, id)
    ensures Total(a + b) == Total(a) + Total(b)
  {
    if a == [] {
      assert a + b == b;
    } else {
      assert (a + b)[1..] == a[1..] + b;
      SumsConcat(a[1..], b, id);
    }
  }

  lemma SumsOfOne(c: Credit, id: Id)
    ensures SumFor([c], id) == (if c.id == id then c.amount else 0) && Total([c]) == c.amount
  {
    assert [c][1..] == [];
  }

  lemma {:induction false} SumsUpdate(credits: seq<Credit>, k: nat, amount: int, id: Id)
    requires k < |credits|
    ensures var c := Credit(credits[k].id, credits[k].amount + amount);
            && SumFor(credits[k := c], id) == SumFor(credits, id) + (if credits[k].id == id then amount else 0)
            && Total(credits[k := c]) == Total(credits) + amount
  {
    var c := Credit(credits[k].id, credits[k].amount + amount);
    if k == 0 {
      assert credits[0 := c][1..] == credits[1..];
    } else {
      assert credits[k := c][1..] == credits[1..][k - 1 := c];
      SumsUpdate(credits[1..], k - 1, amount, id);
    }
  }

  function IndexOf(credits: seq<Credit>, id: Id): (k: nat)
    ensures k <= |credits|
    ensures k < |credits| ==> credits[k].id == id
    ensures k == |credits| ==> forall i :: 0 <= i < |credits| ==> credits[i].id != id
  {
    if credits == [] || credits[0].id == id then 0 else 1 + IndexOf(credits[1..], id)
  }

  /** One entry per balance row, in the order the rows first occur, leaving out empty credits. */
  method Aggregate(resolved: seq<Credit>) returns (aggregated: seq<Credit>)
    ensures Distinct(aggregated)
    ensures forall id :: SumFor(aggregated, id) == SumFor(resolved, id)
    ensures Total(aggregated) == Total(resolved)
    ensures forall rows :: AllHaveRows(rows, resolved) ==> AllHaveRows(rows, aggregated)
  {
    hide SumFor, Total, HasRow;
    aggregated := [];
    SumsOfNone();
    for i := 0 to |resolved|
      invariant Distinct(aggregated)
      invariant forall id :: SumFor(aggregated, id) == SumFor(resolved[..i], id)
      invariant Total(aggregated) == Total(resolved[..i])
      invariant forall rows :: AllHaveRows(rows, resolved) ==> AllHaveRows(rows, aggregated)
    {
      var c := resolved[i];
      ghost var before := aggregated;
      if c.amount != 0 {
        var k := IndexOf(aggregated, c.id);
        if k < |aggregated| {
          aggregated := aggregated[k := Credit(c.id, aggregated[k].amount + c.amount)];
        } else {
          aggregated := aggregated + [c];
        }
      }
      assert resolved[..i + 1] == resolved[..i] + [c];
      forall id
        ensures SumFor(aggregated, id) == SumFor(resolved[..i + 1], id) && Total(aggregated) == Total(resolved[..i + 1])
      {
        AggregateStep(before, aggregated, resolved[..i], c, id);
      }
      assert SumFor(aggregated, 0) == SumFor(resolved[..i + 1], 0);
    }
    assert resolved[..|resolved|] == resolved;
  }

  lemma SumsOfNone()
    ensures forall id :: SumFor([], id) == 0
    ensures Total([]) == 0
  {
  }

  lemma AggregateStep(before: seq<Credit>, after: seq<Credit>, prefix: seq<Credit>, c: Credit, id: Id)
    requires SumFor(before, id) == SumFor(prefix, id) && Total(before) == Total(prefix)
    requires var k := IndexOf(before, c.id);
             after == if c.amount == 0 then before
                      else if k < |before| then before[k := Credit(c.id, before[k].amount + c.amount)]
                      else before + [c]
    ensures SumFor(after, id) == SumFor(prefix + [c], id) && Total(after) == Total(prefix + [c])
  {
    hide SumFor, Total;
    SumsConcat(prefix, [c], id);
    SumsOfOne(c, id);
    var k := IndexOf(before, c.id);
    if k < |before| {
      SumsUpdate(before, k, c.amount, id);
    } else {
      SumsConcat(before, [c], id);
    }
  }

  // ------------------------------------------------------------------
  // The balance table
  // ------------------------------------------------------------------

  datatype BalanceRow = BalanceRow(id: Id, amount: int)

  ghost predicate DistinctRows(rows: seq<BalanceRow>) {
    forall i, j :: 0 <= i < j < |rows| ==> rows[i].id != rows[j].id
  }

  function SumRows(rows: seq<BalanceRow>): int {
    if rows == [] then 0 else rows[0].amount + SumRows(rows[1..])
  }

  /** Every row increased by the credits there are for it. */
  function Credited(rows: seq<BalanceRow>, credits: seq<Credit>): (r: seq<BalanceRow>)
    ensures |r| == |rows|
    ensures forall i :: 0 <= i < |rows| ==> r[i] == BalanceRow(rows[i].id, rows[i].amount + SumFor(credits, rows[i].id))
  {
    seq(|rows|, i requires 0 <= i < |rows| => BalanceRow(rows[i].id, rows[i].amount + SumFor(credits, rows[i].id)))
  }

  /** The value a CASE over the batch gives a row: its first match, or nothing. */
  function CaseAmount(batch: seq<Credit>, id: Id): int {
    var k := IndexOf(batch, id);
    if k < |batch| then batch[k].amount else 0
  }

  lemma {:induction false} CaseIsSum(batch: seq<Credit>, id: Id)
    requires Distinct(batch)
    ensures CaseAmount(batch, id) == SumFor(batch, id)
  {
    if batch != [] {
      if batch[0].id == id {
        NoMore(batch[1..], id);
      } else {
        CaseIsSum(batch[1..], id);
      }
    }
  }

  lemma {:induction false} NoMore(credits: seq<Credit>, id: Id)
    requires forall i :: 0 <= i < |credits| ==> credits[i].id != id
    ensures SumFor(credits, id) == 0
  {
    if credits != [] {
      NoMore(credits[1..], id);
    }
  }

  /** How many rows an update over these ids touches. */
  function Affected(rows: seq<BalanceRow>, batch: seq<Credit>): nat {
    if rows == [] then 0 else (if IndexOf(batch, rows[0].id) < |batch| then 1 else 0) + Affected(rows[1..], batch)
  }

  ghost predicate HasRow(rows: seq<BalanceRow>, id: Id) {
    exists i :: 0 <= i < |rows| && rows[i].id == id
  }

  ghost predicate AllHaveRows(rows: seq<BalanceRow>, credits: seq<Credit>) {
    forall i :: 0 <= i < |credits| ==> HasRow(rows, credits[i].id)
  }

  ghost function RowIds(rows: seq<BalanceRow>): set<Id> {
    if rows == [] then {} else {rows[0].id} + RowIds(rows[1..])
  }

  ghost function CreditIds(credits: seq<Credit>): set<Id> {
    if credits == [] then {} else {credits[0].id} + CreditIds(credits[1..])
  }

  lemma {:induction false} RowIdsMean(rows: seq<BalanceRow>, id: Id)
    ensures id in RowIds(rows) <==> HasRow(rows, id)
  {
    if rows != [] {
      RowIdsMean(rows[1..], id);
      if HasRow(rows[1..], id) {
        var i :| 0 <= i < |rows[1..]| && rows[1..][i].id == id;
        assert rows[i + 1].id == id;
      }
      if HasRow(rows, id) && rows[0].id != id {
        var i :| 0 <= i < |rows| && rows[i].id == id;
        assert rows[1..][i - 1].id == id;
      }
    }
  }

  lemma {:induction false} CreditIdsMean(credits: seq<Credit>, id: Id)
    ensures id in CreditIds(credits) <==> IndexOf(credits, id) < |credits|
    ensures Distinct(credits) ==> |CreditIds(credits)| == |credits|
  {
    if credits != [] {
      CreditIdsMean(credits[1..], id);
      CreditIdsMean(credits[1..], credits[0].id);
    }
  }

  lemma {:induction false} AffectedIsOverlap(rows: seq<BalanceRow>, batch: seq<Credit>)
    requires DistinctRows(rows)
    ensures Affected(rows, batch) == |RowIds(rows) * CreditIds(batch)|
  {
    hide CreditIds, IndexOf;
    if rows == [] {
      assert RowIds(rows) * CreditIds(batch) == {};
    } else {
      var id := rows[0].id;
      AffectedIsOverlap(rows[1..], batch);
      CreditIdsMean(batch, id);
      RowIdsMean(rows[1..], id);
      var rest := RowIds(rows[1..]) * CreditIds(batch);
      assert RowIds(rows) * CreditIds(batch) == rest + if id in CreditIds(batch) then {id} else {};
      assert id !in rest;
    }
  }

  lemma SubsetOfSameSize(a: set<Id>, b: set<Id>)
    requires a <= b && |a| == |b|
    ensures a == b
  {
    if a != b {
      var x :| x in b && x !in a;
      assert a <= b - {x};
      SmallerSet(a, b - {x});
    }
  }

  lemma {:induction false} SmallerSet(a: set<Id>, b: set<Id>)
    requires a <= b
    ensures |a| <= |b|
    decreases |a|
  {
    if a != {} {
      var x :| x in a;
      SmallerSet(a - {x}, b - {x});
    }
  }

  /** An update touches as many rows as it names exactly when every one of them exists. */
  lemma {:induction false} AffectedIffAllExist(rows: seq<BalanceRow>, batch: seq<Credit>)
    requires DistinctRows(rows) && Distinct(batch)
    ensures Affected(rows, batch) == |batch| <==> AllHaveRows(rows, batch)
  {
    hide Affected, HasRow, IndexOf;
    AffectedIsOverlap(rows, batch);
    CreditIdsMean(batch, 0);
    var ids, overlap := CreditIds(batch), RowIds(rows) * CreditIds(batch);
    if Affected(rows, batch) == |batch| {
      SubsetOfSameSize(overlap, ids);
      forall i | 0 <= i < |batch|
        ensures HasRow(rows, batch[i].id)
      {
        CreditIdsHas(batch, i);
        RowIdsMean(rows, batch[i].id);
      }
    }
    if AllHaveRows(rows, batch) {
      forall id | id in ids
        ensures id in overlap
      {
        var i := CreditIdsIndex(batch, id);
        RowIdsMean(rows, id);
      }
      assert overlap == ids;
    }
  }

  lemma {:induction false} CreditIdsHas(credits: seq<Credit>, i: nat)
    requires i < |credits|
    ensures credits[i].id in CreditIds(credits)
  {
    if i > 0 {
      CreditIdsHas(credits[1..], i - 1);
    }
  }

  lemma {:induction false} CreditIdsIndex(credits: seq<Credit>, id: Id) returns (i: nat)
    requires id in CreditIds(credits)
    ensures i < |credits| && credits[i].id == id
  {
    if credits[0].id == id {
      i := 0;
    } else {
      var j := CreditIdsIndex(credits[1..], id);
      i := j + 1;
    }
  }

  lemma {:induction false} CreditedKeepsRows(rows: seq<BalanceRow>, credits: seq<Credit>, some: seq<Credit>)
    ensures AllHaveRows(Credited(rows, credits), some) <==> AllHaveRows(rows, some)
    ensures DistinctRows(rows) ==> DistinctRows(Credited(rows, credits))
  {
    hide SumFor;
    var after := Credited(rows, credits);
    forall id
      ensures HasRow(after, id) <==> HasRow(rows, id)
    {
      if HasRow(after, id) {
        var i :| 0 <= i < |after| && after[i].id == id;
        assert rows[i].id == id;
      }
      if HasRow(rows, id) {
        var i :| 0 <= i < |rows| && rows[i].id == id;
        assert after[i].id == id;
      }
    }
  }

  /** One UPDATE: every row of the batch gets its CASE value; fails unless it touched exactly the rows asked for. */
  method UpdateBatch(rows: seq<BalanceRow>, batch: seq<Credit>) returns (after: seq<BalanceRow>, ok: bool)
    requires Distinct(batch)
    ensures ok <==> Affected(rows, batch) == |batch|
    ensures after == Credited(rows, batch)
  {
    after := [];
    for i := 0 to |rows|
      invariant |after| == i && after == Credited(rows, batch)[..i]
    {
      CaseIsSum(batch, rows[i].id);
      after := after + [BalanceRow(rows[i].id, rows[i].amount + CaseAmount(batch, rows[i].id))];
    }
    ok := Affected(rows, batch) == |batch|;
  }

  lemma {:induction false} CreditedTwice(rows: seq<BalanceRow>, a: seq<Credit>, b: seq<Credit>)
    ensures Credited(Credited(rows, a), b) == Credited(rows, a + b)
  {
    hide SumFor;
    forall i | 0 <= i < |rows|
      ensures Credited(Credited(rows, a), b)[i] == Credited(rows, a + b)[i]
    {
      SumsConcat(a, b, rows[i].id);
    }
  }

  /** All updates of a transaction, a hundred rows at a time; any mismatch throws. */
  method ApplyBalanceCredits(rows: seq<BalanceRow>, credits: seq<Credit>) returns (after: seq<BalanceRow>, total: int, threw: bool)
    requires Distinct(credits) && DistinctRows(rows)
    ensures !threw ==> after == Credited(rows, credits) && total == Total(credits)
    ensures threw <==> !AllHaveRows(rows, credits)
  {
    hide SumFor, Total, Credited, Affected, HasRow;
    total, threw, after := 0, false, rows;
    var index := 0;
    NothingCredited(rows);
    while index < |credits|
      invariant 0 <= index <= |credits|
      invariant after == Credited(rows, credits[..index]) && total == Total(credits[..index])
      invariant AllHaveRows(rows, credits[..index])
    {
      var next := if index + BALANCE_UPDATE_BATCH_SIZE < |credits| then index + BALANCE_UPDATE_BATCH_SIZE else |credits|;
      var batch := credits[index..next];
      assert credits[..next] == credits[..index] + batch;
      var ok;
      CreditedKeepsRows(rows, credits[..index], batch);
      AffectedIffAllExist(after, batch);
      after, ok := UpdateBatch(after, batch);
      CreditedTwice(rows, credits[..index], batch);
      SumsConcat(credits[..index], batch, 0);
      var more := TotalOf(batch);
      total := total + more;
      if !ok {
        threw := true;
        return;
      }
      index := next;
    }
    assert credits[..index] == credits;
  }

  lemma NothingCredited(rows: seq<BalanceRow>)
    ensures Credited(rows, []) == rows && Total([]) == 0
  {
  }

  method TotalOf(batch: seq<Credit>) returns (total: int)
    ensures total == Total(batch)
  {
    total := 0;
    for i := 0 to |batch|
      invariant total == Total(batch[..i])
    {
      SumsConcat(batch[..i], [batch[i]], 0);
      SumsOfOne(batch[i], 0);
      assert batch[..i + 1] == batch[..i] + [batch[i]];
      total := total + batch[i].amount;
    }
    assert batch[..|batch|] == batch;
  }

  lemma SameCredits(rows: seq<BalanceRow>, a: seq<Credit>, b: seq<Credit>)
    requires forall id :: SumFor(a, id) == SumFor(b, id)
    ensures Credited(rows, a) == Credited(rows, b)
  {
    hide SumFor;
  }

  // ------------------------------------------------------------------
  // Conservation
  // ------------------------------------------------------------------

  function SumOver(rows: seq<BalanceRow>, credits: seq<Credit>): int {
    if rows == [] then 0 else SumFor(credits, rows[0].id) + SumOver(rows[1..], credits)
  }

  lemma {:induction false} SumRowsCredited(rows: seq<BalanceRow>, credits: seq<Credit>)
    ensures SumRows(Credited(rows, credits)) == SumRows(rows) + SumOver(rows, credits)
  {
    hide SumFor;
    if rows != [] {
      SumRowsCredited(rows[1..], credits);
      assert Credited(rows, credits)[1..] == Credited(rows[1..], credits);
    }
  }

  lemma {:induction false} SumOverFirst(rows: seq<BalanceRow>, credits: seq<Credit>)
    requires credits != [] && DistinctRows(rows)
    ensures SumOver(rows, credits) == (if HasRow(rows, credits[0].id) then credits[0].amount else 0) + SumOver(rows, credits[1..])
  {
    if rows != [] {
      var id := credits[0].id;
      SumOverFirst(rows[1..], credits);
      assert HasRow(rows, id) <==> rows[0].id == id || HasRow(rows[1..], id) by {
        if HasRow(rows[1..], id) {
          var i :| 0 <= i < |rows[1..]| && rows[1..][i].id == id;
          assert rows[i + 1].id == id;
        }
        if HasRow(rows, id) && rows[0].id != id {
          var i :| 0 <= i < |rows| && rows[i].id == id;
          assert rows[1..][i - 1].id == id;
        }
      }
      assert rows[0].id == id ==> !HasRow(rows[1..], id);
    }
  }

  lemma {:induction false} SumOverAll(rows: seq<BalanceRow>, credits: seq<Credit>)
    requires DistinctRows(rows) && AllHaveRows(rows, credits)
    ensures SumOver(rows, credits) == Total(credits)
    decreases |credits|
  {
    hide HasRow;
    if credits == [] {
      NoCreditsNoSum(rows);
    } else {
      SumOverFirst(rows, credits);
      SumOverAll(rows, credits[1..]);
    }
  }

  lemma {:induction false} NoCreditsNoSum(rows: seq<BalanceRow>)
    ensures SumOver(rows, []) == 0
  {
    if rows != [] {
      NoCreditsNoSum(rows[1..]);
    }
  }

  /** The sum of all balances grows by exactly the credits, when every credit has its row. */
  lemma {:induction false} BalancesGrowByCredits(rows: seq<BalanceRow>, credits: seq<Credit>)
    requires DistinctRows(rows) && AllHaveRows(rows, credits)
    ensures SumRows(Credited(rows, credits)) == SumRows(rows) + Total(credits)
  {
    hide SumFor, Credited, HasRow;
    SumRowsCredited(rows, credits);
    SumOverAll(rows, credits);
  }
}
