/**
 Finding or creating the balance row of a recipient, by any number of
 processes at once. Within a process, callers that ask for the same recipient
 share one lookup; a missing row is inserted, and an insert that the unique
 key refuses is answered by reading again.

 The unique key covers address, pool type and payment id, and lets rows
 without a payment id repeat, so that it protects only recipients that have
 one. Each method is one turn of one process.
 */
module BalanceLookup {
  import opened Wrappers

  type Pid = nat
  type Id = nat

  /** What identifies a balance; payment ids of ten characters or less count as none. */
  datatype Recipient = Recipient(address: string, poolType: string, paymentId: Option<string>)

  datatype Row = Row(recipient: Recipient, id: Id)

  datatype Phase = Loading | Inserting | Reloading

  datatype Answer = Answer(pid: Pid, recipient: Recipient, id: Id)

  function Count(rows: seq<Row>, r: Recipient): nat {
    if rows == [] then 0
    else Count(rows[..|rows| - 1], r) + if rows[|rows| - 1].recipient == r then 1 else 0
  }

  lemma CountMore(rows: seq<Row>, row: Row, r: Recipient)
    ensures Count(rows + [row], r) == Count(rows, r) + if row.recipient == r then 1 else 0
  {
    assert (rows + [row])[..|rows|] == rows;
  }

  lemma {:induction false} CountedIsThere(rows: seq<Row>, r: Recipient)
    ensures Count(rows, r) > 0 <==> exists i :: 0 <= i < |rows| && rows[i].recipient == r
  {
    if rows != [] {
      CountedIsThere(rows[..|rows| - 1], r);
    }
  }

  lemma {:induction false} TwoAreTwo(rows: seq<Row>, r: Recipient, i: nat, j: nat)
    requires i < j < |rows| && rows[i].recipient == r == rows[j].recipient
    ensures Count(rows, r) > 1
  {
    var n := |rows| - 1;
    if j < n {
      TwoAreTwo(rows[..n], r, i, j);
    } else {
      assert rows[..n][i].recipient == r;
      CountedIsThere(rows[..n], r);
    }
  }

  /** The row a lookup finds when there is one. */
  function Find(rows: seq<Row>, r: Recipient): (i: nat)
    requires Count(rows, r) > 0
    ensures i < |rows| && rows[i].recipient == r
  {
    if rows[|rows| - 1].recipient == r then |rows| - 1 else Find(rows[..|rows| - 1], r)
  }

  // ------------------------------------------------------------------
  // Who read and inserted what, in order
  // ------------------------------------------------------------------

  /** A load that found no row, and an insert that went through. */
  datatype Event = LoadedNone(pid: Pid, recipient: Recipient) | Inserted(pid: Pid, recipient: Recipient)

  /** Since the process last found no row, somebody's insert of the recipient went through. */
  predicate Overtaken(log: seq<Event>, p: Pid, r: Recipient) {
    if log == [] then false
    else
      var last := log[|log| - 1];
      if last == LoadedNone(p, r) then false
      else (last.Inserted? && last.recipient == r) || Overtaken(log[..|log| - 1], p, r)
  }

  /** Some insert of the recipient went through although another one had since the inserting process's own load. */
  predicate Raced(log: seq<Event>, r: Recipient) {
    log != [] &&
    var before, last := log[..|log| - 1], log[|log| - 1];
    (last.Inserted? && last.recipient == r && Overtaken(before, last.pid, r)) || Raced(before, r)
  }

  lemma LogMore(log: seq<Event>, e: Event)
    ensures forall p, r :: Overtaken(log + [e], p, r) <==>
      e != LoadedNone(p, r) && ((e.Inserted? && e.recipient == r) || Overtaken(log, p, r))
    ensures forall r :: Raced(log + [e], r) <==> (e.Inserted? && e.recipient == r && Overtaken(log, e.pid, r)) || Raced(log, r)
  {
    assert (log + [e])[..|log|] == log;
  }

  class BalanceLookups {
    var rows: seq<Row>
    var nextId: Id
    var balanceIdCache: map<(Pid, Recipient), Id>
    var pendingBalanceLookups: map<(Pid, Recipient), Phase>
    var fullStops: set<Pid>

    ghost var log: seq<Event>
    ghost var answers: seq<Answer>

    /** Ids are distinct, and what is known of rows is known from rows. */
    ghost predicate Known()
      reads this
    {
      && (forall i :: 0 <= i < |rows| ==> rows[i].id < nextId)
      && (forall i, j :: 0 <= i < j < |rows| ==> rows[i].id != rows[j].id)
      && (forall k :: k in balanceIdCache ==> Row(k.1, balanceIdCache[k]) in rows)
      && (forall k :: k in pendingBalanceLookups ==> k !in balanceIdCache)
      && (forall i :: 0 <= i < |answers| ==>
            var k := (answers[i].pid, answers[i].recipient);
            k in balanceIdCache && balanceIdCache[k] == answers[i].id)
    }

    /** A recipient has several rows exactly if inserts of it raced, which the unique key prevents when there is a payment id. */
    ghost predicate Counted()
      reads this
    {
      && (forall r :: Count(rows, r) > 1 <==> Raced(log, r))
      && (forall r :: Raced(log, r) ==> r.paymentId.None?)
      && (forall p, r :: Overtaken(log, p, r) ==> Count(rows, r) > 0)
      && (forall k :: k in pendingBalanceLookups && pendingBalanceLookups[k].Inserting? && !Overtaken(log, k.0, k.1) ==>
            Count(rows, k.1) == 0)
      && (forall k :: k in pendingBalanceLookups && pendingBalanceLookups[k].Reloading? ==>
            k.1.paymentId.Some? && Count(rows, k.1) > 0)
      && (fullStops != {} ==> exists r :: Raced(log, r))
    }

    ghost predicate Valid()
      reads this
    {
      Known() && Counted()
    }

    /** Rows, answers and what happened stay. */
    twostate predicate Grows()
      reads this
    {
      old(rows) <= rows && old(log) <= log && old(answers) <= answers && old(fullStops) <= fullStops
    }

    constructor (rows: seq<Row>, nextId: Id)
      requires (forall i :: 0 <= i < |rows| ==> rows[i].id < nextId) && (forall i, j :: 0 <= i < j < |rows| ==> rows[i].id != rows[j].id)
      requires forall r :: Count(rows, r) <= 1
      ensures Valid() && this.rows == rows && this.nextId == nextId && log == [] && answers == [] && fullStops == {}
      ensures balanceIdCache == map[] && pendingBalanceLookups == map[]
    {
      this.rows, this.nextId := rows, nextId;
      balanceIdCache, pendingBalanceLookups, fullStops := map[], map[], {};
      log, answers := [], [];
    }

    /** A caller asks: answered from the cache, joined to the lookup in progress, or starting one. */
    method GetOrCreateBalanceId(p: Pid, r: Recipient) returns (id: Option<Id>)
      requires Valid()
      modifies this`pendingBalanceLookups, this`answers
      ensures Valid() && Grows()
      ensures id == if (p, r) in balanceIdCache then Some(balanceIdCache[(p, r)]) else None
      ensures answers == old(answers) + if id.Some? then [Answer(p, r, id.value)] else []
      ensures pendingBalanceLookups ==
        if (p, r) in balanceIdCache || (p, r) in old(pendingBalanceLookups) then old(pendingBalanceLookups)
        else old(pendingBalanceLookups)[(p, r) := Loading]
    {
      hide Count, Raced, Overtaken;
      if (p, r) in balanceIdCache {
        answers := answers + [Answer(p, r, balanceIdCache[(p, r)])];
        return Some(balanceIdCache[(p, r)]);
      }
      if (p, r) !in pendingBalanceLookups {
        pendingBalanceLookups := pendingBalanceLookups[(p, r) := Loading];
      }
      id := None;
    }

    /** The row is known: it is cached, and everybody in the process who waits for it is answered. */
    method Answered(p: Pid, r: Recipient, id: Id)
      requires Valid() && (p, r) in pendingBalanceLookups && Row(r, id) in rows
      modifies this`balanceIdCache, this`pendingBalanceLookups, this`answers
      ensures Valid() && Grows()
      ensures balanceIdCache == old(balanceIdCache)[(p, r) := id]
      ensures pendingBalanceLookups == old(pendingBalanceLookups) - {(p, r)}
      ensures answers == old(answers) + [Answer(p, r, id)]
    {
      hide Count, Raced, Overtaken;
      balanceIdCache := balanceIdCache[(p, r) := id];
      pendingBalanceLookups := pendingBalanceLookups - {(p, r)};
      answers := answers + [Answer(p, r, id)];
    }

    /** Several rows for one recipient: the manager stops, and the callers throw. */
    method Stop(p: Pid, r: Recipient)
      requires Valid() && (p, r) in pendingBalanceLookups && Count(rows, r) > 1
      modifies this`fullStops, this`pendingBalanceLookups
      ensures Valid() && Grows() && fullStops == old(fullStops) + {p}
      ensures pendingBalanceLookups == old(pendingBalanceLookups) - {(p, r)}
    {
      hide Count, Overtaken;
      assert Raced(log, r);
      fullStops := fullStops + {p};
      pendingBalanceLookups := pendingBalanceLookups - {(p, r)};
    }

    /** The first read returns: several rows stop the manager, one is the answer, none is inserted. */
    method OnLoaded(p: Pid, r: Recipient)
      requires Valid() && (p, r) in pendingBalanceLookups && pendingBalanceLookups[(p, r)].Loading?
      modifies this
      ensures Valid() && Grows() && rows == old(rows)
      ensures fullStops == if Count(rows, r) > 1 then old(fullStops) + {p} else old(fullStops)
      ensures Count(rows, r) > 1 <==> Raced(old(log), r)
      ensures Count(rows, r) > 1 ==> answers == old(answers) && log == old(log)
      ensures Count(rows, r) == 1 ==>
        && (p, r) in balanceIdCache && Row(r, balanceIdCache[(p, r)]) in rows && log == old(log)
        && answers == old(answers) + [Answer(p, r, balanceIdCache[(p, r)])] && pendingBalanceLookups == old(pendingBalanceLookups) - {(p, r)}
      ensures Count(rows, r) == 0 ==>
        && log == old(log) + [LoadedNone(p, r)] && balanceIdCache == old(balanceIdCache) && answers == old(answers)
        && nextId == old(nextId) && pendingBalanceLookups == old(pendingBalanceLookups)[(p, r) := Inserting]
    {
      hide Count, Raced, Overtaken;
      if Count(rows, r) > 1 {
        Stop(p, r);
      } else if Count(rows, r) == 1 {
        Answered(p, r, rows[Find(rows, r)].id);
      } else {
        BeginInsert(p, r);
      }
    }

    method BeginInsert(p: Pid, r: Recipient)
      requires Valid() && (p, r) in pendingBalanceLookups && Count(rows, r) == 0
      modifies this`log, this`pendingBalanceLookups
      ensures Valid() && log == old(log) + [LoadedNone(p, r)]
      ensures pendingBalanceLookups == old(pendingBalanceLookups)[(p, r) := Inserting]
    {
      hide Count, Raced, Overtaken;
      LogMore(log, LoadedNone(p, r));
      ghost var raced :| fullStops != {} ==> Raced(log, raced);
      log := log + [LoadedNone(p, r)];
      pendingBalanceLookups := pendingBalanceLookups[(p, r) := Inserting];
      assert fullStops != {} ==> Raced(log, raced);
    }

    /** The insert: refused only if there is a payment id and such a row; otherwise it goes through, whatever rows there are. */
    method OnInserted(p: Pid, r: Recipient)
      requires Valid() && (p, r) in pendingBalanceLookups && pendingBalanceLookups[(p, r)].Inserting?
      modifies this
      ensures Valid() && Grows() && fullStops == old(fullStops)
      ensures if r.paymentId.Some? && Count(old(rows), r) > 0 then
                && rows == old(rows) && log == old(log) && pendingBalanceLookups == old(pendingBalanceLookups)[(p, r) := Reloading]
              else
                && rows == old(rows) + [Row(r, old(nextId))] && log == old(log) + [Inserted(p, r)] && nextId == old(nextId) + 1
                && balanceIdCache == old(balanceIdCache)[(p, r) := old(nextId)]
                && pendingBalanceLookups == old(pendingBalanceLookups) - {(p, r)}
                && answers == old(answers) + [Answer(p, r, old(nextId))]
    {
      hide Count, Raced, Overtaken;
      if r.paymentId.Some? && Count(rows, r) > 0 {
        pendingBalanceLookups := pendingBalanceLookups[(p, r) := Reloading];
      } else {
        Insert(p, r);
        Answered(p, r, nextId - 1);
      }
    }

    method Insert(p: Pid, r: Recipient)
      requires Valid() && (p, r) in pendingBalanceLookups && pendingBalanceLookups[(p, r)].Inserting?
      requires r.paymentId.Some? ==> Count(rows, r) == 0
      modifies this`rows, this`nextId, this`log
      ensures Valid() && rows == old(rows) + [Row(r, old(nextId))] && nextId == old(nextId) + 1
      ensures log == old(log) + [Inserted(p, r)]
    {
      hide Count, Raced, Overtaken;
      forall other
        ensures Count(rows + [Row(r, nextId)], other) == Count(rows, other) + if r == other then 1 else 0
      {
        CountMore(rows, Row(r, nextId), other);
      }
      LogMore(log, Inserted(p, r));
      ghost var raced :| fullStops != {} ==> Raced(log, raced);
      rows := rows + [Row(r, nextId)];
      nextId := nextId + 1;
      log := log + [Inserted(p, r)];
      assert fullStops != {} ==> Raced(log, raced);
    }

    /** The second read finds the one row the insert collided with; anything else would stop the manager. */
    method OnReloaded(p: Pid, r: Recipient)
      requires Valid() && (p, r) in pendingBalanceLookups && pendingBalanceLookups[(p, r)].Reloading?
      modifies this
      ensures Valid() && Grows() && rows == old(rows) && log == old(log) && fullStops == old(fullStops)
      ensures (p, r) in balanceIdCache && Row(r, balanceIdCache[(p, r)]) in rows && nextId == old(nextId)
      ensures answers == old(answers) + [Answer(p, r, balanceIdCache[(p, r)])] && pendingBalanceLookups == old(pendingBalanceLookups) - {(p, r)}
    {
      hide Count, Raced, Overtaken;
      fullStops := if Count(rows, r) == 1 then fullStops else fullStops + {p};
      Answered(p, r, rows[Find(rows, r)].id);
    }

    /** Any statement of the lookup may fail; its callers then throw, and a later caller starts anew. */
    method OnFailed(p: Pid, r: Recipient)
      requires Valid() && (p, r) in pendingBalanceLookups
      modifies this`pendingBalanceLookups
      ensures Valid() && Grows() && pendingBalanceLookups == old(pendingBalanceLookups) - {(p, r)}
    {
      hide Count, Raced, Overtaken;
      pendingBalanceLookups := pendingBalanceLookups - {(p, r)};
    }
  }

  // ------------------------------------------------------------------
  // Every order of turns
  // ------------------------------------------------------------------

  datatype Turn = Ask(pid: Pid, recipient: Recipient) | Reply(pid: Pid, recipient: Recipient) | Fail(pid: Pid, recipient: Recipient)

  /** A table with at most one row for each recipient. */
  ghost predicate Clean(rows: seq<Row>, nextId: Id) {
    && (forall i :: 0 <= i < |rows| ==> rows[i].id < nextId)
    && (forall i, j :: 0 <= i < j < |rows| ==> rows[i].id != rows[j].id)
    && forall r :: Count(rows, r) <= 1
  }

  /** Answers about one recipient to one process, or about a recipient whose inserts did not race. */
  predicate MustAgree(log: seq<Event>, a: Answer, b: Answer) {
    a.recipient == b.recipient && (a.pid == b.pid || !Raced(log, a.recipient))
  }

  method TakeTurn(lookups: BalanceLookups, turn: Turn)
    requires lookups.Valid()
    modifies lookups
    ensures lookups.Valid() && old(lookups.rows) <= lookups.rows
  {
    hide Count, Raced, Overtaken;
    var p, r := turn.pid, turn.recipient;
    match turn {
      case Ask(_, _) =>
        var _ := lookups.GetOrCreateBalanceId(p, r);
      case Fail(_, _) =>
        if (p, r) in lookups.pendingBalanceLookups { lookups.OnFailed(p, r); }
      case Reply(_, _) =>
        if (p, r) in lookups.pendingBalanceLookups {
          match lookups.pendingBalanceLookups[(p, r)] {
            case Loading => lookups.OnLoaded(p, r);
            case Inserting => lookups.OnInserted(p, r);
            case Reloading => lookups.OnReloaded(p, r);
          }
        }
    }
  }

  /**
   Any processes, in any order of questions, replies and failures. A recipient keeps to one row if and only if it has
   a payment id or no insert of it overtook another process between load and insert; then all processes are answered
   that row, and otherwise at least each process keeps to one. Nobody stops unless such a race happened.
   */
  method RunLookups(rows: seq<Row>, nextId: Id, turns: seq<Turn>) returns (lookups: BalanceLookups)
    requires Clean(rows, nextId)
    ensures fresh(lookups) && lookups.Valid() && rows <= lookups.rows
    ensures forall r :: Count(lookups.rows, r) <= 1 <==> r.paymentId.Some? || !Raced(lookups.log, r)
    ensures forall i :: 0 <= i < |lookups.answers| ==> Row(lookups.answers[i].recipient, lookups.answers[i].id) in lookups.rows
    ensures forall i, j :: 0 <= i < j < |lookups.answers| && MustAgree(lookups.log, lookups.answers[i], lookups.answers[j]) ==>
      lookups.answers[i].id == lookups.answers[j].id
    ensures lookups.fullStops != {} ==> exists r :: Raced(lookups.log, r)
  {
    hide Count, Raced, Overtaken;
    lookups := new BalanceLookups(rows, nextId);
    for k := 0 to |turns|
      invariant fresh(lookups) && lookups.Valid() && rows <= lookups.rows
    {
      TakeTurn(lookups, turns[k]);
    }
    AnswersAgree(lookups);
  }

  lemma AnswersAgree(lookups: BalanceLookups)
    requires lookups.Valid()
    ensures forall i, j :: 0 <= i < j < |lookups.answers| && MustAgree(lookups.log, lookups.answers[i], lookups.answers[j]) ==>
      lookups.answers[i].id == lookups.answers[j].id
  {
    hide Count, Raced, Overtaken;
    forall i, j | 0 <= i < j < |lookups.answers| && MustAgree(lookups.log, lookups.answers[i], lookups.answers[j])
      ensures lookups.answers[i].id == lookups.answers[j].id
    {
      var a, b := lookups.answers[i], lookups.answers[j];
      if a.pid != b.pid {
        var m :| 0 <= m < |lookups.rows| && lookups.rows[m] == Row(a.recipient, a.id);
        var n :| 0 <= n < |lookups.rows| && lookups.rows[n] == Row(b.recipient, b.id);
        if m < n {
          TwoAreTwo(lookups.rows, a.recipient, m, n);
        } else if n < m {
          TwoAreTwo(lookups.rows, a.recipient, n, m);
        }
      }
    }
  }

  lemma NothingCounted()
    ensures forall r :: Count([], r) == 0
  {
  }

  /** A process asks for a recipient that has no row, and finds none. */
  method AskAndFindNone(lookups: BalanceLookups, p: Pid, r: Recipient)
    requires lookups.Valid() && Count(lookups.rows, r) == 0
    requires (p, r) !in lookups.balanceIdCache && (p, r) !in lookups.pendingBalanceLookups
    modifies lookups
    ensures lookups.Valid() && lookups.pendingBalanceLookups == old(lookups.pendingBalanceLookups)[(p, r) := Inserting]
    ensures lookups.rows == old(lookups.rows) && lookups.nextId == old(lookups.nextId) && lookups.answers == old(lookups.answers)
    ensures lookups.balanceIdCache == old(lookups.balanceIdCache) && lookups.fullStops == old(lookups.fullStops)
  {
    hide Count, Raced, Overtaken, BalanceLookups.Known, BalanceLookups.Counted;
    var _ := lookups.GetOrCreateBalanceId(p, r);
    lookups.OnLoaded(p, r);
  }

  /** Two processes find no row for a recipient without a payment id, and both insert: there are two rows, and two answers. */
  method RacedInsert(r: Recipient) returns (lookups: BalanceLookups)
    requires r.paymentId.None?
    ensures fresh(lookups) && lookups.Valid() && lookups.rows == [Row(r, 1), Row(r, 2)]
    ensures lookups.answers == [Answer(1, r, 1), Answer(0, r, 2)]
    ensures (2, r) !in lookups.balanceIdCache && lookups.pendingBalanceLookups == map[] && lookups.fullStops == {}
  {
    hide Count, Raced, Overtaken, BalanceLookups.Known, BalanceLookups.Counted;
    NothingCounted();
    lookups := new BalanceLookups([], 1);
    AskAndFindNone(lookups, 0, r);
    AskAndFindNone(lookups, 1, r);
    lookups.OnInserted(1, r);
    lookups.OnInserted(0, r);
  }

  /** The next process that looks the recipient up stops for good. */
  method RacedInsertStops(r: Recipient) returns (lookups: BalanceLookups)
    requires r.paymentId.None?
    ensures fresh(lookups) && lookups.Valid() && lookups.fullStops == {2}
  {
    hide Count, Raced, Overtaken, BalanceLookups.Known, BalanceLookups.Counted;
    lookups := RacedInsert(r);
    TwoAreTwo(lookups.rows, r, 0, 1);
    var _ := lookups.GetOrCreateBalanceId(2, r);
    lookups.OnLoaded(2, r);
  }
}
