/**
 Runs of the budget protocol: any interleaving of reservations, settle attempts of any number of workers
 (each a lookup and, later, a booking), aborted attempts and retention sweeps. A commit whose
 acknowledgement is lost is a booking the worker does not know about; its retry is one more attempt.
 */
module BudgetRuns {
  import opened Common
  import opened BudgetStore

  /** A settle attempt between its lookup and its booking. */
  datatype Attempting = Attempting(id: string, key: Key, cost: Cost)

  datatype Booking = Booking(id: string, key: Key, usd: real)

  /** The tables, the open settle attempts, and the history a statement about whole runs needs. */
  datatype Sys = Sys(db: Db, open: map<nat, Attempting>, issued: map<string, Key>, booked: seq<Booking>,
                     pruned: set<string>)

  datatype Event =
    | Reserve(key: Key, limit: real, amount: real, id: string, ttl: real, stamp: real)
    | Lookup(worker: nat, id: string, cost: Cost)
    | Book(worker: nat)
    | Abort(worker: nat)
    | Prune(now: real)

  function Ids(rows: seq<Row>): set<string> { set r | r in rows :: r.id }

  /** Reservation ids are random 128-bit tokens: no two requests draw the same one. */
  predicate Enabled(s: Sys, e: Event) {
    match e
    case Reserve(_, _, _, id, _, _) => id !in s.issued
    case Lookup(worker, _, _) => worker !in s.open
    case Book(worker) => worker in s.open
    case Abort(worker) => worker in s.open
    case Prune(_) => true
  }

  function Step(s: Sys, e: Event): Sys
    requires Enabled(s, e)
  {
    match e
    case Reserve(key, limit, amount, id, ttl, stamp) =>
      s.(db := AfterReserve(s.db, key, limit, amount, id, ttl, stamp),
         issued := if Admits(s.db, key, limit, amount, stamp) then s.issued[id := key] else s.issued)
    case Lookup(worker, id, cost) =>
      if Has(s.db.rows, id)
      then s.(open := s.open[worker := Attempting(id, s.db.rows[IndexOf(s.db.rows, id)].key, cost)])
      else s
    case Book(worker) =>
      var a := s.open[worker];
      s.(db := AfterBooking(s.db, a.id, a.key, a.cost), open := s.open - {worker},
         booked := if Has(s.db.rows, a.id)
                   then s.booked + [Booking(a.id, a.key, BudgetStore.Booked(a.cost))]
                   else s.booked)
    case Abort(worker) => s.(open := s.open - {worker})
    case Prune(now) =>
      s.(db := s.db.(rows := Unpruned(s.db.rows, now)),
         pruned := s.pruned + (Ids(s.db.rows) - Ids(Unpruned(s.db.rows, now))))
  }

  predicate IsRun(s: Sys, es: seq<Event>)
    decreases |es|
  {
    es == [] || (Enabled(s, es[0]) && IsRun(Step(s, es[0]), es[1..]))
  }

  function Run(s: Sys, es: seq<Event>): Sys
    requires IsRun(s, es)
    decreases |es|
  {
    if es == [] then s else Run(Step(s, es[0]), es[1..])
  }

  const START := Sys(Db(map[], []), map[], map[], [], {})

  // ---- what every reachable state satisfies ----

  function TotalBooked(booked: seq<Booking>, key: Key): real {
    if booked == [] then 0.0 else
      TotalBooked(booked[..|booked| - 1], key) +
      var b := booked[|booked| - 1]; if b.key == key then b.usd else 0.0
  }

  ghost predicate RowOk(r: Row, issued: map<string, Key>, usage: map<Key, Usage>) {
    r.id in issued && issued[r.id] == r.key && r.key in usage && r.amount >= 0.0
  }

  ghost predicate RowsOk(s: Sys) {
    && UniqueIds(s.db.rows)
    && forall i :: 0 <= i < |s.db.rows| ==> RowOk(s.db.rows[i], s.issued, s.db.usage)
  }

  ghost predicate OpenOk(s: Sys) {
    forall w :: w in s.open ==> s.open[w].id in s.issued && s.issued[s.open[w].id] == s.open[w].key
  }

  ghost predicate BookedOk(s: Sys) {
    && (forall i, j :: 0 <= i < j < |s.booked| ==> s.booked[i].id != s.booked[j].id)
    && (forall i :: 0 <= i < |s.booked| ==> s.booked[i].id in s.issued && s.issued[s.booked[i].id] == s.booked[i].key)
  }

  function BookedIds(booked: seq<Booking>): set<string> { set b | b in booked :: b.id }

  /** Every issued reservation is in exactly one place: its row, the books, or pruned unsettled. */
  ghost predicate Accounted(s: Sys) {
    && s.issued.Keys == Ids(s.db.rows) + BookedIds(s.booked) + s.pruned
    && Ids(s.db.rows) !! BookedIds(s.booked) && Ids(s.db.rows) !! s.pruned && BookedIds(s.booked) !! s.pruned
  }

  /** The usage rows say what the bookings and the live reservations add up to. */
  ghost predicate MoneyAt(s: Sys, key: Key) {
    && UsageOf(s.db, key).spent == TotalBooked(s.booked, key)
    && UsageOf(s.db, key).reserved == LiveSum(s.db.rows, key)
  }

  ghost predicate Money(s: Sys) {
    forall key :: MoneyAt(s, key)
  }

  ghost predicate Inv(s: Sys) {
    RowsOk(s) && OpenOk(s) && BookedOk(s) && Accounted(s) && Money(s)
  }

  lemma HasIff(rows: seq<Row>, id: string)
    ensures Has(rows, id) <==> id in Ids(rows)
  {
    if Has(rows, id) {
      assert rows[IndexOf(rows, id)] in rows;
    }
  }

  lemma {:induction false} UnprunedOk(rows: seq<Row>, now: real)
    requires UniqueIds(rows)
    ensures UniqueIds(Unpruned(rows, now))
    ensures forall i :: 0 <= i < |Unpruned(rows, now)| ==> Unpruned(rows, now)[i] in rows
  {
    if rows == [] {
    } else {
      UnprunedOk(rows[1..], now);
      forall i | 0 <= i < |Unpruned(rows[1..], now)| ensures Unpruned(rows[1..], now)[i].id != rows[0].id {
        var k :| 0 <= k < |rows[1..]| && rows[1..][k] == Unpruned(rows[1..], now)[i];
      }
    }
  }

  lemma SweepKeepsIds(rows: seq<Row>, key: Key, stamp: real)
    ensures Ids(Sweep(rows, key, stamp)) == Ids(rows)
  {
    var swept := Sweep(rows, key, stamp);
    forall r | r in rows ensures r.id in Ids(swept) {
      var i :| 0 <= i < |rows| && rows[i] == r;
      assert swept[i] in swept;
    }
  }

  lemma AppendIds(rows: seq<Row>, row: Row)
    ensures Ids(rows + [row]) == Ids(rows) + {row.id}
  {
    assert row in rows + [row];
  }

  lemma SweepKeepsUnique(rows: seq<Row>, key: Key, stamp: real)
    requires UniqueIds(rows)
    ensures UniqueIds(Sweep(rows, key, stamp))
  {
    var swept := Sweep(rows, key, stamp);
    forall i, j | 0 <= i < j < |swept| ensures swept[i].id != swept[j].id {
      assert swept[i].id == rows[i].id && swept[j].id == rows[j].id;
    }
  }

  lemma ReserveRows(s: Sys, e: Event)
    requires Inv(s) && e.Reserve? && Enabled(s, e)
    ensures RowsOk(Step(s, e))
  {
    var rows, s' := s.db.rows, Step(s, e);
    var swept := Sweep(rows, e.key, e.stamp);
    HasIff(rows, e.id);
    SweepKeepsUnique(rows, e.key, e.stamp);
    forall i | 0 <= i < |rows| ensures RowOk(swept[i], s'.issued, s'.db.usage) && swept[i].id != e.id {
      assert rows[i] in rows;
      assert RowOk(rows[i], s.issued, s.db.usage);
    }
  }

  lemma ReserveHistory(s: Sys, e: Event)
    requires OpenOk(s) && BookedOk(s) && e.Reserve? && Enabled(s, e)
    ensures OpenOk(Step(s, e)) && BookedOk(Step(s, e))
  {
  }

  lemma ReserveAccounted(s: Sys, e: Event)
    requires Inv(s) && e.Reserve? && Enabled(s, e)
    ensures Accounted(Step(s, e))
  {
    var swept := Sweep(s.db.rows, e.key, e.stamp);
    HasIff(s.db.rows, e.id);
    SweepKeepsIds(s.db.rows, e.key, e.stamp);
    AppendIds(swept, NewRow(e.key, e.amount, e.id, e.ttl, e.stamp));
  }

  lemma ReserveMoney(s: Sys, e: Event, key: Key)
    requires Inv(s) && e.Reserve? && Enabled(s, e)
    ensures MoneyAt(Step(s, e), key)
  {
    assert MoneyAt(s, key);
    HasIff(s.db.rows, e.id);
    ReserveLive(s.db, e.key, e.limit, e.amount, e.id, e.ttl, e.stamp, key);
  }

  /** What is left of the rows keeps its properties. */
  lemma WithoutOk(rows: seq<Row>, id: string, issued: map<string, Key>, usage: map<Key, Usage>, usage': map<Key, Usage>)
    requires Has(rows, id) && UniqueIds(rows) && usage.Keys <= usage'.Keys
    requires forall i :: 0 <= i < |rows| ==> RowOk(rows[i], issued, usage)
    ensures UniqueIds(Without(rows, id))
    ensures forall i :: 0 <= i < |Without(rows, id)| ==> RowOk(Without(rows, id)[i], issued, usage')
  {
    SettledIsGone(rows, id);
    var at := IndexOf(rows, id);
    forall i | 0 <= i < |Without(rows, id)| ensures RowOk(Without(rows, id)[i], issued, usage') {
      assert Without(rows, id)[i] == rows[if i < at then i else i + 1];
    }
  }

  lemma BookRows(s: Sys, e: Event)
    requires Inv(s) && e.Book? && Enabled(s, e)
    ensures RowsOk(Step(s, e)) && OpenOk(Step(s, e))
  {
    var a := s.open[e.worker];
    if Has(s.db.rows, a.id) {
      WithoutOk(s.db.rows, a.id, s.issued, s.db.usage, Step(s, e).db.usage);
    }
  }

  lemma {:induction false} BookHistory(s: Sys, e: Event)
    requires Inv(s) && e.Book? && Enabled(s, e)
    ensures BookedOk(Step(s, e)) && Accounted(Step(s, e))
  {
    var s' := Step(s, e);
    var a := s.open[e.worker];
    HasIff(s.db.rows, a.id);
    if Has(s.db.rows, a.id) {
      assert BookedIds(s'.booked) == BookedIds(s.booked) + {a.id} by {
        BookedIdsAppend(s.booked, Booking(a.id, a.key, BudgetStore.Booked(a.cost)));
      }
      WithoutIds(s.db.rows, a.id);
      forall k | 0 <= k < |s.booked| ensures s.booked[k].id != a.id { assert s.booked[k] in s.booked; }
    }
  }

  lemma BookedIdsAppend(booked: seq<Booking>, b: Booking)
    ensures BookedIds(booked + [b]) == BookedIds(booked) + {b.id}
  {
    assert b in booked + [b];
  }

  lemma {:induction false} BookMoney(s: Sys, e: Event, key: Key)
    requires Inv(s) && e.Book? && Enabled(s, e)
    ensures MoneyAt(Step(s, e), key)
  {
    assert MoneyAt(s, key);
    var a := s.open[e.worker];
    HasIff(s.db.rows, a.id);
    if Has(s.db.rows, a.id) {
      var booked := Step(s, e).booked;
      assert booked[..|booked| - 1] == s.booked;
      assert s.db.rows[IndexOf(s.db.rows, a.id)].key == a.key;
      LiveSumWithout(s.db.rows, a.id, key);
    }
  }

  lemma WithoutIds(rows: seq<Row>, id: string)
    requires UniqueIds(rows) && Has(rows, id)
    ensures Ids(Without(rows, id)) == Ids(rows) - {id}
  {
    SettledIsGone(rows, id);
    HasIff(Without(rows, id), id);
    forall x | x in Ids(rows) - {id} ensures x in Ids(Without(rows, id)) { WithoutKeeps(rows, id, x); }
  }

  lemma WithoutKeeps(rows: seq<Row>, id: string, x: string)
    requires Has(rows, id) && x in Ids(rows) && x != id
    ensures x in Ids(Without(rows, id))
  {
    var i := IndexOf(rows, id);
    var r :| r in rows && r.id == x;
    var k :| 0 <= k < |rows| && rows[k] == r;
    var rest := rows[..i] + rows[i + 1..];
    assert rest[if k < i then k else k - 1] == r;
    assert r in rest;
  }

  lemma PruneKeepsInv(s: Sys, e: Event)
    requires Inv(s) && e.Prune?
    ensures Inv(Step(s, e))
  {
    var s' := Step(s, e);
    UnprunedOk(s.db.rows, e.now);
    assert Ids(s'.db.rows) <= Ids(s.db.rows);
    forall key ensures MoneyAt(s', key) {
      assert MoneyAt(s, key);
      PruneSums(s.db.rows, e.now, key);
    }
  }

  lemma StepKeepsInv(s: Sys, e: Event)
    requires Inv(s) && Enabled(s, e)
    ensures Inv(Step(s, e))
  {
    match e {
      case Reserve(_, _, _, _, _, _) =>
        ReserveRows(s, e);
        ReserveHistory(s, e);
        ReserveAccounted(s, e);
        forall key ensures MoneyAt(Step(s, e), key) { ReserveMoney(s, e, key); }
      case Book(_) =>
        BookRows(s, e);
        BookHistory(s, e);
        forall key ensures MoneyAt(Step(s, e), key) { BookMoney(s, e, key); }
      case Prune(_) => PruneKeepsInv(s, e);
      case _ => forall key ensures MoneyAt(Step(s, e), key) { assert MoneyAt(s, key); }
    }
  }

  /**
   In every reachable state each reservation is booked at most once, `reserved_usd` is the sum of the live
   reservations, and `spent_usd` is the sum of what was booked.
   */
  lemma {:induction false} RunKeepsInv(s: Sys, es: seq<Event>)
    requires Inv(s) && IsRun(s, es)
    ensures Inv(Run(s, es))
    decreases |es|
  {
    if es == [] {
    } else {
      StepKeepsInv(s, es[0]);
      RunKeepsInv(Step(s, es[0]), es[1..]);
    }
  }

  lemma StartOk()
    ensures Inv(START)
  {
    forall key ensures MoneyAt(START, key) {}
  }

  // ---- exactly-once booking ----

  /** How often a reservation's cost has been added. */
  function TimesBooked(booked: seq<Booking>, id: string): nat {
    if booked == [] then 0 else
      TimesBooked(booked[..|booked| - 1], id) + if booked[|booked| - 1].id == id then 1 else 0
  }

  lemma {:induction false} TimesBookedUnique(booked: seq<Booking>, id: string)
    requires forall i, j :: 0 <= i < j < |booked| ==> booked[i].id != booked[j].id
    ensures TimesBooked(booked, id) == if id in BookedIds(booked) then 1 else 0
  {
    if booked == [] {
    } else {
      var rest, last := booked[..|booked| - 1], booked[|booked| - 1];
      TimesBookedUnique(rest, id);
      assert booked == rest + [last];
      BookedIdsAppend(rest, last);
      assert last.id !in BookedIds(rest);
    }
  }

  /**
   Whatever is interleaved and retried: an admitted reservation is booked at most once, and exactly once as
   soon as it has neither a row nor been pruned; `spent_usd` is the total of the bookings of its subject.
   */
  lemma {:induction false} ExactlyOnce(es: seq<Event>, id: string, key: Key)
    requires IsRun(START, es)
    ensures var s := Run(START, es);
      && TimesBooked(s.booked, id) <= 1
      && (id in s.issued && !Has(s.db.rows, id) && id !in s.pruned ==> TimesBooked(s.booked, id) == 1)
      && UsageOf(s.db, key).spent == TotalBooked(s.booked, key)
      && UsageOf(s.db, key).reserved == LiveSum(s.db.rows, key)
  {
    StartOk();
    RunKeepsInv(START, es);
    var s := Run(START, es);
    TimesBookedUnique(s.booked, id);
    HasIff(s.db.rows, id);
    assert MoneyAt(s, key);
  }

  /** A settle attempt that reaches the store before pruning leaves its reservation booked, by it or by another. */
  lemma {:induction false} AnsweredMeansBooked(es: seq<Event>, e: Event, id: string)
    requires IsRun(START, es) && Enabled(Run(START, es), e)
    requires var s := Run(START, es);
      && id in s.issued && id !in s.pruned
      && ((e.Book? && s.open[e.worker].id == id) || (e.Lookup? && e.id == id && !Has(s.db.rows, id)))
    ensures TimesBooked(Step(Run(START, es), e).booked, id) == 1
  {
    StartOk();
    RunKeepsInv(START, es);
    var s := Run(START, es);
    StepKeepsInv(s, e);
    TimesBookedUnique(Step(s, e).booked, id);
    HasIff(s.db.rows, id);
    HasIff(Step(s, e).db.rows, id);
    SettledIsGone(s.db.rows, id);
  }

  /** What spending a booking adds, in every reachable state. */
  lemma BookingSpends(es: seq<Event>, worker: nat)
    requires IsRun(START, es) && worker in Run(START, es).open
    ensures var s := Run(START, es);
      var a := s.open[worker];
      UsageOf(Step(s, Book(worker)).db, a.key).spent == UsageOf(s.db, a.key).spent
        + if a.id in Ids(s.db.rows) && a.cost.Usd? && a.cost.usd >= 0.0 then a.cost.usd else 0.0
  {
    StartOk();
    RunKeepsInv(START, es);
    var s := Run(START, es);
    var a := s.open[worker];
    HasIff(s.db.rows, a.id);
    if Has(s.db.rows, a.id) {
      assert RowOk(s.db.rows[IndexOf(s.db.rows, a.id)], s.issued, s.db.usage);
    }
  }

  /**
   In every reachable state a call is admitted if and only if what the subject's bookings add up to, what its
   unexpired reservations hold, and the amount asked for fit the limit, up to a billionth of a dollar.
   */
  lemma AdmittedIff(es: seq<Event>, e: Event)
    requires IsRun(START, es) && e.Reserve? && Enabled(Run(START, es), e)
    ensures var s := Run(START, es);
      e.id in Step(s, e).issued <==>
        TotalBooked(s.booked, e.key) + HeldSum(s.db.rows, e.key, e.stamp) + (if e.amount > 0.0 then e.amount else 0.0)
        <= e.limit + 0.000000001
  {
    StartOk();
    RunKeepsInv(START, es);
    assert MoneyAt(Run(START, es), e.key);
  }

  /** An attempt that is aborted before it books leaves no trace. */
  lemma AbortUndoes(s: Sys, worker: nat, id: string, cost: Cost)
    requires worker !in s.open && id in Ids(s.db.rows)
    ensures Enabled(s, Lookup(worker, id, cost))
    ensures var looked := Step(s, Lookup(worker, id, cost));
      worker in looked.open && Enabled(looked, Abort(worker)) && Step(looked, Abort(worker)) == s
  {
    HasIff(s.db.rows, id);
    assert Step(s, Lookup(worker, id, cost)).open - {worker} == s.open;
  }

  // ---- how long a late settle still finds its reservation ----

  /** The reservation has not been pruned, and its row, if it is there, still says when it expires. */
  ghost predicate Bookable(s: Sys, id: string, expires: real) {
    id in s.issued && id !in s.pruned && forall r :: r in s.db.rows && r.id == id ==> r.expires == expires
  }

  lemma SweptRowKeepsExpiry(rows: seq<Row>, key: Key, stamp: real, r: Row)
    requires r in Sweep(rows, key, stamp)
    ensures exists q :: q in rows && q.id == r.id && q.expires == r.expires
  {
    var i :| 0 <= i < |Sweep(rows, key, stamp)| && Sweep(rows, key, stamp)[i] == r;
    assert rows[i] in rows;
  }

  lemma StaysBookable(s: Sys, e: Event, id: string, expires: real)
    requires Inv(s) && Enabled(s, e) && Bookable(s, id, expires) && (e.Prune? ==> e.now <= expires + 86400.0)
    ensures Bookable(Step(s, e), id, expires)
  {
    var s' := Step(s, e);
    match e {
      case Reserve(key, _, _, _, _, stamp) =>
        forall r | r in s'.db.rows && r.id == id ensures r.expires == expires {
          if r in Sweep(s.db.rows, key, stamp) { SweptRowKeepsExpiry(s.db.rows, key, stamp, r); }
        }
      case Prune(now) =>
        forall r ensures r in s'.db.rows <==> r in s.db.rows && !(r.released && r.expires < now - 86400.0) {
          PruneKeeps(s.db.rows, now, r);
        }
      case _ =>
        assert forall r :: r in s'.db.rows ==> r in s.db.rows;
    }
  }

  lemma {:induction false} StaysBookableLong(s: Sys, es: seq<Event>, id: string, expires: real)
    requires Inv(s) && IsRun(s, es) && Bookable(s, id, expires)
    requires forall k :: 0 <= k < |es| && es[k].Prune? ==> es[k].now <= expires + 86400.0
    ensures Bookable(Run(s, es), id, expires)
    decreases |es|
  {
    if es == [] {
    } else {
      StaysBookable(s, es[0], id, expires);
      StepKeepsInv(s, es[0]);
      StaysBookableLong(Step(s, es[0]), es[1..], id, expires);
    }
  }

  /**
   For a day after its expiry, by the clock of the retention sweep, a late settle still finds a reservation:
   whatever happens until then, its row is there or its cost is booked, once.
   */
  lemma BookableForADay(es: seq<Event>, more: seq<Event>, r: Row)
    requires IsRun(START, es) && IsRun(Run(START, es), more) && r in Run(START, es).db.rows
    requires forall k :: 0 <= k < |more| && more[k].Prune? ==> more[k].now <= r.expires + 86400.0
    ensures var s' := Run(Run(START, es), more);
      r.id in Ids(s'.db.rows) <==> TimesBooked(s'.booked, r.id) != 1
  {
    StartOk();
    RunKeepsInv(START, es);
    var s := Run(START, es);
    RunKeepsInv(s, more);
    assert r.id in Ids(s.db.rows);
    forall q | q in s.db.rows && q.id == r.id ensures q == r {
      var i :| 0 <= i < |s.db.rows| && s.db.rows[i] == q;
      var j :| 0 <= j < |s.db.rows| && s.db.rows[j] == r;
    }
    StaysBookableLong(s, more, r.id, r.expires);
    TimesBookedUnique(Run(s, more).booked, r.id);
  }

  /** The subject an event is about. */
  function Concerns(s: Sys, e: Event): Option<Key>
    requires Enabled(s, e)
  {
    match e
    case Reserve(key, _, _, _, _, _) => Some(key)
    case Book(worker) => Some(s.open[worker].key)
    case _ => None
  }

  /** No other subject's usage row or live reservations are touched. */
  lemma OthersUntouched(s: Sys, e: Event, key: Key)
    requires Inv(s) && Enabled(s, e) && Concerns(s, e) != Some(key)
    ensures key in Step(s, e).db.usage <==> key in s.db.usage
    ensures UsageOf(Step(s, e).db, key) == UsageOf(s.db, key)
    ensures LiveSum(Step(s, e).db.rows, key) == LiveSum(s.db.rows, key)
  {
    match e {
      case Reserve(_, _, _, id, _, _) =>
        HasIff(s.db.rows, id);
        ReserveLive(s.db, e.key, e.limit, e.amount, id, e.ttl, e.stamp, key);
      case Book(worker) =>
        var a := s.open[worker];
        if Has(s.db.rows, a.id) {
          HasIff(s.db.rows, a.id);
          assert RowOk(s.db.rows[IndexOf(s.db.rows, a.id)], s.issued, s.db.usage);
          LiveSumWithout(s.db.rows, a.id, key);
        }
      case Prune(now) => PruneSums(s.db.rows, now, key);
      case _ =>
    }
  }
}
