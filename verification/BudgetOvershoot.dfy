/**
 How far spending can exceed a monthly limit (host_store.py, `reserve_subject_budget`,
 `settle_subject_budget`), over all continuations of all runs; and exactly when the bound that
 auth_proxy.py names holds.
 */
module BudgetOvershoot {
  import opened Common
  import opened BudgetStore
  import opened BudgetRuns

  /** No reservation of `key` is admitted during the run. */
  predicate NoAdmission(s: Sys, es: seq<Event>, key: Key)
    requires IsRun(s, es)
    decreases |es|
  {
    es == [] ||
    (&& !(es[0].Reserve? && es[0].key == key && Admits(s.db, key, es[0].limit, es[0].amount, es[0].stamp))
     && NoAdmission(Step(s, es[0]), es[1..], key))
  }

  /** What the bookings of a run say about one reservation: its cost, 0 when it is not booked. */
  function BookedFor(booked: seq<Booking>, id: string): real {
    if booked == [] then 0.0 else
      BookedFor(booked[..|booked| - 1], id) +
      var b := booked[|booked| - 1]; if b.id == id then b.usd else 0.0
  }

  /**
   How far the bookings can carry `key` past the limit: of a reservation live at the admission what it cost
   beyond its amount, of one already swept its full cost.
   */
  function Excess(rows: seq<Row>, key: Key, booked: seq<Booking>): real {
    if rows == [] then 0.0 else
      var r := rows[0];
      (if r.key != key then 0.0
       else if r.released then BookedFor(booked, r.id)
       else Max0(BookedFor(booked, r.id) - r.amount)) + Excess(rows[1..], key, booked)
  }

  function CostOfRows(rows: seq<Row>, key: Key, booked: seq<Booking>): real {
    if rows == [] then 0.0 else
      (if rows[0].key == key then BookedFor(booked, rows[0].id) else 0.0) + CostOfRows(rows[1..], key, booked)
  }

  lemma {:induction false} ExcessCovers(rows: seq<Row>, key: Key, booked: seq<Booking>)
    requires forall i :: 0 <= i < |rows| ==> rows[i].amount >= 0.0
    ensures CostOfRows(rows, key, booked) <= LiveSum(rows, key) + Excess(rows, key, booked)
  {
    if rows == [] {
    } else {
      ExcessCovers(rows[1..], key, booked);
    }
  }

  lemma {:induction false} CostOfRowsGrows(rows: seq<Row>, key: Key, booked: seq<Booking>, b: Booking)
    requires UniqueIds(rows)
    requires forall i :: 0 <= i < |rows| && rows[i].id == b.id ==> rows[i].key == b.key
    requires b.key == key ==> b.id in Ids(rows)
    ensures CostOfRows(rows, key, booked + [b]) == CostOfRows(rows, key, booked) + if b.key == key then b.usd else 0.0
  {
    if rows == [] {
    } else {
      assert (booked + [b])[..|booked + [b]| - 1] == booked;
      if b.id == rows[0].id || b.key != key {
        CostOfRowsSame(rows[1..], key, booked, b);
      } else {
        assert b.id in Ids(rows[1..]) by {
          var r :| r in rows && r.id == b.id;
        }
        CostOfRowsGrows(rows[1..], key, booked, b);
      }
    }
  }

  lemma {:induction false} CostOfRowsSame(rows: seq<Row>, key: Key, booked: seq<Booking>, b: Booking)
    requires forall i :: 0 <= i < |rows| ==> rows[i].id != b.id || rows[i].key != key
    ensures CostOfRows(rows, key, booked + [b]) == CostOfRows(rows, key, booked)
  {
    if rows == [] {
    } else {
      assert (booked + [b])[..|booked + [b]| - 1] == booked;
      CostOfRowsSame(rows[1..], key, booked, b);
    }
  }

  /** Bookings that all belong to known reservations add up per subject to what those reservations cost. */
  lemma {:induction false} TotalIsCostOfRows(rows: seq<Row>, key: Key, booked: seq<Booking>)
    requires UniqueIds(rows)
    requires forall i, k :: 0 <= i < |rows| && 0 <= k < |booked| && rows[i].id == booked[k].id ==>
      rows[i].key == booked[k].key
    requires forall k :: 0 <= k < |booked| && booked[k].key == key ==> booked[k].id in Ids(rows)
    ensures TotalBooked(booked, key) == CostOfRows(rows, key, booked)
  {
    if booked == [] {
      CostOfNothing(rows, key);
    } else {
      var n := |booked| - 1;
      TotalIsCostOfRows(rows, key, booked[..n]);
      CostOfRowsGrows(rows, key, booked[..n], booked[n]);
      assert booked == booked[..n] + [booked[n]];
    }
  }

  lemma {:induction false} CostOfNothing(rows: seq<Row>, key: Key)
    ensures CostOfRows(rows, key, []) == 0.0
  {
    if rows == [] {
    } else {
      CostOfNothing(rows[1..], key);
    }
  }

  lemma {:induction false} TotalSplits(a: seq<Booking>, b: seq<Booking>, key: Key)
    ensures TotalBooked(a + b, key) == TotalBooked(a, key) + TotalBooked(b, key)
  {
    if b == [] {
      assert a + b == a;
    } else {
      var n := |b| - 1;
      TotalSplits(a, b[..n], key);
      assert (a + b)[..|a + b| - 1] == a + b[..n];
    }
  }

  /** Histories only grow, and without admissions no reservation of `key` appears. */
  lemma {:induction false} HistoryGrows(s: Sys, es: seq<Event>, key: Key)
    requires IsRun(s, es)
    ensures var s' := Run(s, es);
      && s.booked <= s'.booked && s.pruned <= s'.pruned
      && (forall id :: id in s.issued ==> id in s'.issued && s'.issued[id] == s.issued[id])
      && (NoAdmission(s, es, key) ==> forall id :: id in s'.issued && s'.issued[id] == key ==> id in s.issued)
    decreases |es|
  {
    if es == [] {
    } else {
      HistoryGrows(Step(s, es[0]), es[1..], key);
    }
  }

  /**
   The overshoot bound. Take any reachable state and an admission of `key` under `limit`; as long as it stays
   the latest one, `spent_usd` exceeds the limit by no more than the excess of the reservations known then.
   */
  lemma {:induction false} OvershootBound(es: seq<Event>, e: Event, more: seq<Event>)
    requires IsRun(START, es) && e.Reserve? && Enabled(Run(START, es), e)
    requires Admits(Run(START, es).db, e.key, e.limit, e.amount, e.stamp)
    requires var s := Step(Run(START, es), e); IsRun(s, more) && NoAdmission(s, more, e.key)
    ensures var s := Step(Run(START, es), e);
      var s' := Run(s, more);
      && s.booked <= s'.booked
      && UsageOf(s'.db, e.key).spent <= e.limit + SLACK + Excess(s.db.rows, e.key, s'.booked[|s.booked|..])
  {
    StartOk();
    RunKeepsInv(START, es);
    var s0 := Run(START, es);
    AdmissionFits(s0, e);
    StepKeepsInv(s0, e);
    SpendingAfter(Step(s0, e), more, e.key);
  }

  /** The bound without the swept reservations: what concurrent calls cost beyond what they reserved. */
  function Overrun(rows: seq<Row>, key: Key, booked: seq<Booking>): real {
    if rows == [] then 0.0 else
      (if rows[0].key == key then Max0(BookedFor(booked, rows[0].id) - rows[0].amount) else 0.0)
      + Overrun(rows[1..], key, booked)
  }

  /** It coincides with the excess when none of the reservations had been swept. */
  lemma {:induction false} ExcessIsOverrun(rows: seq<Row>, key: Key, booked: seq<Booking>)
    requires forall i :: 0 <= i < |rows| && rows[i].key == key ==> !rows[i].released
    ensures Excess(rows, key, booked) == Overrun(rows, key, booked)
  {
    if rows == [] {
    } else {
      ExcessIsOverrun(rows[1..], key, booked);
    }
  }

  /** Without further admissions, later spending is exactly what the reservations known now come to cost. */
  lemma SpendingIs(s: Sys, more: seq<Event>, key: Key)
    requires Inv(s) && IsRun(s, more) && NoAdmission(s, more, key)
    ensures var s' := Run(s, more);
      && s.booked <= s'.booked
      && UsageOf(s'.db, key).spent
         == UsageOf(s.db, key).spent + CostOfRows(s.db.rows, key, s'.booked[|s.booked|..])
  {
    RunKeepsInv(s, more);
    HistoryGrows(s, more, key);
    var s' := Run(s, more);
    var later := s'.booked[|s.booked|..];
    assert s'.booked == s.booked + later;
    TotalSplits(s.booked, later, key);
    assert MoneyAt(s, key) && MoneyAt(s', key);
    LaterBookingsAreKnown(s, s', key, later);
    TotalIsCostOfRows(s.db.rows, key, later);
  }

  /** Hence it is at most what is live now plus the excess. */
  lemma SpendingAfter(s: Sys, more: seq<Event>, key: Key)
    requires Inv(s) && IsRun(s, more) && NoAdmission(s, more, key)
    ensures var s' := Run(s, more);
      && s.booked <= s'.booked
      && UsageOf(s'.db, key).spent
         <= UsageOf(s.db, key).spent + LiveSum(s.db.rows, key) + Excess(s.db.rows, key, s'.booked[|s.booked|..])
  {
    SpendingIs(s, more, key);
    AmountsPositive(s);
    ExcessCovers(s.db.rows, key, Run(s, more).booked[|s.booked|..]);
  }

  /**
   Neither term is larger than it need be: when every reservation of the subject settles, at its amount or more,
   later spending reaches both bounds.
   */
  lemma BoundsAreReached(s: Sys, more: seq<Event>, key: Key)
    requires Inv(s) && IsRun(s, more) && NoAdmission(s, more, key) && |s.booked| <= |Run(s, more).booked|
    requires var later := Run(s, more).booked[|s.booked|..];
      forall i :: 0 <= i < |s.db.rows| && s.db.rows[i].key == key ==>
        s.db.rows[i].amount <= BookedFor(later, s.db.rows[i].id)
    ensures var s' := Run(s, more);
      var later := s'.booked[|s.booked|..];
      && UsageOf(s'.db, key).spent
         == UsageOf(s.db, key).spent + LiveSum(s.db.rows, key) + Excess(s.db.rows, key, later)
         == UsageOf(s.db, key).spent + RowSum(s.db.rows, key) + Overrun(s.db.rows, key, later)
  {
    SpendingIs(s, more, key);
    CostWhenOverrun(s.db.rows, key, Run(s, more).booked[|s.booked|..]);
  }

  lemma {:induction false} CostWhenOverrun(rows: seq<Row>, key: Key, booked: seq<Booking>)
    requires forall i :: 0 <= i < |rows| && rows[i].key == key ==> rows[i].amount <= BookedFor(booked, rows[i].id)
    ensures CostOfRows(rows, key, booked) == LiveSum(rows, key) + Excess(rows, key, booked)
    ensures CostOfRows(rows, key, booked) == RowSum(rows, key) + Overrun(rows, key, booked)
  {
    if rows == [] {
    } else {
      CostWhenOverrun(rows[1..], key, booked);
    }
  }

  lemma AmountsPositive(s: Sys)
    requires RowsOk(s)
    ensures forall i :: 0 <= i < |s.db.rows| ==> s.db.rows[i].amount >= 0.0
  {
    forall i | 0 <= i < |s.db.rows| ensures s.db.rows[i].amount >= 0.0 {
      assert RowOk(s.db.rows[i], s.issued, s.db.usage);
    }
  }

  /** Right after an admission, what is spent and what is live fit the limit. */
  lemma AdmissionFits(s: Sys, e: Event)
    requires Inv(s) && e.Reserve? && Enabled(s, e) && Admits(s.db, e.key, e.limit, e.amount, e.stamp)
    ensures var s' := Step(s, e); UsageOf(s'.db, e.key).spent + LiveSum(s'.db.rows, e.key) <= e.limit + SLACK
  {
    StepKeepsInv(s, e);
    HasIff(s.db.rows, e.id);
    assert MoneyAt(Step(s, e), e.key);
  }

  lemma LaterBookingsAreKnown(s: Sys, s': Sys, key: Key, later: seq<Booking>)
    requires Inv(s) && Inv(s') && s'.booked == s.booked + later && s.pruned <= s'.pruned
    requires forall id :: id in s.issued ==> id in s'.issued && s'.issued[id] == s.issued[id]
    requires forall id :: id in s'.issued && s'.issued[id] == key ==> id in s.issued
    ensures forall i, k ::
      (0 <= i < |s.db.rows| && 0 <= k < |later| && s.db.rows[i].id == later[k].id) ==> s.db.rows[i].key == later[k].key
    ensures forall k :: 0 <= k < |later| && later[k].key == key ==> later[k].id in Ids(s.db.rows)
  {
    forall k | 0 <= k < |later|
      ensures later[k].id in s'.issued && s'.issued[later[k].id] == later[k].key
      ensures later[k].key == key ==> later[k].id in Ids(s.db.rows)
    {
      LaterBookingIsKnown(s, s', key, later, k);
    }
  }

  lemma LaterBookingIsKnown(s: Sys, s': Sys, key: Key, later: seq<Booking>, k: nat)
    requires Accounted(s) && Accounted(s') && BookedOk(s') && s'.booked == s.booked + later && s.pruned <= s'.pruned
    requires forall id :: id in s'.issued && s'.issued[id] == key ==> id in s.issued
    requires k < |later|
    ensures later[k].id in s'.issued && s'.issued[later[k].id] == later[k].key
    ensures later[k].key == key ==> later[k].id in Ids(s.db.rows)
  {
    var n := |s.booked| + k;
    assert s'.booked[n] == later[k];
    assert s'.booked[n] in s'.booked;
    assert forall i :: 0 <= i < |s.booked| ==> s'.booked[i] == s.booked[i];
    assert later[k].id !in BookedIds(s.booked);
  }

  // ---- exactly when concurrent overruns alone are a bound ----

  /** Amounts of all reservations of `key`, those swept after their expiry included. */
  function RowSum(rows: seq<Row>, key: Key): real {
    if rows == [] then 0.0 else (if rows[0].key == key then rows[0].amount else 0.0) + RowSum(rows[1..], key)
  }

  /** The claim at one later point: spending is over the limit by at most what calls cost beyond their amounts. */
  predicate WithinClaim(s: Sys, more: seq<Event>, key: Key, limit: real)
    requires IsRun(s, more)
  {
    var s' := Run(s, more);
    && |s.booked| <= |s'.booked|
    && UsageOf(s'.db, key).spent <= limit + SLACK + Overrun(s.db.rows, key, s'.booked[|s.booked|..])
  }

  /** The claim for every continuation without another admission of `key`. */
  ghost predicate ClaimHolds(s: Sys, key: Key, limit: real) {
    forall more :: IsRun(s, more) && NoAdmission(s, more, key) ==> WithinClaim(s, more, key, limit)
  }

  lemma {:induction false} CostWithinRows(rows: seq<Row>, key: Key, booked: seq<Booking>)
    requires forall i :: 0 <= i < |rows| ==> rows[i].amount >= 0.0
    ensures CostOfRows(rows, key, booked) <= RowSum(rows, key) + Overrun(rows, key, booked)
  {
    if rows == [] {
    } else {
      CostWithinRows(rows[1..], key, booked);
    }
  }

  /** If everything spent and every amount still on a row fit the limit, the claim holds. */
  lemma RoomMeansClaim(s: Sys, key: Key, limit: real)
    requires Inv(s) && UsageOf(s.db, key).spent + RowSum(s.db.rows, key) <= limit + SLACK
    ensures ClaimHolds(s, key, limit)
  {
    forall more | IsRun(s, more) && NoAdmission(s, more, key) ensures WithinClaim(s, more, key, limit) {
      SpendingIs(s, more, key);
      AmountsPositive(s);
      CostWithinRows(s.db.rows, key, Run(s, more).booked[|s.booked|..]);
    }
  }

  lemma {:induction false} RowSumAppend(a: seq<Row>, b: seq<Row>, key: Key)
    ensures RowSum(a + b, key) == RowSum(a, key) + RowSum(b, key)
  {
    if a == [] {
      assert a + b == b;
    } else {
      RowSumAppend(a[1..], b, key);
      assert (a + b)[1..] == a[1..] + b;
    }
  }

  lemma RowSumOne(r: Row, key: Key)
    ensures RowSum([r], key) == if r.key == key then r.amount else 0.0
  {
    assert RowSum([r], key) == (if r.key == key then r.amount else 0.0) + RowSum([], key);
  }

  lemma RowSumWithout(rows: seq<Row>, i: nat, key: Key)
    requires UniqueIds(rows) && i < |rows|
    ensures IndexOf(rows, rows[i].id) == i
    ensures RowSum(Without(rows, rows[i].id), key) ==
      RowSum(rows, key) - if rows[i].key == key then rows[i].amount else 0.0
  {
    IndexOfRow(rows, i);
    RowSumAppend(rows[..i], rows[i + 1..], key);
    RowSumOne(rows[i], key);
    RowSumAppend(rows[..i], [rows[i]], key);
    RowSumAppend(rows[..i] + [rows[i]], rows[i + 1..], key);
    assert rows == (rows[..i] + [rows[i]]) + rows[i + 1..];
  }

  lemma {:induction false} NoRowsNoSum(rows: seq<Row>, key: Key)
    requires forall i :: 0 <= i < |rows| ==> rows[i].key != key
    ensures RowSum(rows, key) == 0.0
  {
    if rows == [] {
    } else {
      NoRowsNoSum(rows[1..], key);
    }
  }

  /** A worker without an open attempt. */
  lemma {:induction false} AboveAll(s: set<nat>) returns (w: nat)
    ensures forall x :: x in s ==> x < w
  {
    if s == {} {
      w := 0;
    } else {
      var x :| x in s;
      var rest := AboveAll(s - {x});
      w := if x < rest then rest else x + 1;
      forall y | y in s ensures y < w {
        assert y == x || y in s - {x};
      }
    }
  }

  lemma {:induction false} BookedForFirst(b: Booking, rest: seq<Booking>, id: string)
    ensures BookedFor([b] + rest, id) == (if b.id == id then b.usd else 0.0) + BookedFor(rest, id)
    decreases |rest|
  {
    if rest == [] {
      assert [b] + rest == [b] && [b][..0] == [];
      assert BookedFor([b], id) == BookedFor([b][..0], id) + if b.id == id then b.usd else 0.0;
    } else {
      var n := |rest| - 1;
      BookedForFirst(b, rest[..n], id);
      assert ([b] + rest)[..n + 1] == [b] + rest[..n];
    }
  }

  lemma LookupFinds(s: Sys, i: nat, w: nat, cost: Cost)
    requires Inv(s) && i < |s.db.rows| && w !in s.open
    ensures var r := s.db.rows[i];
      Step(s, Lookup(w, r.id, cost)) == s.(open := s.open[w := Attempting(r.id, r.key, cost)])
  {
    IndexOfRow(s.db.rows, i);
  }

  lemma BookRow(s: Sys, i: nat, w: nat, cost: real)
    requires Inv(s) && i < |s.db.rows| && cost >= 0.0
    requires w in s.open && s.open[w] == Attempting(s.db.rows[i].id, s.db.rows[i].key, Usd(cost))
    ensures var r := s.db.rows[i];
      var s2 := Step(s, Book(w));
      && s2.open == s.open - {w} && s2.db.rows == Without(s.db.rows, r.id)
      && s2.booked == s.booked + [Booking(r.id, r.key, cost)]
      && UsageOf(s2.db, r.key).spent == UsageOf(s.db, r.key).spent + cost
  {
    assert RowOk(s.db.rows[i], s.issued, s.db.usage);
    IndexOfRow(s.db.rows, i);
  }

  /** One worker settles the reservation of row i at its amount. */
  lemma SettleRow(s: Sys, key: Key, i: nat, w: nat)
    requires Inv(s) && i < |s.db.rows| && s.db.rows[i].key == key && w !in s.open
    ensures var r := s.db.rows[i];
      var looked := Step(s, Lookup(w, r.id, Usd(r.amount)));
      && Enabled(looked, Book(w))
      && var s2 := Step(looked, Book(w));
         && Inv(s2) && s2.open == s.open && s2.db.rows == Without(s.db.rows, r.id)
         && s2.booked == s.booked + [Booking(r.id, key, r.amount)]
         && UsageOf(s2.db, key).spent == UsageOf(s.db, key).spent + r.amount
  {
    var r := s.db.rows[i];
    AmountsPositive(s);
    LookupFinds(s, i, w, Usd(r.amount));
    var looked := Step(s, Lookup(w, r.id, Usd(r.amount)));
    StepKeepsInv(s, Lookup(w, r.id, Usd(r.amount)));
    BookRow(looked, i, w, r.amount);
    StepKeepsInv(looked, Book(w));
    assert looked.open - {w} == s.open;
  }

  /** The reservations of `key` are settled at exactly their amounts, and nothing else is booked. */
  ghost predicate SettledAtAmount(rows: seq<Row>, key: Key, later: seq<Booking>) {
    && (forall i :: 0 <= i < |rows| && rows[i].key == key ==> BookedFor(later, rows[i].id) == rows[i].amount)
    && (forall id :: id !in Ids(rows) ==> BookedFor(later, id) == 0.0)
  }

  lemma SettledFirst(rows: seq<Row>, key: Key, i: nat, rest: seq<Booking>)
    requires UniqueIds(rows) && i < |rows| && rows[i].key == key
    requires SettledAtAmount(Without(rows, rows[i].id), key, rest)
    ensures SettledAtAmount(rows, key, [Booking(rows[i].id, key, rows[i].amount)] + rest)
  {
    var id := rows[i].id;
    var b := Booking(id, key, rows[i].amount);
    HasIff(rows, id);
    RowSumWithout(rows, i, key);
    WithoutIds(rows, id);
    forall j | 0 <= j < |rows| && rows[j].key == key ensures BookedFor([b] + rest, rows[j].id) == rows[j].amount {
      BookedForFirst(b, rest, rows[j].id);
      if j != i {
        assert Without(rows, id)[if j < i then j else j - 1] == rows[j];
      }
    }
    forall x | x !in Ids(rows) ensures BookedFor([b] + rest, x) == 0.0 {
      BookedForFirst(b, rest, x);
      assert rows[i] in rows;
    }
  }

  lemma NoAdmissionMore(s: Sys, e: Event, es: seq<Event>, key: Key)
    requires Enabled(s, e) && !e.Reserve? && IsRun(Step(s, e), es) && NoAdmission(Step(s, e), es, key)
    ensures IsRun(s, [e] + es) && NoAdmission(s, [e] + es, key)
  {
    assert ([e] + es)[1..] == es;
  }

  /** What a run settles, and what that adds to the spending of `key`. */
  ghost predicate Settles(s: Sys, key: Key, more: seq<Event>)
    requires IsRun(s, more)
  {
    var s' := Run(s, more);
    && s.booked <= s'.booked && SettledAtAmount(s.db.rows, key, s'.booked[|s.booked|..])
    && UsageOf(s'.db, key).spent == UsageOf(s.db, key).spent + RowSum(s.db.rows, key)
  }

  /** The lookup and the booking of one row, and then the rest. */
  lemma SettleMore(s: Sys, key: Key, i: nat, w: nat, s2: Sys, rest: seq<Event>) returns (more: seq<Event>)
    requires Inv(s) && i < |s.db.rows| && s.db.rows[i].key == key && w !in s.open
    requires var r := s.db.rows[i];
      var looked := Step(s, Lookup(w, r.id, Usd(r.amount))); Enabled(looked, Book(w)) && s2 == Step(looked, Book(w))
    requires IsRun(s2, rest) && NoAdmission(s2, rest, key)
    ensures IsRun(s, more) && NoAdmission(s, more, key) && Run(s, more) == Run(s2, rest)
  {
    var r := s.db.rows[i];
    var lookup := Lookup(w, r.id, Usd(r.amount));
    var looked := Step(s, lookup);
    RunMore(looked, Book(w), rest);
    NoAdmissionMore(looked, Book(w), rest, key);
    RunMore(s, lookup, [Book(w)] + rest);
    NoAdmissionMore(s, lookup, [Book(w)] + rest, key);
    more := [lookup] + ([Book(w)] + rest);
  }

  lemma SettlesMore(s: Sys, key: Key, i: nat, s2: Sys, end: Sys)
    requires UniqueIds(s.db.rows) && i < |s.db.rows| && s.db.rows[i].key == key
    requires var r := s.db.rows[i];
      && s2.db.rows == Without(s.db.rows, r.id) && s2.booked == s.booked + [Booking(r.id, key, r.amount)]
      && s2.booked <= end.booked && SettledAtAmount(s2.db.rows, key, end.booked[|s2.booked|..])
    ensures s.booked <= end.booked && SettledAtAmount(s.db.rows, key, end.booked[|s.booked|..])
  {
    var r := s.db.rows[i];
    assert end.booked[|s.booked|..] == [Booking(r.id, key, r.amount)] + end.booked[|s2.booked|..];
    SettledFirst(s.db.rows, key, i, end.booked[|s2.booked|..]);
  }

  /** The run that settles every reservation of `key` at its amount. */
  lemma {:induction false} SettleAll(s: Sys, key: Key, w: nat) returns (more: seq<Event>)
    requires Inv(s) && w !in s.open
    ensures IsRun(s, more) && NoAdmission(s, more, key) && Settles(s, key, more)
    decreases |s.db.rows|
  {
    var rows := s.db.rows;
    if i :| 0 <= i < |rows| && rows[i].key == key {
      var r := rows[i];
      SettleRow(s, key, i, w);
      RowSumWithout(rows, i, key);
      var s2 := Step(Step(s, Lookup(w, r.id, Usd(r.amount))), Book(w));
      var rest := SettleAll(s2, key, w);
      more := SettleMore(s, key, i, w, s2, rest);
      SettlesMore(s, key, i, s2, Run(s2, rest));
    } else {
      more := [];
      NoRowsNoSum(rows, key);
      assert s.booked[|s.booked|..] == [];
    }
  }

  lemma {:induction false} NoOverrun(rows: seq<Row>, key: Key, booked: seq<Booking>)
    requires forall i :: 0 <= i < |rows| && rows[i].key == key ==> BookedFor(booked, rows[i].id) == rows[i].amount
    ensures Overrun(rows, key, booked) == 0.0
  {
    if rows == [] {
    } else {
      NoOverrun(rows[1..], key, booked);
    }
  }

  /** Conversely: settling every reservation at its amount overruns nothing, so the claim leaves that room. */
  lemma ClaimMeansRoom(s: Sys, key: Key, limit: real)
    requires Inv(s) && ClaimHolds(s, key, limit)
    ensures UsageOf(s.db, key).spent + RowSum(s.db.rows, key) <= limit + SLACK
  {
    var w := AboveAll(s.open.Keys);
    var more := SettleAll(s, key, w);
    NoOverrun(s.db.rows, key, Run(s, more).booked[|s.booked|..]);
    assert WithinClaim(s, more, key, limit);
  }

  lemma {:induction false} SweepKeepsRowSum(rows: seq<Row>, key: Key, stamp: real)
    ensures RowSum(Sweep(rows, key, stamp), key) == RowSum(rows, key)
  {
    if rows == [] {
    } else {
      SweepKeepsRowSum(rows[1..], key, stamp);
      assert Sweep(rows, key, stamp)[1..] == Sweep(rows[1..], key, stamp);
    }
  }

  /**
   Overshoot is bounded by what concurrent calls cost beyond their reservations if and only if, when the call
   is admitted, the limit has room for what is spent, for its amount, and for the amounts of all reservations
   of the subject that are neither settled nor pruned, the swept ones included.
   */
  lemma OverrunBoundIff(es: seq<Event>, e: Event)
    requires IsRun(START, es) && e.Reserve? && Enabled(Run(START, es), e)
    requires Admits(Run(START, es).db, e.key, e.limit, e.amount, e.stamp)
    ensures var before := Run(START, es).db;
      ClaimHolds(Step(Run(START, es), e), e.key, e.limit)
      <==> UsageOf(before, e.key).spent + RowSum(before.rows, e.key) + Max0(e.amount) <= e.limit + SLACK
  {
    StartOk();
    RunKeepsInv(START, es);
    var s0 := Run(START, es);
    var s := Step(s0, e);
    StepKeepsInv(s0, e);
    HasIff(s0.db.rows, e.id);
    SweepKeepsRowSum(s0.db.rows, e.key, e.stamp);
    var row := NewRow(e.key, e.amount, e.id, e.ttl, e.stamp);
    RowSumAppend(Sweep(s0.db.rows, e.key, e.stamp), [row], e.key);
    RowSumOne(row, e.key);
    if ClaimHolds(s, e.key, e.limit) {
      ClaimMeansRoom(s, e.key, e.limit);
    } else if UsageOf(s.db, e.key).spent + RowSum(s.db.rows, e.key) <= e.limit + SLACK {
      RoomMeansClaim(s, e.key, e.limit);
    }
  }

  /** So the claim holds whenever no reservation of the subject is left swept but unsettled. */
  lemma NoneSweptMeansClaim(es: seq<Event>, e: Event)
    requires IsRun(START, es) && e.Reserve? && Enabled(Run(START, es), e)
    requires Admits(Run(START, es).db, e.key, e.limit, e.amount, e.stamp)
    requires var rows := Step(Run(START, es), e).db.rows;
      forall i :: 0 <= i < |rows| && rows[i].key == e.key ==> !rows[i].released
    ensures ClaimHolds(Step(Run(START, es), e), e.key, e.limit)
  {
    var s := Step(Run(START, es), e);
    forall more | IsRun(s, more) && NoAdmission(s, more, e.key) ensures WithinClaim(s, more, e.key, e.limit) {
      OvershootBound(es, e, more);
      ExcessIsOverrun(s.db.rows, e.key, Run(s, more).booked[|s.booked|..]);
    }
  }

  // ---- a late settle really costs its full amount ----

  const JUNE := Key(1, "k:7", "2026-06")

  function Dollar(id: string, expires: real, released: bool): Row { Row(id, JUNE, 1.0, expires, released) }

  function Tables(spent: real, reserved: real, rows: seq<Row>): Db {
    Db(map[JUNE := Usage(spent, reserved)], rows)
  }

  const BOTH := map["a" := JUNE, "b" := JUNE]
  const LATE1 := Sys(Tables(0.0, 1.0, [Dollar("a", 900.0, false)]), map[], map["a" := JUNE], [], {})
  const LATE2 := Sys(Tables(0.0, 1.0, [Dollar("a", 900.0, true), Dollar("b", 1900.0, false)]), map[], BOTH, [], {})
  const LATE3 := LATE2.(open := map[0 := Attempting("a", JUNE, Usd(1.0))])
  const LATE4 := Sys(Tables(1.0, 1.0, [Dollar("b", 1900.0, false)]), map[], BOTH, [Booking("a", JUNE, 1.0)], {})
  const LATE5 := LATE4.(open := map[0 := Attempting("b", JUNE, Usd(1.0))])
  const LATE6 := Sys(Tables(2.0, 0.0, []), map[], BOTH, [Booking("a", JUNE, 1.0), Booking("b", JUNE, 1.0)], {})

  const RESERVE_A := Reserve(JUNE, 1.0, 1.0, "a", 900.0, 0.0)
  const RESERVE_B := Reserve(JUNE, 1.0, 1.0, "b", 900.0, 1000.0)

  lemma LateReserves()
    ensures Step(START, RESERVE_A) == LATE1
    ensures Enabled(LATE1, RESERVE_B) && Step(LATE1, RESERVE_B) == LATE2
  {
    var a := Dollar("a", 900.0, false);
    assert HeldSum([a], JUNE, 1000.0) == 0.0 + HeldSum([], JUNE, 1000.0);
    assert Sweep([a], JUNE, 1000.0) == [Dollar("a", 900.0, true)];
  }

  lemma LateSettleA()
    ensures Step(LATE2, Lookup(0, "a", Usd(1.0))) == LATE3 && Step(LATE3, Book(0)) == LATE4
  {
    var a, b := Dollar("a", 900.0, true), Dollar("b", 1900.0, false);
    assert Without([a, b], "a") == [b];
    assert LiveSum([b], JUNE) == 1.0 + LiveSum([], JUNE);
  }

  lemma LateSettleB()
    ensures Step(LATE4, Lookup(0, "b", Usd(1.0))) == LATE5 && Step(LATE5, Book(0)) == LATE6
  {
    assert Without([Dollar("b", 1900.0, false)], "b") == [];
  }

  /** A reservation expires, the next admission sweeps it, and then both calls settle at what they reserved. */
  const LATE_SETTLE: seq<Event> :=
    [RESERVE_A] + ([RESERVE_B] + ([Lookup(0, "a", Usd(1.0))] + ([Book(0)] + ([Lookup(0, "b", Usd(1.0))] + [Book(0)]))))

  /**
   Counting only what concurrent calls cost beyond their reservations is not a bound: here no call costs more
   than it reserved, and a limit of one dollar ends with two dollars spent.
   */
  lemma {:induction false} LateSettleOvershoots()
    ensures IsRun(START, LATE_SETTLE)
    ensures UsageOf(Run(START, LATE_SETTLE).db, JUNE).spent == 2.0
  {
    LateReserves();
    LateSettleA();
    LateSettleB();
    var tail := [Book(0)];
    RunOne(LATE5, Book(0));
    RunMore(LATE4, Lookup(0, "b", Usd(1.0)), tail);
    tail := [Lookup(0, "b", Usd(1.0))] + tail;
    RunMore(LATE3, Book(0), tail);
    tail := [Book(0)] + tail;
    RunMore(LATE2, Lookup(0, "a", Usd(1.0)), tail);
    tail := [Lookup(0, "a", Usd(1.0))] + tail;
    RunMore(LATE1, RESERVE_B, tail);
    RunMore(START, RESERVE_A, [RESERVE_B] + tail);
  }

  lemma RunOne(s: Sys, e: Event)
    requires Enabled(s, e)
    ensures IsRun(s, [e]) && Run(s, [e]) == Step(s, e)
  {
    assert [e][1..] == [];
  }

  lemma RunMore(s: Sys, e: Event, es: seq<Event>)
    requires Enabled(s, e) && IsRun(Step(s, e), es)
    ensures IsRun(s, [e] + es) && Run(s, [e] + es) == Run(Step(s, e), es)
  {
    assert ([e] + es)[1..] == es;
  }
}
