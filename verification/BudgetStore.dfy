/**
 Monthly budgets of control-plane key subjects (host_store.py, `reserve_subject_budget`,
 `settle_subject_budget`, `_prune`; auth_proxy.py, `_submit_settle`). Money is `real`.
 A transaction is one method call; a transaction that fails leaves the tables as they were.
 */
module BudgetStore {
  import opened Common

  datatype Key = Key(tenant: int, subject: string, period: string)

  /** One row of `subject_budget_usage`. */
  datatype Usage = Usage(spent: real, reserved: real)

  /** One row of `subject_budget_reservations`; `released` means swept after its expiry. */
  datatype Row = Row(id: string, key: Key, amount: real, expires: real, released: bool)

  datatype Db = Db(usage: map<Key, Usage>, rows: seq<Row>)

  /** What a caller reports as the cost of a call. */
  datatype Cost = Unknown | NotFinite | Usd(usd: real)

  const SLACK: real := 0.000000001
  const PRUNE_AFTER: real := 86400.0
  const SETTLE_ATTEMPTS: nat := 5

  function Max0(x: real): real { if x < 0.0 then 0.0 else x }

  function Booked(cost: Cost): real {
    match cost
    case Usd(usd) => Max0(usd)
    case _ => 0.0
  }

  function IndexOf(rows: seq<Row>, id: string): (i: nat)
    ensures i <= |rows|
    ensures i < |rows| ==> rows[i].id == id
    ensures forall k :: 0 <= k < i ==> rows[k].id != id
  {
    if rows == [] || rows[0].id == id then 0 else 1 + IndexOf(rows[1..], id)
  }

  predicate Has(rows: seq<Row>, id: string) { IndexOf(rows, id) < |rows| }

  /** Amounts of the reservations of `key` that are not released. */
  function LiveSum(rows: seq<Row>, key: Key): real {
    if rows == [] then 0.0 else
      (if rows[0].key == key && !rows[0].released then rows[0].amount else 0.0) + LiveSum(rows[1..], key)
  }

  /** Amounts of the reservations of `key` whose holder is neither swept nor past its expiry at `stamp`. */
  function HeldSum(rows: seq<Row>, key: Key, stamp: real): real {
    if rows == [] then 0.0 else
      (if rows[0].key == key && !rows[0].released && stamp < rows[0].expires then rows[0].amount else 0.0)
      + HeldSum(rows[1..], key, stamp)
  }

  function SweptRow(r: Row, key: Key, stamp: real): Row {
    if r.key == key && !r.released && r.expires <= stamp then r.(released := true) else r
  }

  /** The UPDATE that releases expired reservations of one subject. */
  function Sweep(rows: seq<Row>, key: Key, stamp: real): (swept: seq<Row>)
    ensures |swept| == |rows|
    ensures forall i :: 0 <= i < |rows| ==> swept[i] == SweptRow(rows[i], key, stamp)
  {
    if rows == [] then [] else [SweptRow(rows[0], key, stamp)] + Sweep(rows[1..], key, stamp)
  }

  predicate Prunable(r: Row, now: real) { r.released && r.expires < now - PRUNE_AFTER }

  /** The DELETE of the retention sweep. */
  function Unpruned(rows: seq<Row>, now: real): seq<Row> {
    if rows == [] then [] else
      (if Prunable(rows[0], now) then [] else [rows[0]]) + Unpruned(rows[1..], now)
  }

  function Without(rows: seq<Row>, id: string): seq<Row> {
    if Has(rows, id) then rows[..IndexOf(rows, id)] + rows[IndexOf(rows, id) + 1..] else rows
  }

  lemma {:induction false} LiveSumAppend(a: seq<Row>, b: seq<Row>, key: Key)
    ensures LiveSum(a + b, key) == LiveSum(a, key) + LiveSum(b, key)
  {
    if a == [] {
      assert a + b == b;
    } else {
      LiveSumAppend(a[1..], b, key);
      assert (a + b)[1..] == a[1..] + b;
    }
  }

  lemma LiveSumPlus(rows: seq<Row>, r: Row, key: Key)
    ensures LiveSum(rows + [r], key) == LiveSum(rows, key) + if r.key == key && !r.released then r.amount else 0.0
  {
    LiveSumAppend(rows, [r], key);
    assert LiveSum([r], key) == (if r.key == key && !r.released then r.amount else 0.0) + LiveSum([], key);
  }

  lemma LiveSumWithout(rows: seq<Row>, id: string, key: Key)
    requires Has(rows, id)
    ensures LiveSum(Without(rows, id), key) == LiveSum(rows, key) -
      var r := rows[IndexOf(rows, id)]; if r.key == key && !r.released then r.amount else 0.0
  {
    var i := IndexOf(rows, id);
    LiveSumAppend(rows[..i], rows[i + 1..], key);
    LiveSumPlus(rows[..i], rows[i], key);
    LiveSumAppend(rows[..i] + [rows[i]], rows[i + 1..], key);
    assert rows == (rows[..i] + [rows[i]]) + rows[i + 1..];
  }

  /** After the sweep the live rows are exactly the held ones, and other subjects are as before. */
  lemma {:induction false} SweepSums(rows: seq<Row>, key: Key, stamp: real, other: Key)
    ensures LiveSum(Sweep(rows, key, stamp), key) == HeldSum(rows, key, stamp)
    ensures other != key ==> LiveSum(Sweep(rows, key, stamp), other) == LiveSum(rows, other)
  {
    if rows == [] {
    } else {
      SweepSums(rows[1..], key, stamp, other);
      assert Sweep(rows, key, stamp)[1..] == Sweep(rows[1..], key, stamp);
    }
  }

  /** Pruning removes released rows only, so no live sum changes. */
  lemma {:induction false} PruneSums(rows: seq<Row>, now: real, key: Key)
    ensures LiveSum(Unpruned(rows, now), key) == LiveSum(rows, key)
  {
    if rows == [] {
    } else {
      PruneSums(rows[1..], now, key);
      if !Prunable(rows[0], now) {
        assert Unpruned(rows, now)[1..] == Unpruned(rows[1..], now);
      } else {
        assert Unpruned(rows, now) == Unpruned(rows[1..], now);
      }
    }
  }

  /** A day: pruned is exactly what was swept and expired longer ago than that. */
  lemma {:induction false} PruneKeeps(rows: seq<Row>, now: real, r: Row)
    ensures r in Unpruned(rows, now) <==> r in rows && !(r.released && r.expires < now - 86400.0)
  {
    if rows == [] {
    } else {
      PruneKeeps(rows[1..], now, r);
      assert rows == [rows[0]] + rows[1..];
    }
  }

  datatype Admission = Admission(allowed: bool, storeOk: bool, spent: real, reserved: real)

  function UsageOf(db: Db, key: Key): Usage {
    if key in db.usage then db.usage[key] else Usage(0.0, 0.0)
  }

  /** Is the call admitted: spent, held reservations and this amount fit the limit. */
  predicate Admits(db: Db, key: Key, limit: real, amount: real, stamp: real) {
    UsageOf(db, key).spent + HeldSum(db.rows, key, stamp) + Max0(amount) <= limit + SLACK
  }

  /** The tables after a reservation request. */
  function AfterReserve(db: Db, key: Key, limit: real, amount: real, id: string, ttl: real, stamp: real): Db {
    var spent, held := UsageOf(db, key).spent, HeldSum(db.rows, key, stamp);
    var swept := Sweep(db.rows, key, stamp);
    if !Admits(db, key, limit, amount, stamp) then Db(db.usage[key := Usage(spent, held)], swept)
    else if Has(db.rows, id) then db
    else Db(db.usage[key := Usage(spent, held + Max0(amount))], swept + [NewRow(key, amount, id, ttl, stamp)])
  }

  /** The row a granted reservation inserts. */
  function NewRow(key: Key, amount: real, id: string, ttl: real, stamp: real): Row {
    Row(id, key, Max0(amount), stamp + ttl, false)
  }

  /** Live sums after a reservation request: what is held, plus the new amount when it is admitted. */
  lemma ReserveLive(db: Db, key: Key, limit: real, amount: real, id: string, ttl: real, stamp: real, other: Key)
    requires !Has(db.rows, id)
    ensures LiveSum(AfterReserve(db, key, limit, amount, id, ttl, stamp).rows, other) ==
      if other != key then LiveSum(db.rows, other)
      else HeldSum(db.rows, key, stamp) + if Admits(db, key, limit, amount, stamp) then Max0(amount) else 0.0
  {
    SweepSums(db.rows, key, stamp, other);
    LiveSumPlus(Sweep(db.rows, key, stamp), NewRow(key, amount, id, ttl, stamp), other);
  }

  lemma {:induction false} HeldSumPlus(rows: seq<Row>, r: Row, key: Key, stamp: real)
    ensures HeldSum(rows + [r], key, stamp) ==
      HeldSum(rows, key, stamp) + if r.key == key && !r.released && stamp < r.expires then r.amount else 0.0
  {
    if rows == [] {
      assert rows + [r] == [r];
      assert HeldSum([r], key, stamp) ==
        (if r.key == key && !r.released && stamp < r.expires then r.amount else 0.0) + HeldSum([], key, stamp);
    } else {
      HeldSumPlus(rows[1..], r, key, stamp);
      assert (rows + [r])[1..] == rows[1..] + [r];
    }
  }

  /** What a sweep released is not held at an earlier stamp either. */
  lemma {:induction false} SweepHolds(rows: seq<Row>, key: Key, stamp: real, later: real)
    ensures HeldSum(Sweep(rows, key, stamp), key, later) == HeldSum(rows, key, if later < stamp then stamp else later)
  {
    if rows == [] {
    } else {
      SweepHolds(rows[1..], key, stamp, later);
      assert Sweep(rows, key, stamp)[1..] == Sweep(rows[1..], key, stamp);
    }
  }

  /** An admitted amount counts against the limit until its time to live has passed, and from then on no more. */
  lemma HeldUntilExpiry(db: Db, key: Key, limit: real, amount: real, id: string, ttl: real, stamp: real, later: real)
    requires Admits(db, key, limit, amount, stamp) && !Has(db.rows, id) && stamp <= later
    ensures HeldSum(AfterReserve(db, key, limit, amount, id, ttl, stamp).rows, key, later) ==
      HeldSum(db.rows, key, later) + if amount > 0.0 && later < stamp + ttl then amount else 0.0
  {
    SweepHolds(db.rows, key, stamp, later);
    HeldSumPlus(Sweep(db.rows, key, stamp), NewRow(key, amount, id, ttl, stamp), key, later);
  }

  /** An id that is in use is not inserted again: the request fails and leaves the tables as they were. */
  lemma RepeatedId(db: Db, key: Key, limit: real, amount: real, r: Row, ttl: real, stamp: real)
    requires Admits(db, key, limit, amount, stamp) && r in db.rows
    ensures AfterReserve(db, key, limit, amount, r.id, ttl, stamp) == db
  {
    var i :| 0 <= i < |db.rows| && db.rows[i] == r;
    assert Has(db.rows, r.id);
  }

  /** The tables after the booking half of a settle, for the subject found by its lookup half. */
  function AfterBooking(db: Db, id: string, key: Key, cost: Cost): Db {
    if !Has(db.rows, id) then db else
      var rows := Without(db.rows, id);
      var usage := if key in db.usage
                   then db.usage[key := Usage(db.usage[key].spent + Booked(cost), LiveSum(rows, key))]
                   else db.usage;
      Db(usage, rows)
  }

  function AfterSettle(db: Db, id: string, cost: Cost): Db {
    if Has(db.rows, id) then AfterBooking(db, id, db.rows[IndexOf(db.rows, id)].key, cost) else db
  }

  ghost predicate UniqueIds(rows: seq<Row>) {
    forall i, j :: 0 <= i < j < |rows| ==> rows[i].id != rows[j].id
  }

  lemma SettledIsGone(rows: seq<Row>, id: string)
    requires UniqueIds(rows)
    ensures !Has(Without(rows, id), id) && UniqueIds(Without(rows, id))
  {
  }

  lemma IndexOfRow(rows: seq<Row>, i: nat)
    requires UniqueIds(rows) && i < |rows|
    ensures IndexOf(rows, rows[i].id) == i
  {
    assert IndexOf(rows, rows[i].id) <= i;
  }

  /**
   Settling the reservation of row i consumes the row. Its subject has spent the cost more, if that is known and
   not negative; unknown, infinite and negative costs, and other subjects, add nothing.
   */
  lemma SettleSpends(db: Db, i: nat, cost: Cost, key: Key)
    requires UniqueIds(db.rows) && i < |db.rows| && db.rows[i].key in db.usage
    ensures var r, db' := db.rows[i], AfterSettle(db, db.rows[i].id, cost);
      && db'.rows == db.rows[..i] + db.rows[i + 1..]
      && UsageOf(db', key).spent == UsageOf(db, key).spent
           + (if key == r.key && cost.Usd? && cost.usd >= 0.0 then cost.usd else 0.0)
      && UsageOf(db', r.key).reserved == LiveSum(db.rows[..i], r.key) + LiveSum(db.rows[i + 1..], r.key)
  {
    IndexOfRow(db.rows, i);
    LiveSumAppend(db.rows[..i], db.rows[i + 1..], db.rows[i].key);
  }

  /** A call shed before it ran settles for an unknown cost: whatever the tables hold, nobody has spent more. */
  lemma UnknownBooksNothing(db: Db, id: string, cost: Cost, key: Key)
    requires !cost.Usd? || cost.usd <= 0.0
    ensures UsageOf(AfterSettle(db, id, cost), key).spent == UsageOf(db, key).spent
  {
  }

  /** How one attempt of the background settle ends: an attempt can commit and still look failed. */
  datatype Attempt = Failed | CommittedUnacknowledged | Acknowledged

  class Store {
    var usage: map<Key, Usage>
    var rows: seq<Row>

    ghost function Tables(): Db
      reads this
    {
      Db(usage, rows)
    }

    constructor ()
      ensures Tables() == Db(map[], [])
    {
      usage, rows := map[], [];
    }

    method Reserve(key: Key, limit: real, amount: real, id: string, ttl: real, stamp: real) returns (a: Admission)
      modifies this
      ensures Tables() == AfterReserve(old(Tables()), key, limit, amount, id, ttl, stamp)
      ensures a.storeOk == !(Admits(old(Tables()), key, limit, amount, stamp) && Has(old(rows), id))
      ensures a.storeOk ==> a.allowed == Admits(old(Tables()), key, limit, amount, stamp)
      ensures a.storeOk ==> a.spent == UsageOf(old(Tables()), key).spent && a.reserved == LiveSum(rows, key)
    {
      ghost var before := Tables();
      SweepSums(rows, key, stamp, key);
      var usage0, rows0 := usage, rows;
      if key !in usage {
        usage := usage[key := Usage(0.0, 0.0)];
      }
      var spent := usage[key].spent;
      rows := Sweep(rows, key, stamp);
      var reserved := LiveSum(rows, key);
      var held := if amount < 0.0 then 0.0 else amount;
      var allowed := spent + reserved + held <= limit + SLACK;
      if allowed {
        if Has(rows0, id) {
          usage, rows := usage0, rows0;
          return Admission(false, false, 0.0, 0.0);
        }
        LiveSumPlus(rows, Row(id, key, held, stamp + ttl, false), key);
        rows := rows + [Row(id, key, held, stamp + ttl, false)];
        reserved := reserved + held;
      }
      usage := usage[key := Usage(spent, reserved)];
      assert usage == before.usage[key := Usage(spent, reserved)];
      a := Admission(allowed, true, spent, reserved);
    }

    /** The unlocked SELECT that finds which subject a reservation belongs to. */
    method Lookup(id: string) returns (key: Option<Key>)
      ensures key == if Has(rows, id) then Some(rows[IndexOf(rows, id)].key) else None
    {
      var i := 0;
      while i < |rows|
        invariant i <= |rows| && i <= IndexOf(rows, id)
      {
        if rows[i].id == id { return Some(rows[i].key); }
        i := i + 1;
      }
      key := None;
    }

    /** Under the usage row's lock: consume the reservation and book the cost, unless another settle won. */
    method Book(id: string, key: Key, cost: Cost) returns (settled: bool)
      modifies this
      ensures settled == Has(old(rows), id)
      ensures Tables() == AfterBooking(old(Tables()), id, key, cost)
    {
      settled := Has(rows, id);
      if settled {
        rows := Without(rows, id);
        if key in usage {
          usage := usage[key := Usage(usage[key].spent + Booked(cost), LiveSum(rows, key))];
        }
      }
    }

    method Settle(id: string, cost: Cost) returns (settled: bool)
      modifies this
      ensures settled == Has(old(rows), id)
      ensures Tables() == AfterSettle(old(Tables()), id, cost)
    {
      var key := Lookup(id);
      if key.None? { return false; }
      settled := Book(id, key.value, cost);
    }

    method Prune(now: real)
      modifies this
      ensures usage == old(usage) && rows == Unpruned(old(rows), now)
    {
      rows := Unpruned(rows, now);
    }

    /**
     The background settle: retried until the store answers. Commits whose acknowledgement was lost are
     retried too, and the cost is still booked once if any attempt commits, and not at all otherwise.
     */
    method SettleWithRetry(id: string, cost: Cost, attempts: seq<Attempt>) returns (answered: bool)
      requires |attempts| == 5 && UniqueIds(rows)
      modifies this
      ensures answered == (Acknowledged in attempts)
      ensures (exists i :: 0 <= i < |attempts| && attempts[i] != Failed) ==>
        Tables() == AfterSettle(old(Tables()), id, cost)
      ensures (forall i :: 0 <= i < |attempts| ==> attempts[i] == Failed) ==> Tables() == old(Tables())
    {
      ghost var before := Tables();
      SettledIsGone(rows, id);
      ghost var committed := false;
      var i := 0;
      while i < SETTLE_ATTEMPTS
        invariant 0 <= i <= SETTLE_ATTEMPTS
        invariant Acknowledged !in attempts[..i]
        invariant committed == exists k :: 0 <= k < i && attempts[k] != Failed
        invariant Tables() == if committed then AfterSettle(before, id, cost) else before
      {
        if attempts[i] != Failed {
          var settled := Settle(id, cost);
          committed := true;
          if attempts[i] == Acknowledged {
            return true;
          }
        }
        assert attempts[..i + 1] == attempts[..i] + [attempts[i]];
        i := i + 1;
      }
      assert attempts[..i] == attempts;
      answered := false;
    }
  }
}
