/**
 Usage counters three ways (host_store.py, auth_proxy.py): grouped straight from the ledger, summed from
 hourly groups that a rollup keeps, and folded row by row in Python. Costs are exact reals.
 */
module Rollup {
  import opened Common

  /** A ledger row; None is NULL. */
  datatype Call = Call(
    ts: nat, caller: Option<string>, consumerSha: Option<string>, provider: Option<string>,
    family: Option<string>, requested: Option<string>, served: Option<string>, status: Option<int>,
    tokensIn: Option<int>, tokensOut: Option<int>, tokensTotal: Option<int>, tokensCached: Option<int>,
    cost: Option<real>)

  /** The eight grouping columns of `analytics_hourly`. */
  datatype Key = Key(bucket: int, caller: string, prefix: string, provider: string, family: string, route: string,
                     served: string, status: int)

  datatype Counter = Counter(
    requests: nat, errors: nat, tokensIn: int, tokensOut: int, tokensTotal: int, tokensCached: int,
    cost: real, priced: nat, lastSeen: Option<int>)

  const ZERO := Counter(0, 0, 0, 0, 0, 0, 0.0, 0, None)

  const HOUR := 3600
  const DAY := 86400

  /** COALESCE(NULLIF(a,''),NULLIF(b,''),'unknown'). */
  function Coalesce(a: Option<string>, b: Option<string>): string {
    if a.Some? && a.value != "" then a.value else if b.Some? && b.value != "" then b.value else "unknown"
  }

  function Prefix(sha: Option<string>): Option<string> {
    if sha.Some? && |sha.value| > 12 then Some(sha.value[..12]) else sha
  }

  function OrZero(n: Option<int>): int { if n.Some? then n.value else 0 }

  function HourFloor(ts: int): int { ts / HOUR * HOUR }

  function HourCeil(ts: int): int { (ts + (HOUR - 1)) / HOUR * HOUR }

  function KeyOf(c: Call): Key {
    Key(HourFloor(c.ts), Coalesce(c.caller, None), Coalesce(Prefix(c.consumerSha), None), Coalesce(c.provider, None),
        Coalesce(c.family, c.requested), Coalesce(c.requested, None), Coalesce(c.served, None), OrZero(c.status))
  }

  function Max(a: Option<int>, b: Option<int>): Option<int> {
    if a.None? then b else if b.None? || a.value >= b.value then a else b
  }

  function Add(a: Counter, b: Counter): Counter {
    Counter(a.requests + b.requests, a.errors + b.errors, a.tokensIn + b.tokensIn, a.tokensOut + b.tokensOut,
            a.tokensTotal + b.tokensTotal, a.tokensCached + b.tokensCached, a.cost + b.cost, a.priced + b.priced,
            Max(a.lastSeen, b.lastSeen))
  }

  /** What one row adds. */
  function Of(c: Call): Counter {
    Counter(1, if OrZero(c.status) >= 400 then 1 else 0, OrZero(c.tokensIn), OrZero(c.tokensOut),
            if OrZero(c.tokensTotal) != 0 then OrZero(c.tokensTotal) else OrZero(c.tokensIn) + OrZero(c.tokensOut),
            OrZero(c.tokensCached), if c.cost.Some? && c.cost.value > 0.0 then c.cost.value else 0.0,
            if c.cost.Some? then 1 else 0, Some(c.ts))
  }

  function Bump<K>(m: map<K, Counter>, k: K, c: Call): map<K, Counter> {
    m[k := Add(if k in m then m[k] else ZERO, Of(c))]
  }

  // ---- the rollup ----

  function InWindow(cs: seq<Call>, start: int, end: int): seq<Call> {
    if cs == [] then [] else
      var c := cs[|cs| - 1];
      InWindow(cs[..|cs| - 1], start, end) + if start <= c.ts < end then [c] else []
  }

  /** GROUP BY all eight columns. */
  function Grouped(cs: seq<Call>): map<Key, Counter> {
    if cs == [] then map[] else Bump(Grouped(cs[..|cs| - 1]), KeyOf(cs[|cs| - 1]), cs[|cs| - 1])
  }

  function Slice(t: map<Key, Counter>, start: int, end: int): map<Key, Counter> {
    map k | k in t && start <= k.bucket < end :: t[k]
  }

  function Outside(t: map<Key, Counter>, start: int, end: int): map<Key, Counter> {
    map k | k in t && !(start <= k.bucket < end) :: t[k]
  }

  /** The table after a rollup of the hours in [start, end). */
  function RolledUp(t: map<Key, Counter>, cs: seq<Call>, start: int, end: int): map<Key, Counter> {
    Outside(t, start, end) + Grouped(InWindow(cs, start, end))
  }

  class Ledger {
    var calls: seq<Call>
    var hourly: map<Key, Counter>

    constructor (calls: seq<Call>)
      ensures this.calls == calls && hourly == map[]
    {
      this.calls, hourly := calls, map[];
    }

    /** `rollup_analytics`; refused when the window is empty. */
    method RollUp(startTs: int, endTs: int) returns (ok: bool)
      modifies this`hourly
      ensures ok <==> HourFloor(startTs) < HourCeil(endTs)
      ensures hourly == if ok then RolledUp(old(hourly), calls, HourFloor(startTs), HourCeil(endTs)) else old(hourly)
    {
      var start, end := HourFloor(startTs), HourCeil(endTs);
      if end <= start { return false; }
      var groups: map<Key, Counter> := map[];
      for i := 0 to |calls|
        invariant hourly == old(hourly) && groups == Grouped(InWindow(calls[..i], start, end))
      {
        var c := calls[i];
        WindowNext(calls, i, start, end);
        if start <= c.ts < end { groups := Bump(groups, KeyOf(c), c); }
      }
      assert calls[..|calls|] == calls;
      hourly := Outside(hourly, start, end);
      hourly := hourly + groups;
      return true;
    }
  }

  lemma GroupedNext(cs: seq<Call>, c: Call)
    ensures Grouped(cs + [c]) == Bump(Grouped(cs), KeyOf(c), c)
  {
    assert (cs + [c])[..|cs|] == cs;
  }

  lemma WindowNext(cs: seq<Call>, i: nat, start: int, end: int)
    requires i < |cs|
    ensures var before := InWindow(cs[..i], start, end);
      Grouped(InWindow(cs[..i + 1], start, end)) ==
        if start <= cs[i].ts < end then Bump(Grouped(before), KeyOf(cs[i]), cs[i]) else Grouped(before)
  {
    var before := InWindow(cs[..i], start, end);
    assert cs[..i + 1][..i] == cs[..i];
    assert before + [] == before;
    GroupedNext(before, cs[i]);
  }

  ghost predicate Aligned(n: int) { n % HOUR == 0 }

  /** For whole hours, a row is in the window exactly if its hour is. */
  lemma HourInWindow(ts: int, start: int, end: int)
    requires Aligned(start) && Aligned(end)
    ensures start <= ts < end <==> start <= HourFloor(ts) < end
  {
  }

  lemma HoursAligned(ts: int)
    ensures Aligned(HourFloor(ts)) && Aligned(HourCeil(ts)) && HourFloor(ts) <= ts <= HourCeil(ts)
    ensures ts - 3600 < HourFloor(ts) && HourCeil(ts) < ts + 3600
  {
  }

  lemma {:induction false} WindowIsSlice(cs: seq<Call>, start: int, end: int)
    requires Aligned(start) && Aligned(end)
    ensures Grouped(InWindow(cs, start, end)) == Slice(Grouped(cs), start, end)
  {
    if cs == [] {
    } else {
      var n := |cs| - 1;
      WindowIsSlice(cs[..n], start, end);
      assert cs[..n + 1] == cs;
      WindowNext(cs, n, start, end);
      HourInWindow(cs[n].ts, start, end);
      SliceBump(Grouped(cs[..n]), KeyOf(cs[n]), cs[n], start, end);
    }
  }

  lemma SliceBump(t: map<Key, Counter>, k: Key, c: Call, start: int, end: int)
    ensures Slice(Bump(t, k, c), start, end) ==
      if start <= k.bucket < end then Bump(Slice(t, start, end), k, c) else Slice(t, start, end)
  {
  }

  /** Re-running a rollup changes nothing. */
  lemma {:induction false} RollupIdempotent(t: map<Key, Counter>, cs: seq<Call>, start: int, end: int)
    requires Aligned(start) && Aligned(end)
    ensures RolledUp(RolledUp(t, cs, start, end), cs, start, end) == RolledUp(t, cs, start, end)
  {
    WindowIsSlice(cs, start, end);
  }

  /** A rollup leaves, for its hours, the groups of their calls and nothing else, and the other hours as they were. */
  lemma RollupReplaces(t: map<Key, Counter>, cs: seq<Call>, start: int, end: int, k: Key)
    requires Aligned(start) && Aligned(end)
    ensures var after := RolledUp(t, cs, start, end);
      if k.bucket < start || end <= k.bucket
      then (k in after <==> k in t) && (k in t ==> after[k] == t[k])
      else (k in after <==> k in Grouped(cs)) && (k in after ==> after[k] == Grouped(cs)[k])
  {
    WindowIsSlice(cs, start, end);
  }

  function MinOf(a: int, b: int): int { if a <= b then a else b }

  function MaxOf(a: int, b: int): int { if a >= b then a else b }

  /** A rollup that touches the covered hours extends them, whatever it repeats. */
  lemma {:induction false} RollupExtends(cs: seq<Call>, a: int, b: int, start: int, end: int)
    requires Aligned(start) && Aligned(end) && a <= b && start < end && start <= b && a <= end
    ensures RolledUp(Slice(Grouped(cs), a, b), cs, start, end) == Slice(Grouped(cs), MinOf(a, start), MaxOf(b, end))
  {
    WindowIsSlice(cs, start, end);
  }

  datatype Window = Window(start: int, end: int)

  ghost predicate Whole(w: Window) { Aligned(w.start) && Aligned(w.end) && w.start < w.end }

  /** The hours that some rollups cover together. */
  function Hull(ws: seq<Window>): Window
    requires ws != []
  {
    var w := ws[|ws| - 1];
    if |ws| == 1 then w else
      var h := Hull(ws[..|ws| - 1]);
      Window(MinOf(h.start, w.start), MaxOf(h.end, w.end))
  }

  /** Every rollup touches or overlaps the hours covered before it. */
  ghost predicate Contiguous(ws: seq<Window>) {
    && (forall i :: 0 <= i < |ws| ==> Whole(ws[i]))
    && forall i :: 1 <= i < |ws| ==> ws[i].start <= Hull(ws[..i]).end && Hull(ws[..i]).start <= ws[i].end
  }

  function RollAll(cs: seq<Call>, ws: seq<Window>): map<Key, Counter> {
    if ws == [] then map[] else RolledUp(RollAll(cs, ws[..|ws| - 1]), cs, ws[|ws| - 1].start, ws[|ws| - 1].end)
  }

  /** The windows of n hours from some hour on, one after the other, forwards or backwards. */
  function HourByHour(from: int, n: nat, forwards: bool): seq<Window> {
    seq(n, i requires 0 <= i < n =>
      var h := if forwards then from + i else from - i; Window(3600 * h, 3600 * (h + 1)))
  }

  /** Rolling up hour by hour, forwards or as a backfill, is contiguous and covers just those hours. */
  lemma {:induction false} HourByHourCovers(from: int, n: nat, forwards: bool)
    requires n > 0
    ensures var ws := HourByHour(from, n, forwards);
      && Contiguous(ws)
      && Hull(ws) == if forwards then Window(3600 * from, 3600 * (from + n))
                     else Window(3600 * (from - n + 1), 3600 * (from + 1))
  {
    var ws := HourByHour(from, n, forwards);
    if n == 1 {
      assert ws == [ws[0]];
    } else {
      HourByHourCovers(from, n - 1, forwards);
      assert ws == HourByHour(from, n - 1, forwards) + [ws[n - 1]];
      ContiguousNext(HourByHour(from, n - 1, forwards), ws[n - 1]);
    }
  }

  lemma ContiguousNext(ws: seq<Window>, w: Window)
    requires ws != [] && Contiguous(ws) && Whole(w) && w.start <= Hull(ws).end && Hull(ws).start <= w.end
    ensures Contiguous(ws + [w])
    ensures Hull(ws + [w]) == Window(MinOf(Hull(ws).start, w.start), MaxOf(Hull(ws).end, w.end))
  {
    var longer := ws + [w];
    assert longer[..|ws|] == ws;
    forall i | 1 <= i < |longer|
      ensures longer[i].start <= Hull(longer[..i]).end && Hull(longer[..i]).start <= longer[i].end
    {
      assert longer[..i] == ws[..i];
    }
  }

  lemma {:induction false} ContiguousFront(ws: seq<Window>)
    requires Contiguous(ws) && |ws| > 1
    ensures var n := |ws| - 1;
      && Contiguous(ws[..n]) && Whole(ws[n]) && ws[n].start <= Hull(ws[..n]).end && Hull(ws[..n]).start <= ws[n].end
      && Hull(ws) == Window(MinOf(Hull(ws[..n]).start, ws[n].start), MaxOf(Hull(ws[..n]).end, ws[n].end))
  {
    var n := |ws| - 1;
    assert forall i :: 1 <= i < n ==> ws[..n][..i] == ws[..i];
  }

  lemma {:induction false} FirstRollup(cs: seq<Call>, w: Window)
    requires Whole(w)
    ensures RolledUp(map[], cs, w.start, w.end) == Slice(Grouped(cs), w.start, w.end)
  {
    WindowIsSlice(cs, w.start, w.end);
    assert Outside(map[], w.start, w.end) == map[];
  }

  /** Contiguous rollups, in any order and however often repeated, leave exactly the groups of the hours they cover. */
  lemma {:induction false} RollAllCovers(cs: seq<Call>, ws: seq<Window>)
    requires ws != [] && Contiguous(ws)
    ensures Hull(ws).start < Hull(ws).end && RollAll(cs, ws) == Slice(Grouped(cs), Hull(ws).start, Hull(ws).end)
    decreases |ws|
  {
    var n := |ws| - 1;
    if n == 0 {
      assert Whole(ws[0]) && ws[..0] == [];
      FirstRollup(cs, ws[0]);
    } else {
      ContiguousFront(ws);
      RollAllCovers(cs, ws[..n]);
      RollupExtends(cs, Hull(ws[..n]).start, Hull(ws[..n]).end, ws[n].start, ws[n].end);
    }
  }

  // ---- sums of groups ----

  /** SUM over the rows with the given keys. */
  ghost function SumOver(ks: set<Key>, t: map<Key, Counter>): Counter
    requires ks <= t.Keys
  {
    if ks == {} then ZERO else
      var k :| k in ks;
      Add(t[k], SumOver(ks - {k}, t))
  }

  lemma AddLaws(a: Counter, b: Counter, c: Counter)
    ensures Add(a, b) == Add(b, a) && Add(Add(a, b), c) == Add(a, Add(b, c)) && Add(a, ZERO) == a && Add(ZERO, a) == a
  {
  }

  lemma {:induction false} SumTake(ks: set<Key>, t: map<Key, Counter>, k: Key)
    requires ks <= t.Keys && k in ks
    ensures SumOver(ks, t) == Add(t[k], SumOver(ks - {k}, t))
    decreases |ks|
  {
    var j :| j in ks && SumOver(ks, t) == Add(t[j], SumOver(ks - {j}, t));
    if j != k {
      SumTake(ks - {j}, t, k);
      SumTake(ks - {k}, t, j);
      assert ks - {j} - {k} == ks - {k} - {j};
      var rest := SumOver(ks - {k} - {j}, t);
      AddLaws(t[j], t[k], rest);
      AddLaws(t[k], t[j], rest);
    }
  }

  lemma {:induction false} SumSame(ks: set<Key>, t: map<Key, Counter>, u: map<Key, Counter>)
    requires ks <= t.Keys && ks <= u.Keys && forall k :: k in ks ==> t[k] == u[k]
    ensures SumOver(ks, t) == SumOver(ks, u)
    decreases |ks|
  {
    if ks == {} {
    } else {
      var k :| k in ks && SumOver(ks, t) == Add(t[k], SumOver(ks - {k}, t));
      SumTake(ks, u, k);
      SumSame(ks - {k}, t, u);
    }
  }

  ghost function Where(t: map<Key, Counter>, p: Key -> bool): set<Key> { set k | k in t && p(k) }

  /** The rows whose key satisfies p, summed one by one. */
  function SumRows(cs: seq<Call>, p: Key -> bool): Counter {
    if cs == [] then ZERO else
      var c := cs[|cs| - 1];
      if p(KeyOf(c)) then Add(SumRows(cs[..|cs| - 1], p), Of(c)) else SumRows(cs[..|cs| - 1], p)
  }

  lemma SumBumpOld(t: map<Key, Counter>, u: map<Key, Counter>, ks: set<Key>, k: Key, x: Counter)
    requires ks <= t.Keys && k in ks && u == t[k := Add(t[k], x)]
    ensures SumOver(ks, u) == Add(SumOver(ks, t), x)
  {
    SumTake(ks, u, k);
    SumTake(ks, t, k);
    SumSame(ks - {k}, t, u);
    var rest := SumOver(ks - {k}, t);
    AddLaws(t[k], x, rest);
    AddLaws(x, rest, ZERO);
    AddLaws(t[k], rest, x);
  }

  lemma SumBumpNew(t: map<Key, Counter>, u: map<Key, Counter>, ks: set<Key>, k: Key, x: Counter)
    requires ks <= t.Keys && k !in t && u == t[k := Add(ZERO, x)]
    ensures SumOver(ks + {k}, u) == Add(SumOver(ks, t), x)
  {
    SumTake(ks + {k}, u, k);
    assert ks + {k} - {k} == ks;
    SumSame(ks, t, u);
    AddLaws(x, SumOver(ks, t), ZERO);
  }

  lemma SumBump(t: map<Key, Counter>, c: Call, p: Key -> bool)
    ensures var u := Bump(t, KeyOf(c), c);
      SumOver(Where(u, p), u) == if p(KeyOf(c)) then Add(SumOver(Where(t, p), t), Of(c)) else SumOver(Where(t, p), t)
  {
    var k := KeyOf(c);
    var u := Bump(t, k, c);
    if !p(k) {
      assert Where(u, p) == Where(t, p);
      SumSame(Where(t, p), t, u);
    } else if k in t {
      assert Where(u, p) == Where(t, p);
      SumBumpOld(t, u, Where(t, p), k, Of(c));
    } else {
      assert Where(u, p) == Where(t, p) + {k};
      SumBumpNew(t, u, Where(t, p), k, Of(c));
    }
  }

  /** Adding up the groups gives the sum of the rows. */
  lemma {:induction false} GroupsSumToRows(cs: seq<Call>, p: Key -> bool)
    ensures SumOver(Where(Grouped(cs), p), Grouped(cs)) == SumRows(cs, p)
  {
    if cs == [] {
      assert Where(Grouped(cs), p) == {};
    } else {
      GroupsSumToRows(cs[..|cs| - 1], p);
      SumBump(Grouped(cs[..|cs| - 1]), cs[|cs| - 1], p);
    }
  }

  // ---- the dashboard reads ----

  /** The breakdowns of the dashboard. */
  datatype Dim = ByCaller | ByProvider | ByFamily | ByRoute | ByServed | ByStatus | ByDay

  datatype Value = Name(name: string) | Number(n: int)

  /** The value of a breakdown for an hourly row; its day is the day of the hour. */
  function ValueOf(dim: Dim, k: Key): Value {
    match dim
    case ByCaller => Name(k.caller)
    case ByProvider => Name(k.provider)
    case ByFamily => Name(k.family)
    case ByRoute => Name(k.route)
    case ByServed => Name(k.served)
    case ByStatus => Number(k.status)
    case ByDay => Number(k.bucket / DAY)
  }

  /** The value of a breakdown for a ledger row. */
  function RowValue(dim: Dim, c: Call): Value {
    match dim
    case ByCaller => Name(Coalesce(c.caller, None))
    case ByProvider => Name(Coalesce(c.provider, None))
    case ByFamily => Name(Coalesce(c.family, c.requested))
    case ByRoute => Name(Coalesce(c.requested, None))
    case ByServed => Name(Coalesce(c.served, None))
    case ByStatus => Number(OrZero(c.status))
    case ByDay => Number(c.ts / DAY)
  }

  /** `analytics_aggregate`: sums of hourly rows from the hour of `since` on. */
  ghost function HourlyTotal(t: map<Key, Counter>, since: int): Counter {
    var p := (k: Key) => k.bucket >= HourFloor(since);
    SumOver(Where(t, p), t)
  }

  ghost function ValuesSince(t: map<Key, Counter>, since: int, dim: Dim): set<Value> {
    set k | k in t && k.bucket >= HourFloor(since) :: ValueOf(dim, k)
  }

  function Selects(since: int, dim: Dim, v: Value): Key -> bool {
    (k: Key) => k.bucket >= HourFloor(since) && ValueOf(dim, k) == v
  }

  ghost function HourlyBy(t: map<Key, Counter>, since: int, dim: Dim): map<Value, Counter> {
    map v | v in ValuesSince(t, since, dim) :: SumOver(Where(t, Selects(since, dim, v)), t)
  }

  /** `usage_aggregate`: ledger rows from `since` on, grouped directly. */
  function DirectTotal(cs: seq<Call>, since: int): Counter {
    if cs == [] then ZERO else
      var c := cs[|cs| - 1];
      if c.ts >= since then Add(DirectTotal(cs[..|cs| - 1], since), Of(c)) else DirectTotal(cs[..|cs| - 1], since)
  }

  function DirectBy(cs: seq<Call>, since: int, dim: Dim): map<Value, Counter> {
    if cs == [] then map[] else
      var c := cs[|cs| - 1];
      var before := DirectBy(cs[..|cs| - 1], since, dim);
      if c.ts >= since then Bump(before, RowValue(dim, c), c) else before
  }

  /** A row and its hour agree on every breakdown: hours do not straddle days. */
  lemma {:induction false} SameValue(dim: Dim, c: Call)
    ensures ValueOf(dim, KeyOf(c)) == RowValue(dim, c)
  {
    DayOfHour(c.ts);
  }

  lemma {:induction false} DayOfHour(ts: nat)
    ensures HourFloor(ts) / DAY == ts / DAY
  {
    var d, r := ts / DAY, ts % DAY;
    assert ts == DAY * d + r;
    assert ts / HOUR == 24 * d + r / HOUR;
    assert HourFloor(ts) == DAY * d + r / HOUR * HOUR && 0 <= r / HOUR * HOUR <= r;
  }

  lemma SinceHour(ts: int, since: int)
    requires Aligned(since)
    ensures HourFloor(since) == since && (HourFloor(ts) >= since <==> ts >= since)
  {
  }

  lemma {:induction false} DirectTotalIsRows(cs: seq<Call>, since: int, p: Key -> bool)
    requires Aligned(since) && forall k :: p(k) <==> k.bucket >= since
    ensures DirectTotal(cs, since) == SumRows(cs, p)
  {
    if cs == [] {
    } else {
      DirectTotalIsRows(cs[..|cs| - 1], since, p);
      SinceHour(cs[|cs| - 1].ts, since);
    }
  }

  lemma {:induction false} DirectByIsRows(cs: seq<Call>, since: int, dim: Dim, v: Value, p: Key -> bool)
    requires Aligned(since) && forall k :: p(k) <==> k.bucket >= since && ValueOf(dim, k) == v
    ensures SumRows(cs, p) == if v in DirectBy(cs, since, dim) then DirectBy(cs, since, dim)[v] else ZERO
  {
    if cs == [] {
    } else {
      var c := cs[|cs| - 1];
      DirectByIsRows(cs[..|cs| - 1], since, dim, v, p);
      SinceHour(c.ts, since);
      SameValue(dim, c);
    }
  }

  /** A breakdown lists a value exactly if a row of the window has it. */
  lemma {:induction false} DirectKeys(cs: seq<Call>, since: int, dim: Dim, v: Value)
    requires Aligned(since)
    ensures v in DirectBy(cs, since, dim) <==> exists k :: k in Grouped(cs) && k.bucket >= since && ValueOf(dim, k) == v
  {
    if cs == [] {
    } else {
      var before, c := cs[..|cs| - 1], cs[|cs| - 1];
      DirectKeys(before, since, dim, v);
      SinceHour(c.ts, since);
      SameValue(dim, c);
      assert KeyOf(c) in Grouped(cs);
    }
  }

  /** The rolled-up table holds all the groups of the window. */
  ghost predicate WindowCovered(cs: seq<Call>, t: map<Key, Counter>, since: int) {
    forall k :: (k in t && k.bucket >= since <==> k in Grouped(cs) && k.bucket >= since)
      && (k in t && k.bucket >= since ==> t[k] == Grouped(cs)[k])
  }

  lemma HourlySum(cs: seq<Call>, t: map<Key, Counter>, since: int, p: Key -> bool)
    requires WindowCovered(cs, t, since) && forall k :: p(k) ==> k.bucket >= since
    ensures SumOver(Where(t, p), t) == SumRows(cs, p)
  {
    assert Where(t, p) == Where(Grouped(cs), p);
    SumSame(Where(t, p), t, Grouped(cs));
    GroupsSumToRows(cs, p);
  }

  lemma HourlyTotalIsDirect(cs: seq<Call>, t: map<Key, Counter>, since: int)
    requires Aligned(since) && WindowCovered(cs, t, since)
    ensures HourlyTotal(t, since) == DirectTotal(cs, since)
  {
    SinceHour(0, since);
    var p := (k: Key) => k.bucket >= HourFloor(since);
    HourlySum(cs, t, since, p);
    DirectTotalIsRows(cs, since, p);
  }

  lemma HourlyValue(cs: seq<Call>, t: map<Key, Counter>, since: int, dim: Dim, v: Value)
    requires Aligned(since) && WindowCovered(cs, t, since)
    ensures v in ValuesSince(t, since, dim) <==> v in DirectBy(cs, since, dim)
    ensures v in DirectBy(cs, since, dim) ==>
      SumOver(Where(t, Selects(since, dim, v)), t) == DirectBy(cs, since, dim)[v]
  {
    SinceHour(0, since);
    DirectKeys(cs, since, dim, v);
    var p := Selects(since, dim, v);
    HourlySum(cs, t, since, p);
    DirectByIsRows(cs, since, dim, v, p);
  }

  lemma HourlyByIsDirect(cs: seq<Call>, t: map<Key, Counter>, since: int, dim: Dim)
    requires Aligned(since) && WindowCovered(cs, t, since)
    ensures HourlyBy(t, since, dim) == DirectBy(cs, since, dim)
  {
    forall v
      ensures v in ValuesSince(t, since, dim) <==> v in DirectBy(cs, since, dim)
      ensures v in DirectBy(cs, since, dim) ==>
        SumOver(Where(t, Selects(since, dim, v)), t) == DirectBy(cs, since, dim)[v]
    {
      HourlyValue(cs, t, since, dim, v);
    }
  }

  /**
   The hourly table gives the same totals and breakdowns as the ledger itself, for a window of whole hours that
   contiguous rollups cover and that no later call falls behind.
   */
  lemma {:induction false} HourlyAgreesWithLedger(cs: seq<Call>, ws: seq<Window>, since: int, dim: Dim)
    requires ws != [] && Contiguous(ws) && Aligned(since) && Hull(ws).start <= since
    requires forall i :: 0 <= i < |cs| ==> cs[i].ts < Hull(ws).end
    ensures HourlyTotal(RollAll(cs, ws), since) == DirectTotal(cs, since)
    ensures HourlyBy(RollAll(cs, ws), since, dim) == DirectBy(cs, since, dim)
  {
    var t := RollAll(cs, ws);
    RollAllCovers(cs, ws);
    forall k | k in Grouped(cs) ensures k.bucket < Hull(ws).end { GroupBefore(cs, k, Hull(ws).end); }
    assert WindowCovered(cs, t, since);
    HourlyTotalIsDirect(cs, t, since);
    HourlyByIsDirect(cs, t, since, dim);
  }

  lemma {:induction false} GroupBefore(cs: seq<Call>, k: Key, end: int)
    requires k in Grouped(cs) && forall i :: 0 <= i < |cs| ==> cs[i].ts < end
    ensures k.bucket < end
  {
    var c := cs[|cs| - 1];
    if k == KeyOf(c) { HoursAligned(c.ts); } else { GroupBefore(cs[..|cs| - 1], k, end); }
  }

  // ---- the reference fold ----

  /** `_counter`: no cost until a priced row comes. */
  datatype PyCounter = PyCounter(
    requests: nat, errors: nat, tokensIn: int, tokensOut: int, tokensTotal: int, tokensCached: int,
    cost: Option<real>, lastSeen: Option<int>)

  const FRESH := PyCounter(0, 0, 0, 0, 0, 0, None, None)

  /** `_cost_for_event` with an empty price table. */
  function CostForEvent(c: Call): Option<real> {
    if c.cost.Some? then Some(if c.cost.value > 0.0 then c.cost.value else 0.0) else None
  }

  /** `x or y` for numbers. */
  function OrElse(x: Option<int>, y: int): int { if x.Some? && x.value != 0 then x.value else y }

  /** `_add_counter`. */
  function AddCounter(m: PyCounter, c: Call): PyCounter {
    var cost := CostForEvent(c);
    var tin, tout := OrElse(c.tokensIn, 0), OrElse(c.tokensOut, 0);
    var seen := if OrElse(m.lastSeen, 0) >= c.ts then OrElse(m.lastSeen, 0) else c.ts;
    PyCounter(m.requests + 1, if OrElse(c.status, 0) >= 400 then m.errors + 1 else m.errors,
              m.tokensIn + tin, m.tokensOut + tout,
              m.tokensTotal + OrElse(c.tokensTotal, tin + tout), m.tokensCached + OrElse(c.tokensCached, 0),
              if cost.None? then m.cost else Some((if m.cost.Some? then m.cost.value else 0.0) + cost.value),
              if seen == 0 then None else Some(seen))
  }

  /** A Python counter shows what an SQL counter says: the cost only if some row was priced. */
  function View(c: Counter): PyCounter {
    PyCounter(c.requests, c.errors, c.tokensIn, c.tokensOut, c.tokensTotal, c.tokensCached,
              if c.priced > 0 then Some(c.cost) else None, c.lastSeen)
  }

  /** The totals of the fold: the cost starts at zero, no last-seen time. */
  datatype PyTotals = PyTotals(
    requests: nat, errors: nat, tokensIn: int, tokensOut: int, tokensTotal: int, tokensCached: int, cost: real)

  function AddTotals(m: PyTotals, c: Call): PyTotals {
    var cost := CostForEvent(c);
    var tin, tout := OrElse(c.tokensIn, 0), OrElse(c.tokensOut, 0);
    PyTotals(m.requests + 1, if OrElse(c.status, 0) >= 400 then m.errors + 1 else m.errors,
             m.tokensIn + tin, m.tokensOut + tout,
             m.tokensTotal + OrElse(c.tokensTotal, tin + tout), m.tokensCached + OrElse(c.tokensCached, 0),
             if cost.None? then m.cost else m.cost + cost.value)
  }

  function TotalsView(c: Counter): PyTotals {
    PyTotals(c.requests, c.errors, c.tokensIn, c.tokensOut, c.tokensTotal, c.tokensCached, c.cost)
  }

  function ViewAll(m: map<Value, Counter>): map<Value, PyCounter> { map v | v in m :: View(m[v]) }

  /** A counter of rows with positive time stamps. */
  ghost predicate Plausible(c: Counter) {
    (c.priced == 0 ==> c.cost == 0.0) && (c.lastSeen.Some? ==> c.lastSeen.value > 0)
  }

  lemma AddCounterIsAdd(m: Counter, c: Call)
    requires Plausible(m) && c.ts > 0
    ensures AddCounter(View(m), c) == View(Add(m, Of(c))) && Plausible(Add(m, Of(c)))
  {
  }

  lemma {:induction false} GroupsPlausible(cs: seq<Call>, since: int, dim: Dim)
    requires forall i :: 0 <= i < |cs| ==> cs[i].ts > 0
    ensures Plausible(DirectTotal(cs, since))
    ensures forall v :: v in DirectBy(cs, since, dim) ==> Plausible(DirectBy(cs, since, dim)[v])
  {
    if cs == [] {
    } else {
      GroupsPlausible(cs[..|cs| - 1], since, dim);
    }
  }

  /** `a or b` for strings, where the empty string counts as absent. */
  function OrText(a: Option<string>, b: string): string { if a.Some? && a.value != "" then a.value else b }

  /** The key under which the fold counts a row. */
  function PyValue(dim: Dim, c: Call): Value {
    match dim
    case ByCaller => Name(OrText(c.caller, "unknown"))
    case ByProvider => Name(OrText(c.provider, "unknown"))
    case ByFamily => Name(OrText(c.family, OrText(c.requested, "unknown")))
    case ByRoute => Name(OrText(c.requested, "unknown"))
    case ByServed => Name(OrText(c.served, "unknown"))
    case ByStatus => Number(OrElse(c.status, 0))
    case ByDay => Number(c.ts / DAY)
  }

  /** The fold and the ledger query name every row alike. */
  lemma SameName(dim: Dim, c: Call)
    ensures PyValue(dim, c) == RowValue(dim, c)
  {
  }

  /** Which column a breakdown shows: the first that is there and not empty, else "unknown". */
  lemma NamedBy(c: Call, name: string)
    requires name != ""
    ensures RowValue(ByFamily, c) == Name(name) <==>
      || c.family == Some(name)
      || ((c.family.None? || c.family == Some("")) &&
          (c.requested == Some(name) || ((c.requested.None? || c.requested == Some("")) && name == "unknown")))
    ensures RowValue(ByRoute, c) == Name(name) <==>
      c.requested == Some(name) || ((c.requested.None? || c.requested == Some("")) && name == "unknown")
    ensures RowValue(ByCaller, c) == Name(name) <==>
      c.caller == Some(name) || ((c.caller.None? || c.caller == Some("")) && name == "unknown")
    ensures RowValue(ByProvider, c) == Name(name) <==>
      c.provider == Some(name) || ((c.provider.None? || c.provider == Some("")) && name == "unknown")
    ensures RowValue(ByServed, c) == Name(name) <==>
      c.served == Some(name) || ((c.served.None? || c.served == Some("")) && name == "unknown")
    ensures c.consumerSha == Some(name) ==> KeyOf(c).prefix == if |name| <= 12 then name else name[..12]
    ensures c.consumerSha.None? || c.consumerSha == Some("") ==> KeyOf(c).prefix == "unknown"
  {
  }

  function AddTo(m: map<Value, PyCounter>, v: Value, c: Call): map<Value, PyCounter> {
    m[v := AddCounter(if v in m then m[v] else FRESH, c)]
  }

  lemma AddToIsBump(m: map<Value, Counter>, v: Value, c: Call)
    requires c.ts > 0 && forall x :: x in m ==> Plausible(m[x])
    ensures AddTo(ViewAll(m), v, c) == ViewAll(Bump(m, v, c))
  {
    AddCounterIsAdd(if v in m then m[v] else ZERO, c);
  }

  lemma DirectNext(cs: seq<Call>, i: nat, since: int, dim: Dim)
    requires i < |cs| && since <= cs[i].ts
    ensures DirectBy(cs[..i + 1], since, dim) == Bump(DirectBy(cs[..i], since, dim), RowValue(dim, cs[i]), cs[i])
  {
    assert cs[..i + 1][..i] == cs[..i];
  }

  lemma DirectTotalNext(cs: seq<Call>, i: nat, since: int)
    requires i < |cs| && since <= cs[i].ts
    ensures DirectTotal(cs[..i + 1], since) == Add(DirectTotal(cs[..i], since), Of(cs[i]))
  {
    assert cs[..i + 1][..i] == cs[..i];
  }

  /** The counters of one breakdown after the first i rows. */
  function CountersOf(rows: seq<Call>, i: nat, dim: Dim): map<Value, PyCounter>
    requires i <= |rows|
  {
    if i == 0 then map[] else AddTo(CountersOf(rows, i - 1, dim), PyValue(dim, rows[i - 1]), rows[i - 1])
  }

  function CountRequest(m: map<Value, nat>, v: Value): map<Value, nat> { m[v := (if v in m then m[v] else 0) + 1] }

  function RequestsOf(rows: seq<Call>, i: nat, dim: Dim): map<Value, nat>
    requires i <= |rows|
  {
    if i == 0 then map[] else CountRequest(RequestsOf(rows, i - 1, dim), PyValue(dim, rows[i - 1]))
  }

  function TotalsOf(rows: seq<Call>, i: nat): PyTotals
    requires i <= |rows|
  {
    if i == 0 then PyTotals(0, 0, 0, 0, 0, 0, 0.0) else AddTotals(TotalsOf(rows, i - 1), rows[i - 1])
  }

  /** Every breakdown of the fold is the direct grouping of the rows. */
  lemma {:induction false} FoldIsDirect(rows: seq<Call>, i: nat, dim: Dim)
    requires i <= |rows| && forall j :: 0 <= j < |rows| ==> rows[j].ts > 0
    ensures CountersOf(rows, i, dim) == ViewAll(DirectBy(rows[..i], 0, dim))
  {
    if i == 0 {
    } else {
      FoldIsDirect(rows, i - 1, dim);
      SameName(dim, rows[i - 1]);
      GroupsPlausible(rows[..i - 1], 0, dim);
      DirectNext(rows, i - 1, 0, dim);
      AddToIsBump(DirectBy(rows[..i - 1], 0, dim), RowValue(dim, rows[i - 1]), rows[i - 1]);
    }
  }

  lemma {:induction false} RequestsAreDirect(rows: seq<Call>, i: nat, dim: Dim)
    requires i <= |rows|
    ensures var m := DirectBy(rows[..i], 0, dim);
      RequestsOf(rows, i, dim).Keys == m.Keys && forall v :: v in m ==> RequestsOf(rows, i, dim)[v] == m[v].requests
  {
    if i == 0 {
    } else {
      RequestsAreDirect(rows, i - 1, dim);
      SameName(dim, rows[i - 1]);
      DirectNext(rows, i - 1, 0, dim);
    }
  }

  lemma AddTotalsIsAdd(m: Counter, c: Call)
    ensures AddTotals(TotalsView(m), c) == TotalsView(Add(m, Of(c)))
  {
  }

  lemma {:induction false} TotalsAreDirect(rows: seq<Call>, i: nat)
    requires i <= |rows|
    ensures TotalsOf(rows, i) == TotalsView(DirectTotal(rows[..i], 0))
  {
    if i == 0 {
    } else {
      TotalsAreDirect(rows, i - 1);
      DirectTotalNext(rows, i - 1, 0);
      AddTotalsIsAdd(DirectTotal(rows[..i - 1], 0), rows[i - 1]);
    }
  }

  lemma DirectAppend(cs: seq<Call>, c: Call, since: int, dim: Dim)
    requires since <= c.ts
    ensures DirectBy(cs + [c], since, dim) == Bump(DirectBy(cs, since, dim), RowValue(dim, c), c)
    ensures DirectTotal(cs + [c], since) == Add(DirectTotal(cs, since), Of(c))
  {
    assert (cs + [c])[..|cs|] == cs;
  }

  /** Reading only the rows of the window, and grouping all of those, is grouping from its start on. */
  lemma {:induction false} WindowIsDirect(cs: seq<Call>, since: int, end: int, dim: Dim)
    requires forall i :: 0 <= i < |cs| ==> cs[i].ts < end
    ensures DirectBy(InWindow(cs, since, end), 0, dim) == DirectBy(cs, since, dim)
    ensures DirectTotal(InWindow(cs, since, end), 0) == DirectTotal(cs, since)
  {
    if cs == [] {
    } else {
      var before, c := cs[..|cs| - 1], cs[|cs| - 1];
      WindowIsDirect(before, since, end, dim);
      var rows := InWindow(before, since, end);
      assert rows + [] == rows;
      DirectAppend(rows, c, 0, dim);
    }
  }

  lemma {:induction false} WindowRows(cs: seq<Call>, since: int, end: int)
    ensures forall i :: 0 <= i < |InWindow(cs, since, end)| ==>
      InWindow(cs, since, end)[i] in cs && since <= InWindow(cs, since, end)[i].ts < end
  {
    if cs == [] {
    } else {
      WindowRows(cs[..|cs| - 1], since, end);
      assert cs == cs[..|cs| - 1] + [cs[|cs| - 1]];
    }
  }

  /**
   The reference fold over the rows of a window, the direct grouping from its start on, and the hourly table
   agree, for every window of whole hours that contiguous rollups cover and no later call falls behind.
   */
  lemma ThreeWaysAgree(cs: seq<Call>, ws: seq<Window>, since: int, dim: Dim)
    requires ws != [] && Contiguous(ws) && Aligned(since) && Hull(ws).start <= since
    requires forall i :: 0 <= i < |cs| ==> cs[i].ts < Hull(ws).end && (since <= cs[i].ts ==> 0 < cs[i].ts)
    ensures var rows, t := InWindow(cs, since, Hull(ws).end), RollAll(cs, ws);
      && TotalsOf(rows, |rows|) == TotalsView(DirectTotal(cs, since)) == TotalsView(HourlyTotal(t, since))
      && CountersOf(rows, |rows|, dim) == ViewAll(DirectBy(cs, since, dim)) == ViewAll(HourlyBy(t, since, dim))
  {
    var rows := InWindow(cs, since, Hull(ws).end);
    HourlyAgreesWithLedger(cs, ws, since, dim);
    WindowIsDirect(cs, since, Hull(ws).end, dim);
    WindowRows(cs, since, Hull(ws).end);
    assert rows[..|rows|] == rows;
    TotalsAreDirect(rows, |rows|);
    FoldIsDirect(rows, |rows|, dim);
  }

  /** The counts by status agree too. */
  lemma StatusCountsAgree(cs: seq<Call>, ws: seq<Window>, since: int)
    requires ws != [] && Contiguous(ws) && Aligned(since) && Hull(ws).start <= since
    requires forall i :: 0 <= i < |cs| ==> cs[i].ts < Hull(ws).end
    ensures var rows, hourly := InWindow(cs, since, Hull(ws).end), HourlyBy(RollAll(cs, ws), since, ByStatus);
      var counts := RequestsOf(rows, |rows|, ByStatus);
      counts.Keys == hourly.Keys && forall v :: v in hourly ==> counts[v] == hourly[v].requests
  {
    var rows := InWindow(cs, since, Hull(ws).end);
    HourlyAgreesWithLedger(cs, ws, since, ByStatus);
    WindowIsDirect(cs, since, Hull(ws).end, ByStatus);
    assert rows[..|rows|] == rows;
    RequestsAreDirect(rows, |rows|, ByStatus);
  }

  /** The breakdowns that keep whole counters, in the order the fold visits them. */
  const BUCKETS: seq<Dim> := [ByCaller, ByProvider, ByFamily, ByRoute, ByServed]

  /** One row, added to every breakdown. */
  method AddToBuckets(buckets0: map<Dim, map<Value, PyCounter>>,
                      row: Call) returns (buckets: map<Dim, map<Value, PyCounter>>)
    requires forall k :: 0 <= k < |BUCKETS| ==> BUCKETS[k] in buckets0
    ensures forall k :: 0 <= k < |BUCKETS| ==>
      BUCKETS[k] in buckets && buckets[BUCKETS[k]] == AddTo(buckets0[BUCKETS[k]], PyValue(BUCKETS[k], row), row)
  {
    buckets := buckets0;
    for i := 0 to |BUCKETS|
      invariant forall k :: 0 <= k < |BUCKETS| ==> BUCKETS[k] in buckets
      invariant forall k :: 0 <= k < i ==>
        buckets[BUCKETS[k]] == AddTo(buckets0[BUCKETS[k]], PyValue(BUCKETS[k], row), row)
      invariant forall k :: i <= k < |BUCKETS| ==> buckets[BUCKETS[k]] == buckets0[BUCKETS[k]]
    {
      var dim := BUCKETS[i];
      buckets := buckets[dim := AddTo(buckets[dim], PyValue(dim, row), row)];
    }
  }

  /** What the fold returns. */
  datatype Aggregate = Aggregate(
    totals: PyTotals, byCaller: map<Value, PyCounter>, byProvider: map<Value, PyCounter>,
    byFamily: map<Value, PyCounter>,
    byRoute: map<Value, PyCounter>, byServed: map<Value, PyCounter>, byStatus: map<Value, nat>)

  /** `_aggregate_usage_rows` with an empty price table: one pass, all breakdowns. */
  method AggregateUsageRows(rows: seq<Call>) returns (r: Aggregate)
    ensures r.totals == TotalsOf(rows, |rows|) && r.byStatus == RequestsOf(rows, |rows|, ByStatus)
    ensures r.byCaller == CountersOf(rows, |rows|, ByCaller) && r.byProvider == CountersOf(rows, |rows|, ByProvider)
    ensures r.byFamily == CountersOf(rows, |rows|, ByFamily) && r.byRoute == CountersOf(rows, |rows|, ByRoute)
    ensures r.byServed == CountersOf(rows, |rows|, ByServed)
  {
    var totals, byStatus := PyTotals(0, 0, 0, 0, 0, 0, 0.0), map[];
    var buckets: map<Dim, map<Value, PyCounter>> :=
      map[ByCaller := map[], ByProvider := map[], ByFamily := map[], ByRoute := map[], ByServed := map[]];
    for i := 0 to |rows|
      invariant totals == TotalsOf(rows, i) && byStatus == RequestsOf(rows, i, ByStatus)
      invariant forall k :: 0 <= k < |BUCKETS| ==>
        BUCKETS[k] in buckets && buckets[BUCKETS[k]] == CountersOf(rows, i, BUCKETS[k])
    {
      totals := AddTotals(totals, rows[i]);
      byStatus := CountRequest(byStatus, Number(OrElse(rows[i].status, 0)));
      buckets := AddToBuckets(buckets, rows[i]);
    }
    assert BUCKETS[0] == ByCaller && BUCKETS[1] ==
      ByProvider && BUCKETS[2] == ByFamily && BUCKETS[3] == ByRoute && BUCKETS[4] == ByServed;
    r := Aggregate(totals, buckets[ByCaller], buckets[ByProvider], buckets[ByFamily], buckets[ByRoute],
                   buckets[ByServed], byStatus);
  }
}
