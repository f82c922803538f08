/**
 The usage export (host_store.py, `usage_export`, `ledger_watermark`): pages of ledger rows behind an id
 cursor, each with a watermark up to which a reader may settle.

 An export only reads, so it is a set of observations of a run: the clock is read, then the page is
 selected, then `min(ts)` beyond the page, and last the pending call times of the answering process.
 Anything can happen in between.
 */
module LedgerExport {
  import opened Common
  import opened PendingCalls
  import opened LedgerWorld

  predicate Visible(w: World, u: nat, caller: string)
    requires u < |w.calls|
  {
    w.calls[u].status.Committed? && w.calls[u].caller == caller
  }

  /** The WHERE clause of the page query. */
  predicate Eligible(w: World, u: nat, caller: string, after: nat, cutoff: real)
    requires u < |w.calls|
  {
    Visible(w, u, caller) && w.calls[u].status.id > after && w.calls[u].status.recorded <= cutoff
  }

  ghost predicate IsLeastRow(w: World, caller: string, after: nat, cutoff: real, n: nat, r: Option<nat>)
    requires n <= |w.calls|
  {
    match r
    case None => forall v :: 0 <= v < n ==> !Eligible(w, v, caller, after, cutoff)
    case Some(u) =>
      && u < n && Eligible(w, u, caller, after, cutoff)
      && forall v :: 0 <= v < n && Eligible(w, v, caller, after, cutoff) ==>
        w.calls[u].status.id <= w.calls[v].status.id
  }

  /** The eligible row with the least id among the first n calls. */
  function NextRow(w: World, caller: string, after: nat, cutoff: real, n: nat): (r: Option<nat>)
    requires n <= |w.calls|
    ensures IsLeastRow(w, caller, after, cutoff, n, r)
  {
    if n == 0 then None else
      var best := NextRow(w, caller, after, cutoff, n - 1);
      if Eligible(w, n - 1, caller, after, cutoff) &&
         (best.None? || w.calls[n - 1].status.id < w.calls[best.value].status.id)
      then Some(n - 1) else best
  }

  /** ORDER BY id LIMIT limit. */
  function Page(w: World, caller: string, after: nat, cutoff: real, limit: nat): (page: seq<nat>)
    ensures |page| <= limit
    ensures forall u :: u in page ==> u < |w.calls| && Eligible(w, u, caller, after, cutoff)
    decreases limit
  {
    if limit == 0 then [] else
      var next := NextRow(w, caller, after, cutoff, |w.calls|);
      if next.None? then [] else
        [next.value] + Page(w, caller, w.calls[next.value].status.id, cutoff, limit - 1)
  }

  function IdOf(w: World, u: nat): nat {
    if u < |w.calls| && w.calls[u].HasId() then w.calls[u].status.id else 0
  }

  ghost predicate IdsIncrease(w: World, rows: seq<nat>) {
    forall k, l :: 0 <= k < l < |rows| ==> IdOf(w, rows[k]) < IdOf(w, rows[l])
  }

  /** `next_after_id`. */
  function NextCursor(w: World, after: nat, page: seq<nat>): nat {
    if page == [] then after else IdOf(w, page[|page| - 1])
  }

  /** `rows` are calls of w, each once, in id order, and exactly those visible with lo < id <= hi. */
  ghost predicate ExactlyBetween(w: World, caller: string, rows: seq<nat>, lo: nat, hi: nat) {
    && IdsIncrease(w, rows)
    && (forall u :: u in rows ==> u < |w.calls| && Visible(w, u, caller) && lo < IdOf(w, u) <= hi)
    && (forall u :: 0 <= u < |w.calls| && Visible(w, u, caller) && lo < IdOf(w, u) <= hi ==> u in rows)
  }

  /** Ids increase from above `after` up to `cursor`. */
  ghost predicate OrderedUpTo(w: World, rows: seq<nat>, after: nat, cursor: nat) {
    && IdsIncrease(w, rows) && after <= cursor
    && forall k :: 0 <= k < |rows| ==> after < IdOf(w, rows[k]) <= cursor
  }

  lemma PrependOrdered(w: World, u: nat, rest: seq<nat>, after: nat, cursor: nat)
    requires after < IdOf(w, u) && OrderedUpTo(w, rest, IdOf(w, u), cursor)
    ensures OrderedUpTo(w, [u] + rest, after, cursor)
  {
    var rows := [u] + rest;
    forall k, l | 0 <= k < l < |rows| ensures IdOf(w, rows[k]) < IdOf(w, rows[l]) {
      assert rows[l] == rest[l - 1] && (k > 0 ==> rows[k] == rest[k - 1]);
    }
  }

  /** The rows of a page increase in id and end at its cursor. */
  lemma {:induction false} PageOrdered(w: World, caller: string, after: nat, cutoff: real, limit: nat)
    ensures var page := Page(w, caller, after, cutoff, limit); OrderedUpTo(w, page, after, NextCursor(w, after, page))
    decreases limit
  {
    var page := Page(w, caller, after, cutoff, limit);
    if page == [] {
    } else {
      var next := NextRow(w, caller, after, cutoff, |w.calls|);
      var id := IdOf(w, next.value);
      var rest := Page(w, caller, id, cutoff, limit - 1);
      PageOrdered(w, caller, id, cutoff, limit - 1);
      assert page == [next.value] + rest;
      assert NextCursor(w, after, page) == NextCursor(w, id, rest);
      PrependOrdered(w, next.value, rest, after, NextCursor(w, after, page));
    }
  }

  /** No eligible row up to the cursor is missing, and a short page misses nothing at all. */
  lemma {:induction false} PageMissesNothing(w: World, caller: string, after: nat, cutoff: real, limit: nat, u: nat)
    requires IdsUnique(w) && u < |w.calls| && Eligible(w, u, caller, after, cutoff)
    requires var page := Page(w, caller, after, cutoff, limit);
      IdOf(w, u) <= NextCursor(w, after, page) || |page| < limit
    ensures u in Page(w, caller, after, cutoff, limit)
    decreases limit
  {
    var page := Page(w, caller, after, cutoff, limit);
    if limit == 0 {
    } else {
      var next := NextRow(w, caller, after, cutoff, |w.calls|);
      assert next.Some?;
      var id := w.calls[next.value].status.id;
      var rest := Page(w, caller, id, cutoff, limit - 1);
      assert page == [next.value] + rest;
      assert NextCursor(w, after, page) == NextCursor(w, id, rest);
      if u != next.value {
        assert w.calls[u].status.id != id;
        PageMissesNothing(w, caller, id, cutoff, limit - 1, u);
      }
    }
  }

  /** A committed row of the caller whose id is beyond the cursor. */
  ghost predicate CommittedBeyond(w: World, u: nat, caller: string, cursor: nat) {
    u < |w.calls| && w.calls[u].caller == caller && w.calls[u].status.Committed? && cursor < w.calls[u].status.id
  }

  /** What is on a page: the committed rows of the caller recorded by the cutoff, up to the limit. */
  lemma PageHolds(w: World, caller: string, after: nat, cutoff: real, limit: nat, u: nat)
    requires IdsUnique(w)
    ensures var page := Page(w, caller, after, cutoff, limit);
      u in page <==>
        && CommittedBeyond(w, u, caller, after) && w.calls[u].status.recorded <= cutoff
        && (|page| < limit || w.calls[u].status.id <= NextCursor(w, after, page))
  {
    var page := Page(w, caller, after, cutoff, limit);
    if u in page {
      PageOrdered(w, caller, after, cutoff, limit);
      var k :| 0 <= k < |page| && page[k] == u;
    } else if CommittedBeyond(w, u, caller, after) && w.calls[u].status.recorded <= cutoff
              && (|page| < limit || w.calls[u].status.id <= NextCursor(w, after, page)) {
      PageMissesNothing(w, caller, after, cutoff, limit, u);
    }
  }

  ghost predicate BoundsBeyond(w: World, caller: string, after: nat, n: nat, r: Option<int>)
    requires n <= |w.calls|
  {
    forall v :: 0 <= v < n && Visible(w, v, caller) && w.calls[v].status.id > after
      ==> r.Some? && r.value <= w.calls[v].ts
  }

  /** `min(ts)` over the visible rows beyond the cursor. */
  function OldestBeyond(w: World, caller: string, after: nat, n: nat): (r: Option<int>)
    requires n <= |w.calls|
    ensures BoundsBeyond(w, caller, after, n, r)
    ensures r.Some? ==>
      exists v :: 0 <= v < n && Visible(w, v, caller) && w.calls[v].status.id > after && r.value == w.calls[v].ts
  {
    if n == 0 then None else
      var best := OldestBeyond(w, caller, after, n - 1);
      if Visible(w, n - 1, caller) && w.calls[n - 1].status.id > after &&
         (best.None? || w.calls[n - 1].ts < best.value)
      then Some(w.calls[n - 1].ts) else best
  }

  // ---- a reader following the cursor ----

  /** One export answered by `proc`: the points of the run at which its four reads happen. */
  datatype Poll = Poll(proc: Proc, limit: int, start: nat, rowsAt: nat, minAt: nat, pendingAt: nat)

  /** Each export's reads happen in program order, up to the two that the watermark combines. */
  ghost predicate Polls(ws: seq<World>, polls: seq<Poll>) {
    && (forall k :: 0 <= k < |polls| ==> polls[k].start <= polls[k].rowsAt < |ws|)
    && (forall k :: 0 <= k < |polls| - 1 ==> polls[k].rowsAt <= polls[k + 1].start)
  }

  function Limit(p: Poll): nat { if p.limit < 1 then 1 else p.limit }

  /** The page of export p after cursor `after`. */
  function Rows(ws: seq<World>, lag: real, caller: string, p: Poll, after: nat): seq<nat>
    requires p.start <= p.rowsAt < |ws|
  {
    Page(ws[p.rowsAt], caller, after, ws[p.start].clock - lag, Limit(p))
  }

  /** The cursor after feeding every `next_after_id` back, starting from 0. */
  ghost function Cursor(ws: seq<World>, lag: real, caller: string, polls: seq<Poll>): nat
    requires Polls(ws, polls)
  {
    if polls == [] then 0 else
      var p, before := polls[|polls| - 1], Cursor(ws, lag, caller, polls[..|polls| - 1]);
      NextCursor(ws[p.rowsAt], before, Rows(ws, lag, caller, p, before))
  }

  /** All rows delivered so far, in delivery order. */
  ghost function Delivered(ws: seq<World>, lag: real, caller: string, polls: seq<Poll>): seq<nat>
    requires Polls(ws, polls)
  {
    if polls == [] then [] else
      var p, earlier := polls[|polls| - 1], polls[..|polls| - 1];
      Delivered(ws, lag, caller, earlier) + Rows(ws, lag, caller, p, Cursor(ws, lag, caller, earlier))
  }

  // ---- what a deployment has to provide ----

  /** Ids and insert times are drawn in the same order. */
  ghost predicate RecordedInOrder(w: World) {
    forall u, v ::
      (0 <= u < |w.calls| && 0 <= v < |w.calls| && w.calls[u].HasId() && w.calls[v].HasId()
       && w.calls[u].status.id < w.calls[v].status.id)
      ==> w.calls[u].status.recorded <= w.calls[v].status.recorded
  }

  /** No insert stays uncommitted for as long as the lag. */
  ghost predicate CommitsWithin(w: World, lag: real) {
    forall u :: 0 <= u < |w.calls| && w.calls[u].status.Inserting? ==> w.clock < w.calls[u].status.recorded + lag
  }

  ghost predicate InsertsInTime(ws: seq<World>, lag: real) {
    forall i :: 0 <= i < |ws| ==> RecordedInOrder(ws[i]) && CommitsWithin(ws[i], lag)
  }

  ghost predicate EnqueuedWithin(w: World, lag: real) {
    forall u :: 0 <= u < |w.calls| ==> w.calls[u].enqueued <= w.calls[u].time + lag
  }

  /** Calls reach the writer queue within the lag after they were stamped. */
  ghost predicate EnqueuedInTime(ws: seq<World>, lag: real) {
    forall i :: 0 <= i < |ws| ==> EnqueuedWithin(ws[i], lag)
  }

  ghost predicate BacklogAt(w: World, p: Proc, lag: real) {
    forall u ::
      (0 <= u < |w.calls| && w.calls[u].proc == p && (w.calls[u].status == Queued || w.calls[u].status.Inserting?))
      ==> w.clock <= w.calls[u].time + lag
  }

  /** A call of process p waits at most the lag, from its stamp, for its row to be visible. */
  ghost predicate BacklogWithin(ws: seq<World>, p: Proc, lag: real) {
    forall i :: 0 <= i < |ws| ==> BacklogAt(ws[i], p, lag)
  }

  ghost predicate OthersWithin(ws: seq<World>, p: Proc, lag: real) {
    forall q: Proc :: q != p ==> BacklogWithin(ws, q, lag)
  }

  // ---- exactly-once delivery ----

  /** What a page query answers: ordered rows up to the cursor, old enough, none missing. */
  ghost predicate PageFacts(w: World, caller: string, page: seq<nat>, after: nat, cursor: nat, cutoff: real) {
    && IdsIncrease(w, page) && after <= cursor
    && (forall u :: u in page ==> u < |w.calls| && Eligible(w, u, caller, after, cutoff) && IdOf(w, u) <= cursor)
    && (forall u :: 0 <= u < |w.calls| && Eligible(w, u, caller, after, cutoff) && IdOf(w, u) <= cursor ==> u in page)
    && (if page == [] then cursor == after else cursor == IdOf(w, page[|page| - 1]))
  }

  lemma PageIsExact(w: World, caller: string, after: nat, cutoff: real, limit: nat, page: seq<nat>, cursor: nat)
    requires IdsUnique(w)
    requires page == Page(w, caller, after, cutoff, limit) && cursor == NextCursor(w, after, page)
    ensures PageFacts(w, caller, page, after, cursor, cutoff)
  {
    PageOrdered(w, caller, after, cutoff, limit);
    forall u | u in page ensures IdOf(w, u) <= cursor {
      var k :| 0 <= k < |page| && page[k] == u;
    }
    forall u | 0 <= u < |w.calls| && Eligible(w, u, caller, after, cutoff) && IdOf(w, u) <= cursor ensures u in page {
      PageMissesNothing(w, caller, after, cutoff, limit, u);
    }
  }

  /** A page taken at some point stays exactly the rows between its two cursors, at every later point. */
  lemma {:induction false} PageStaysExact(w: World, w': World, caller: string, page: seq<nat>, after: nat, cursor: nat,
                      cutoff: real, lag: real)
    requires Inv(w) && Inv(w') && Later(w, w') && cutoff <= w.clock - lag
    requires RecordedInOrder(w') && CommitsWithin(w, lag)
    requires PageFacts(w, caller, page, after, cursor, cutoff)
    ensures ExactlyBetween(w', caller, page, after, cursor)
  {
    forall u | u in page ensures u < |w'.calls| && Visible(w', u, caller) && IdOf(w', u) == IdOf(w, u) {
      assert Evolves(w.calls[u].status, w'.calls[u].status, w.nextId);
    }
    forall k | 0 <= k < |page| ensures IdOf(w', page[k]) == IdOf(w, page[k]) {
      assert page[k] in page;
    }
    forall u | 0 <= u < |w'.calls| && Visible(w', u, caller) && after < IdOf(w', u) <= cursor ensures u in page {
      LateRowWasThere(w, w', caller, page, after, cursor, cutoff, lag, u);
    }
  }

  /** A row at or below the cursor of a page was already visible, and old enough, when the page was taken. */
  lemma LateRowWasThere(w: World, w': World, caller: string, page: seq<nat>, after: nat, cursor: nat, cutoff: real,
                        lag: real, u: nat)
    requires Inv(w) && Inv(w') && Later(w, w') && RecordedInOrder(w') && CommitsWithin(w, lag)
    requires cutoff <= w.clock - lag
    requires PageFacts(w, caller, page, after, cursor, cutoff)
    requires u < |w'.calls| && Visible(w', u, caller) && after < IdOf(w', u) <= cursor
    ensures u < |w.calls| && Eligible(w, u, caller, after, cutoff) && IdOf(w, u) == IdOf(w', u)
  {
    var last := page[|page| - 1];
    assert last in page;
    assert Evolves(w.calls[last].status, w'.calls[last].status, w.nextId);
    assert w'.calls[u].status.id < w.nextId;
    assert u < |w.calls|;
    assert Evolves(w.calls[u].status, w'.calls[u].status, w.nextId);
    if u != last {
      assert w'.calls[u].status.id != w'.calls[last].status.id;
      assert w'.calls[u].status.recorded <= w'.calls[last].status.recorded;
    }
  }

  lemma AppendExact(w: World, caller: string, a: seq<nat>, b: seq<nat>, lo: nat, mid: nat, hi: nat)
    requires lo <= mid <= hi && ExactlyBetween(w, caller, a, lo, mid) && ExactlyBetween(w, caller, b, mid, hi)
    ensures ExactlyBetween(w, caller, a + b, lo, hi)
  {
    var all := a + b;
    forall k, l | 0 <= k < l < |all| ensures IdOf(w, all[k]) < IdOf(w, all[l]) {
      if k < |a| <= l {
        assert all[k] == a[k] && all[k] in a && all[l] == b[l - |a|] && all[l] in b;
      } else if l < |a| {
        assert all[k] == a[k] && all[l] == a[l];
      } else {
        assert all[k] == b[k - |a|] && all[l] == b[l - |a|];
      }
    }
    forall u | u in all ensures u < |w.calls| && Visible(w, u, caller) && lo < IdOf(w, u) <= hi {
      assert u in a || u in b;
    }
  }

  /**
   Feeding `next_after_id` back delivers every committed row up to the cursor exactly once, in id order.
   The state j is any later one, so no row at or below the cursor ever becomes visible after it was passed.
   */
  lemma {:induction false} ExactlyOnce(ws: seq<World>, es: seq<Event>, lag: real, caller: string, polls: seq<Poll>,
                                       j: nat)
    requires IsRun(ws, es) && Polls(ws, polls) && InsertsInTime(ws, lag)
    requires j < |ws| && (polls != [] ==> polls[|polls| - 1].rowsAt <= j)
    ensures ExactlyBetween(ws[j], caller, Delivered(ws, lag, caller, polls), 0, Cursor(ws, lag, caller, polls))
  {
    if polls == [] {
    } else {
      var n := |polls| - 1;
      var p, earlier := polls[n], polls[..n];
      if n > 0 {
        assert earlier[n - 1] == polls[n - 1];
        assert polls[n - 1].rowsAt <= polls[n].start;
      }
      ExactlyOnce(ws, es, lag, caller, earlier, j);
      var rows, after := Delivered(ws, lag, caller, earlier), Cursor(ws, lag, caller, earlier);
      var page := Rows(ws, lag, caller, p, after);
      var cursor := NextCursor(ws[p.rowsAt], after, page);
      PollIsExact(ws, es, lag, caller, p, rows, page, after, cursor, j);
      assert Delivered(ws, lag, caller, polls) == rows + page && Cursor(ws, lag, caller, polls) == cursor;
    }
  }

  lemma PollIsExact(ws: seq<World>, es: seq<Event>, lag: real, caller: string, p: Poll, rows: seq<nat>, page: seq<nat>,
                    after: nat, cursor: nat, j: nat)
    requires IsRun(ws, es) && InsertsInTime(ws, lag) && p.start <= p.rowsAt <= j < |ws|
    requires page == Rows(ws, lag, caller, p, after) && cursor == NextCursor(ws[p.rowsAt], after, page)
    requires ExactlyBetween(ws[j], caller, rows, 0, after)
    ensures ExactlyBetween(ws[j], caller, rows + page, 0, cursor)
  {
    PollFacts(ws, es, lag, caller, p, page, after, cursor);
    RunReads(ws, es, lag, p.start, p.rowsAt, j);
    NextPage(ws[p.start], ws[p.rowsAt], ws[j], caller, rows, page, after, cursor, lag);
  }

  lemma PollFacts(ws: seq<World>, es: seq<Event>, lag: real, caller: string, p: Poll, page: seq<nat>, after: nat,
                  cursor: nat)
    requires IsRun(ws, es) && p.start <= p.rowsAt < |ws|
    requires page == Rows(ws, lag, caller, p, after) && cursor == NextCursor(ws[p.rowsAt], after, page)
    ensures PageFacts(ws[p.rowsAt], caller, page, after, cursor, ws[p.start].clock - lag)
  {
    RunKeepsInv(ws, es, p.rowsAt);
    PageIsExact(ws[p.rowsAt], caller, after, ws[p.start].clock - lag, Limit(p), page, cursor);
  }

  /** A reader's view: the clock was read at w0, the rows at w, and w' is any later state. */
  ghost predicate Reads(w0: World, w: World, w': World, lag: real) {
    && w0.clock <= w.clock && Later(w, w') && Inv(w) && Inv(w')
    && RecordedInOrder(w') && CommitsWithin(w, lag)
  }

  lemma RunReads(ws: seq<World>, es: seq<Event>, lag: real, i: nat, k: nat, j: nat)
    requires IsRun(ws, es) && InsertsInTime(ws, lag) && i <= k <= j < |ws|
    ensures Reads(ws[i], ws[k], ws[j], lag)
  {
    RunKeepsInv(ws, es, k);
    RunKeepsInv(ws, es, j);
    RunIsLater(ws, es, i, k);
    RunIsLater(ws, es, k, j);
  }

  lemma NextPage(w0: World, w: World, w': World, caller: string, rows: seq<nat>, page: seq<nat>, after: nat,
                 cursor: nat, lag: real)
    requires Reads(w0, w, w', lag) && ExactlyBetween(w', caller, rows, 0, after)
    requires PageFacts(w, caller, page, after, cursor, w0.clock - lag)
    ensures ExactlyBetween(w', caller, rows + page, 0, cursor)
  {
    PageStaysExact(w, w', caller, page, after, cursor, w0.clock - lag, lag);
    AppendExact(w', caller, rows, page, 0, after, cursor);
  }

  /** The committed rows of the caller that were recorded at least the lag before the export read its clock. */
  ghost predicate OldEnough(ws: seq<World>, lag: real, caller: string, p: Poll, u: nat)
    requires p.start <= p.rowsAt < |ws|
  {
    CommittedBeyond(ws[p.rowsAt], u, caller, 0) && ws[p.rowsAt].calls[u].status.recorded <= ws[p.start].clock - lag
  }

  /** After a page that is not full, a row is at or below the earlier cursor or on the page. */
  lemma ShortPage(w: World, caller: string, rows: seq<nat>, after: nat, cutoff: real, limit: nat, u: nat)
    requires IdsUnique(w) && ExactlyBetween(w, caller, rows, 0, after)
    requires |Page(w, caller, after, cutoff, limit)| < limit
    requires CommittedBeyond(w, u, caller, 0) && w.calls[u].status.recorded <= cutoff
    ensures u in rows + Page(w, caller, after, cutoff, limit)
  {
    if w.calls[u].status.id <= after {
      assert Visible(w, u, caller) && 0 < IdOf(w, u) <= after;
    } else {
      PageHolds(w, caller, after, cutoff, limit, u);
    }
  }

  /** What the latest export did: `rows` were delivered before it, up to `after`, and `page` by it. */
  ghost predicate Latest(ws: seq<World>, lag: real, caller: string, polls: seq<Poll>, rows: seq<nat>, after: nat,
                         page: seq<nat>)
    requires polls != [] && Polls(ws, polls)
  {
    var p := polls[|polls| - 1];
    && page == Rows(ws, lag, caller, p, after) && ExactlyBetween(ws[p.rowsAt], caller, rows, 0, after)
    && rows == Delivered(ws, lag, caller, polls[..|polls| - 1]) && Delivered(ws, lag, caller, polls) == rows + page
  }

  lemma LatestExport(ws: seq<World>, es: seq<Event>, lag: real, caller: string, polls: seq<Poll>)
    returns (rows: seq<nat>, after: nat, page: seq<nat>)
    requires IsRun(ws, es) && polls != [] && Polls(ws, polls) && InsertsInTime(ws, lag)
    ensures Latest(ws, lag, caller, polls, rows, after, page)
  {
    var n := |polls| - 1;
    if n > 0 { assert polls[..n][n - 1] == polls[n - 1] && polls[n - 1].rowsAt <= polls[n].start; }
    ExactlyOnce(ws, es, lag, caller, polls[..n], polls[n].rowsAt);
    rows, after := Delivered(ws, lag, caller, polls[..n]), Cursor(ws, lag, caller, polls[..n]);
    page := Rows(ws, lag, caller, polls[n], after);
  }

  /** The rows the latest export added. */
  ghost function RowsAdded(ws: seq<World>, lag: real, caller: string, polls: seq<Poll>): int
    requires polls != [] && Polls(ws, polls)
  {
    |Delivered(ws, lag, caller, polls)| - |Delivered(ws, lag, caller, polls[..|polls| - 1])|
  }

  /**
   No export stalls the reader: it delivers as many rows as were asked for, a limit below one counting as one,
   or else every row that was old enough has been delivered.
   */
  lemma FullOrCaughtUp(ws: seq<World>, es: seq<Event>, lag: real, caller: string, polls: seq<Poll>)
    requires IsRun(ws, es) && polls != [] && Polls(ws, polls) && InsertsInTime(ws, lag)
    ensures var p := polls[|polls| - 1];
      var asked := if p.limit < 1 then 1 else p.limit;
      && 0 <= RowsAdded(ws, lag, caller, polls) <= asked
      && (RowsAdded(ws, lag, caller, polls) < asked ==>
            forall u: nat :: OldEnough(ws, lag, caller, p, u) ==> u in Delivered(ws, lag, caller, polls))
  {
    var p := polls[|polls| - 1];
    var rows, after, page := LatestExport(ws, es, lag, caller, polls);
    RunKeepsInv(ws, es, p.rowsAt);
    if |page| < Limit(p) {
      forall u: nat | OldEnough(ws, lag, caller, p, u) ensures u in rows + page {
        ShortPage(ws[p.rowsAt], caller, rows, after, ws[p.start].clock - lag, Limit(p), u);
      }
    }
  }

  // ---- completeness of the watermark ----

  /** `watermark_ts` of an export: the process watermark, capped by the oldest visible row not delivered. */
  ghost function ReportedMark(w: World, caller: string, cursor: nat, mark: int): int {
    var oldest := OldestBeyond(w, caller, cursor, |w.calls|);
    if oldest.Some? && oldest.value < mark then oldest.value else mark
  }

  /** It is the greatest mark within both bounds. */
  lemma ReportedMarkIs(w: World, caller: string, cursor: nat, mark: int)
    ensures var r := ReportedMark(w, caller, cursor, mark);
      && r <= mark && (forall u: nat :: CommittedBeyond(w, u, caller, cursor) ==> r <= w.calls[u].ts)
      && (r == mark || exists u: nat :: CommittedBeyond(w, u, caller, cursor) && w.calls[u].ts == r)
  {
    var oldest := OldestBeyond(w, caller, cursor, |w.calls|);
    assert BoundsBeyond(w, caller, cursor, |w.calls|, oldest);
    forall u: nat | CommittedBeyond(w, u, caller, cursor) ensures oldest.Some? && oldest.value <= w.calls[u].ts {
      assert Visible(w, u, caller);
    }
    if oldest.Some? {
      var v :| 0 <= v < |w.calls| && Visible(w, v, caller) && w.calls[v].status.id > cursor
        && oldest.value == w.calls[v].ts;
      assert CommittedBeyond(w, v, caller, cursor);
    }
  }

  /** Every call with ts below the mark that is not lost has been delivered. */
  ghost predicate Complete(w: World, caller: string, rows: seq<nat>, mark: int) {
    forall u :: 0 <= u < |w.calls| && w.calls[u].caller == caller && w.calls[u].status != Lost && w.calls[u].ts < mark
      ==> u in rows
  }

  /**
   A write of the answering process that slips between the two reads: not yet visible to `min(ts)`, and
   already forgotten by `_pending_ts` when that is read.
   */
  ghost predicate SlipsThrough(atMin: World, atPending: World, p: Proc, caller: string, mark: int, u: nat) {
    && u < |atMin.calls| && u < |atPending.calls|
    && atPending.calls[u].proc == p && atPending.calls[u].caller == caller && atPending.calls[u].ts < mark
    && !Visible(atMin, u, caller)
    && atPending.calls[u].status.Committed? && !atPending.calls[u].pending
  }

  lemma TruncBelow(x: real, time: real, mark: int)
    requires 0.0 <= time && time.Floor < mark <= Trunc(x)
    ensures time < x
  {
    assert x >= 0.0;
    assert (time.Floor + 1) as real <= (Trunc(x)) as real <= x;
  }

  /** A call below the mark that this process could not see was visible before the export began, or lost. */
  lemma RemoteCallWasVisible(ws: seq<World>, es: seq<Event>, lag: real, p: Proc, start: nat, j: nat, u: nat, mark: int)
    requires IsRun(ws, es) && start <= j < |ws| && lag >= 0.0
    requires EnqueuedInTime(ws, lag) && BacklogWithin(ws, p, lag)
    requires u < |ws[j].calls| && ws[j].calls[u].proc == p && ws[j].calls[u].status != Lost
    requires ws[j].calls[u].ts < mark <= Trunc(ws[start].clock - lag)
    ensures u < |ws[start].calls| && ws[start].calls[u].status.Committed?
    ensures ws[j].calls[u].status == ws[start].calls[u].status
  {
    RunKeepsInv(ws, es, j);
    RunIsLater(ws, es, start, j);
    var c := ws[j].calls[u];
    assert EnqueuedWithin(ws[j], lag) && BacklogAt(ws[start], p, lag);
    TruncBelow(ws[start].clock - lag, c.time, mark);
    assert c.enqueued < ws[start].clock;
    assert u < |ws[start].calls|;
    assert Evolves(ws[start].calls[u].status, c.status, ws[start].nextId);
  }

  /** A call stamped below the mark was enqueued before the export began. */
  lemma OldCallIsThere(ws: seq<World>, es: seq<Event>, lag: real, start: nat, j: nat, u: nat, mark: int)
    requires IsRun(ws, es) && start <= j < |ws| && EnqueuedInTime(ws, lag)
    requires u < |ws[j].calls| && ws[j].calls[u].ts < mark <= Trunc(ws[start].clock - lag)
    ensures u < |ws[start].calls|
  {
    RunKeepsInv(ws, es, j);
    RunIsLater(ws, es, start, j);
    assert EnqueuedWithin(ws[j], lag);
    TruncBelow(ws[start].clock - lag, ws[j].calls[u].time, mark);
  }

  /** A call of p in flight when `_pending_ts` is read is not below the mark. */
  lemma PendingCapsMark(w: World, p: Proc, u: nat, stamp: real, lag: real, mark: int)
    requires Inv(w) && u < |w.calls| && w.calls[u].proc == p && w.calls[u].pending
    requires IsWatermark(PendingOf(w, p), stamp, lag, mark)
    ensures mark <= w.calls[u].ts
  {
    assert CountedAt(w, p, w.calls[u].ts);
    assert u in InFlight(w, p, w.calls[u].ts);
    assert Count(PendingOf(w, p), w.calls[u].ts) > 0;
  }

  /** A visible call below the reported mark is at or below the cursor, hence delivered. */
  lemma VisibleIsDelivered(ws: seq<World>, es: seq<Event>, lag: real, caller: string, polls: seq<Poll>, mark: int,
                           u: nat)
    requires IsRun(ws, es) && polls != [] && Polls(ws, polls) && InsertsInTime(ws, lag)
    requires var p := polls[|polls| - 1]; p.rowsAt <= p.minAt < |ws| && u < |ws[p.minAt].calls|
    requires var p := polls[|polls| - 1];
      Visible(ws[p.minAt], u, caller)
      && ws[p.minAt].calls[u].ts < ReportedMark(ws[p.minAt], caller, Cursor(ws, lag, caller, polls), mark)
    ensures u in Delivered(ws, lag, caller, polls)
  {
    var at := polls[|polls| - 1].minAt;
    RunKeepsInv(ws, es, at);
    ExactlyOnce(ws, es, lag, caller, polls, at);
    assert BoundsBeyond(ws[at], caller, Cursor(ws, lag, caller, polls), |ws[at].calls|,
                        OldestBeyond(ws[at], caller, Cursor(ws, lag, caller, polls), |ws[at].calls|));
  }

  /**
   Exactly when the watermark is right: every call below it has been delivered if and only if no write of
   the answering process slipped between the `min(ts)` query and the read of `_pending_ts`. The state j is
   any state from that read on.
   */
  lemma {:induction false} WatermarkCompleteIff(ws: seq<World>, es: seq<Event>, lag: real, caller: string,
                                                polls: seq<Poll>,
                      mark: int, j: nat)
    requires IsRun(ws, es) && polls != [] && Polls(ws, polls) && lag >= 0.0
    requires InsertsInTime(ws, lag) && EnqueuedInTime(ws, lag)
    requires var p := polls[|polls| - 1];
      && p.rowsAt <= p.minAt <= p.pendingAt <= j < |ws|
      && OthersWithin(ws, p.proc, lag)
      && IsWatermark(PendingOf(ws[p.pendingAt], p.proc), ws[p.start].clock, lag, mark)
    ensures var p := polls[|polls| - 1];
      var reported := ReportedMark(ws[p.minAt], caller, Cursor(ws, lag, caller, polls), mark);
      Complete(ws[j], caller, Delivered(ws, lag, caller, polls), reported) <==>
        forall u :: !SlipsThrough(ws[p.minAt], ws[p.pendingAt], p.proc, caller, reported, u)
  {
    var p := polls[|polls| - 1];
    var rows := Delivered(ws, lag, caller, polls);
    var reported := ReportedMark(ws[p.minAt], caller, Cursor(ws, lag, caller, polls), mark);
    RunIsLater(ws, es, p.rowsAt, p.minAt);
    RunIsLater(ws, es, p.minAt, p.pendingAt);
    RunIsLater(ws, es, p.pendingAt, j);
    if u: nat :| SlipsThrough(ws[p.minAt], ws[p.pendingAt], p.proc, caller, reported, u) {
      ExactlyOnce(ws, es, lag, caller, polls, p.rowsAt);
      assert Evolves(ws[p.pendingAt].calls[u].status, ws[j].calls[u].status, ws[p.pendingAt].nextId);
      NotDelivered(ws[p.rowsAt], ws[p.minAt], caller, rows, Cursor(ws, lag, caller, polls), u);
    } else {
      forall u | 0 <= u < |ws[j].calls| && ws[j].calls[u].caller == caller && ws[j].calls[u].status != Lost
          && ws[j].calls[u].ts < reported
        ensures u in rows
      {
        BelowMarkIsDelivered(ws, es, lag, caller, polls, mark, reported, j, u);
      }
    }
  }

  lemma StaysVisible(w: World, w': World, u: nat)
    requires Later(w, w') && u < |w.calls| && w.calls[u].status.Committed?
    ensures u < |w'.calls| && w'.calls[u].status == w.calls[u].status
  {
    assert Evolves(w.calls[u].status, w'.calls[u].status, w.nextId);
  }

  lemma NotDelivered(w: World, w': World, caller: string, rows: seq<nat>, cursor: nat, u: nat)
    requires Later(w, w') && ExactlyBetween(w, caller, rows, 0, cursor)
    requires u < |w'.calls| && !Visible(w', u, caller)
    ensures u !in rows
  {
    if u < |w.calls| { assert Evolves(w.calls[u].status, w'.calls[u].status, w.nextId); }
  }

  lemma BelowMarkIsDelivered(ws: seq<World>, es: seq<Event>, lag: real, caller: string, polls: seq<Poll>, mark: int,
                             reported: int, j: nat, u: nat)
    requires IsRun(ws, es) && polls != [] && Polls(ws, polls) && lag >= 0.0
    requires InsertsInTime(ws, lag) && EnqueuedInTime(ws, lag)
    requires var p := polls[|polls| - 1];
      && p.rowsAt <= p.minAt <= p.pendingAt <= j < |ws|
      && OthersWithin(ws, p.proc, lag)
      && IsWatermark(PendingOf(ws[p.pendingAt], p.proc), ws[p.start].clock, lag, mark)
      && reported == ReportedMark(ws[p.minAt], caller, Cursor(ws, lag, caller, polls), mark)
      && !SlipsThrough(ws[p.minAt], ws[p.pendingAt], p.proc, caller, reported, u)
    requires u < |ws[j].calls| && ws[j].calls[u].caller == caller && ws[j].calls[u].status != Lost
    requires ws[j].calls[u].ts < reported
    ensures u in Delivered(ws, lag, caller, polls)
  {
    var p := polls[|polls| - 1];
    var q := ws[j].calls[u].proc;
    OldCallIsThere(ws, es, lag, p.start, j, u, reported);
    RunIsLater(ws, es, p.start, p.minAt);
    RunIsLater(ws, es, p.minAt, p.pendingAt);
    RunIsLater(ws, es, p.pendingAt, j);
    RunKeepsInv(ws, es, p.pendingAt);
    assert Evolves(ws[p.minAt].calls[u].status, ws[p.pendingAt].calls[u].status, ws[p.minAt].nextId);
    assert Evolves(ws[p.pendingAt].calls[u].status, ws[j].calls[u].status, ws[p.pendingAt].nextId);
    if q == p.proc {
      if ws[p.pendingAt].calls[u].pending {
        PendingCapsMark(ws[p.pendingAt], q, u, ws[p.start].clock, lag, mark);
      }
    } else {
      RemoteCallWasVisible(ws, es, lag, q, p.start, j, u, reported);
      assert Evolves(ws[p.start].calls[u].status, ws[p.minAt].calls[u].status, ws[p.start].nextId);
    }
    VisibleIsDelivered(ws, es, lag, caller, polls, mark, u);
  }

  /** A local backlog within the lag is enough: nothing can slip through. */
  lemma {:induction false} WatermarkCompleteIfLocalBacklogShort(ws: seq<World>, es: seq<Event>, lag: real,
        caller: string, polls: seq<Poll>,
                                             mark: int, j: nat)
    requires IsRun(ws, es) && polls != [] && Polls(ws, polls) && lag >= 0.0
    requires InsertsInTime(ws, lag) && EnqueuedInTime(ws, lag)
    requires forall q: Proc :: BacklogWithin(ws, q, lag)
    requires var p := polls[|polls| - 1];
      && p.rowsAt <= p.minAt <= p.pendingAt <= j < |ws|
      && IsWatermark(PendingOf(ws[p.pendingAt], p.proc), ws[p.start].clock, lag, mark)
    ensures var p := polls[|polls| - 1];
      Complete(ws[j], caller, Delivered(ws, lag, caller, polls),
               ReportedMark(ws[p.minAt], caller, Cursor(ws, lag, caller, polls), mark))
  {
    var p := polls[|polls| - 1];
    var reported := ReportedMark(ws[p.minAt], caller, Cursor(ws, lag, caller, polls), mark);
    forall u: nat ensures !SlipsThrough(ws[p.minAt], ws[p.pendingAt], p.proc, caller, reported, u) {
      if SlipsThrough(ws[p.minAt], ws[p.pendingAt], p.proc, caller, reported, u) {
        RemoteCallWasVisible(ws, es, lag, p.proc, p.start, p.pendingAt, u, reported);
        RunIsLater(ws, es, p.start, p.minAt);
        RunIsLater(ws, es, p.minAt, p.pendingAt);
        StaysVisible(ws[p.start], ws[p.minAt], u);
      }
    }
    WatermarkCompleteIff(ws, es, lag, caller, polls, mark, j);
  }

  /** Event e is the writer of process p finishing a job. */
  ghost predicate FinishesFor(w: World, e: Event, p: Proc) {
    e.Finish? && e.call < |w.calls| && w.calls[e.call].proc == p
  }

  /** No write of the answering process finishes between the two reads: also enough, whatever its backlog. */
  lemma {:induction false} WatermarkCompleteIfNothingFinishes(ws: seq<World>, es: seq<Event>, lag: real,
        caller: string, polls: seq<Poll>,
                                           mark: int, j: nat)
    requires IsRun(ws, es) && polls != [] && Polls(ws, polls) && lag >= 0.0
    requires InsertsInTime(ws, lag) && EnqueuedInTime(ws, lag)
    requires var p := polls[|polls| - 1];
      && p.rowsAt <= p.minAt <= p.pendingAt <= j < |ws|
      && OthersWithin(ws, p.proc, lag)
      && IsWatermark(PendingOf(ws[p.pendingAt], p.proc), ws[p.start].clock, lag, mark)
      && forall i :: p.minAt <= i < p.pendingAt ==> !FinishesFor(ws[i], es[i], p.proc)
    ensures var p := polls[|polls| - 1];
      Complete(ws[j], caller, Delivered(ws, lag, caller, polls),
               ReportedMark(ws[p.minAt], caller, Cursor(ws, lag, caller, polls), mark))
  {
    var p := polls[|polls| - 1];
    var reported := ReportedMark(ws[p.minAt], caller, Cursor(ws, lag, caller, polls), mark);
    forall u: nat ensures !SlipsThrough(ws[p.minAt], ws[p.pendingAt], p.proc, caller, reported, u) {
      NothingSlips(ws, es, p, caller, reported, u);
    }
    WatermarkCompleteIff(ws, es, lag, caller, polls, mark, j);
  }

  lemma NothingSlips(ws: seq<World>, es: seq<Event>, p: Poll, caller: string, reported: int, u: nat)
    requires IsRun(ws, es) && p.minAt <= p.pendingAt < |ws|
    requires forall i :: p.minAt <= i < p.pendingAt ==> !FinishesFor(ws[i], es[i], p.proc)
    ensures !SlipsThrough(ws[p.minAt], ws[p.pendingAt], p.proc, caller, reported, u)
  {
    if SlipsThrough(ws[p.minAt], ws[p.pendingAt], p.proc, caller, reported, u) {
      RunIsLater(ws, es, p.minAt, p.pendingAt);
      UnfinishedStaysPending(ws, es, p.proc, p.minAt, p.pendingAt, u);
    }
  }

  /** A row becomes visible with its job still pending, and only the writer finishing it forgets it. */
  lemma OnlyFinishForgets(w: World, e: Event, u: nat)
    requires Inv(w) && Enabled(w, e) && u < |w.calls| && e != Finish(u)
    requires w.calls[u].status.Committed? ==> w.calls[u].pending
    requires Apply(w, e).calls[u].status.Committed?
    ensures Apply(w, e).calls[u].pending
  {
  }

  lemma {:induction false} UnfinishedStaysPending(ws: seq<World>, es: seq<Event>, p: Proc, i: nat, k: nat, u: nat)
    requires IsRun(ws, es) && i <= k < |ws| && u < |ws[i].calls| && u < |ws[k].calls|
    requires ws[k].calls[u].proc == p && ws[k].calls[u].status.Committed?
    requires !ws[i].calls[u].status.Committed?
    requires forall m :: i <= m < k ==> !FinishesFor(ws[m], es[m], p)
    ensures ws[k].calls[u].pending
    decreases k
  {
    if i == k {
    } else {
      RunIsLater(ws, es, i, k - 1);
      RunIsLater(ws, es, k - 1, k);
      RunKeepsInv(ws, es, k - 1);
      var e := es[k - 1];
      assert Next(ws[k - 1], e, ws[k - 1 + 1]);
      if ws[k - 1].calls[u].status.Committed? {
        UnfinishedStaysPending(ws, es, p, i, k - 1, u);
      }
      OnlyFinishForgets(ws[k - 1], e, u);
    }
  }

  /** Were `_pending_ts` read before the `min(ts)` query, the watermark would be complete whatever the backlog. */
  lemma {:induction false} PendingReadFirstIsComplete(ws: seq<World>, es: seq<Event>, lag: real, caller: string,
                      polls: seq<Poll>, mark: int, j: nat)
    requires IsRun(ws, es) && polls != [] && Polls(ws, polls) && lag >= 0.0
    requires InsertsInTime(ws, lag) && EnqueuedInTime(ws, lag)
    requires var p := polls[|polls| - 1];
      && p.start <= p.pendingAt <= p.minAt <= j < |ws| && p.rowsAt <= p.minAt
      && OthersWithin(ws, p.proc, lag)
      && IsWatermark(PendingOf(ws[p.pendingAt], p.proc), ws[p.start].clock, lag, mark)
    ensures var p := polls[|polls| - 1];
      Complete(ws[j], caller, Delivered(ws, lag, caller, polls),
               ReportedMark(ws[p.minAt], caller, Cursor(ws, lag, caller, polls), mark))
  {
    var p := polls[|polls| - 1];
    var rows := Delivered(ws, lag, caller, polls);
    var reported := ReportedMark(ws[p.minAt], caller, Cursor(ws, lag, caller, polls), mark);
    RunIsLater(ws, es, p.start, p.pendingAt);
    RunIsLater(ws, es, p.pendingAt, p.minAt);
    RunIsLater(ws, es, p.minAt, j);
    RunKeepsInv(ws, es, p.pendingAt);
    forall u | 0 <= u < |ws[j].calls| && ws[j].calls[u].caller == caller && ws[j].calls[u].status != Lost
        && ws[j].calls[u].ts < reported
      ensures u in rows
    {
      var q := ws[j].calls[u].proc;
      OldCallIsThere(ws, es, lag, p.start, j, u, reported);
      assert Evolves(ws[p.pendingAt].calls[u].status, ws[p.minAt].calls[u].status, ws[p.pendingAt].nextId);
      assert Evolves(ws[p.minAt].calls[u].status, ws[j].calls[u].status, ws[p.minAt].nextId);
      if q == p.proc {
        if ws[p.pendingAt].calls[u].pending {
          PendingCapsMark(ws[p.pendingAt], q, u, ws[p.start].clock, lag, mark);
        }
      } else {
        RemoteCallWasVisible(ws, es, lag, q, p.start, j, u, reported);
        assert Evolves(ws[p.start].calls[u].status, ws[p.pendingAt].calls[u].status, ws[p.start].nextId);
      }
      VisibleIsDelivered(ws, es, lag, caller, polls, mark, u);
    }
  }

  // ---- the order in which the export reads does matter ----

  function SlipCall(status: Status, pending: bool): Call {
    Call(0, "a", 100.0, 100, 100.0, status, pending)
  }

  /** One process: a call of second 100 is still queued at second 1000, and is written just after `min(ts)`. */
  const SLIP_EVENTS: seq<Event> :=
    [Tick(100.0), Enqueue(0, "a", 100.0, false), Tick(1000.0), Insert(0, 1000.0), Commit(0), Finish(0)]

  const SLIP_WORLDS: seq<World> := [
    START,
    World(100.0, 1, [], map[]),
    World(100.0, 1, [SlipCall(Queued, true)], map[0 := map[100 := 1]]),
    World(1000.0, 1, [SlipCall(Queued, true)], map[0 := map[100 := 1]]),
    World(1000.0, 2, [SlipCall(Inserting(1, 1000.0), true)], map[0 := map[100 := 1]]),
    World(1000.0, 2, [SlipCall(Committed(1, 1000.0), true)], map[0 := map[100 := 1]]),
    World(1000.0, 2, [SlipCall(Committed(1, 1000.0), false)], map[0 := map[]])]

  /** The clock, the page and `min(ts)` are read before the write, `_pending_ts` after it. */
  const SLIP_POLL := Poll(0, 1000, 3, 3, 3, 6)

  lemma SlipIsRun()
    ensures IsRun(SLIP_WORLDS, SLIP_EVENTS)
  {
    var ws, es := SLIP_WORLDS, SLIP_EVENTS;
    assert (100.0).Floor == 100;
    assert Next(ws[0], es[0], ws[1]);
    assert Next(ws[1], es[1], ws[2]);
    assert Next(ws[2], es[2], ws[3]);
    assert Next(ws[3], es[3], ws[4]);
    assert Next(ws[4], es[4], ws[5]);
    assert Next(ws[5], es[5], ws[6]);
  }

  lemma SlipHypotheses()
    ensures InsertsInTime(SLIP_WORLDS, 120.0) && EnqueuedInTime(SLIP_WORLDS, 120.0)
    ensures OthersWithin(SLIP_WORLDS, 0, 120.0)
  {
    forall i | 0 <= i < |SLIP_WORLDS|
      ensures RecordedInOrder(SLIP_WORLDS[i]) && CommitsWithin(SLIP_WORLDS[i], 120.0)
      ensures EnqueuedWithin(SLIP_WORLDS[i], 120.0)
      ensures forall q: Proc :: q != 0 ==> BacklogAt(SLIP_WORLDS[i], q, 120.0)
    {
      var w := SLIP_WORLDS[i];
      assert |w.calls| <= 1;
    }
  }

  lemma {:induction false} SlipPageIsEmpty()
    ensures Polls(SLIP_WORLDS, [SLIP_POLL])
    ensures Delivered(SLIP_WORLDS, 120.0, "a", [SLIP_POLL]) == [] && Cursor(SLIP_WORLDS, 120.0, "a", [SLIP_POLL]) == 0
  {
    var w := SLIP_WORLDS[3];
    assert [SLIP_POLL][..0] == [];
    assert NextRow(w, "a", 0, 880.0, 1) == None by { assert !Eligible(w, 0, "a", 0, 880.0); }
    assert Page(w, "a", 0, 880.0, 1000) == [];
  }

  /**
   Every other hypothesis holds, with a lag of two minutes and no other process, and yet a call 780 seconds
   below the reported watermark is in no page.
   */
  lemma {:induction false} SlippedWriteIsMissed()
    ensures IsRun(SLIP_WORLDS, SLIP_EVENTS) && Polls(SLIP_WORLDS, [SLIP_POLL])
    ensures InsertsInTime(SLIP_WORLDS, 120.0) && EnqueuedInTime(SLIP_WORLDS, 120.0)
    ensures OthersWithin(SLIP_WORLDS, 0, 120.0)
    ensures IsWatermark(PendingOf(SLIP_WORLDS[6], 0), SLIP_WORLDS[3].clock, 120.0, 880)
    ensures ReportedMark(SLIP_WORLDS[3], "a", Cursor(SLIP_WORLDS, 120.0, "a", [SLIP_POLL]), 880) == 880
    ensures !Complete(SLIP_WORLDS[6], "a", Delivered(SLIP_WORLDS, 120.0, "a", [SLIP_POLL]), 880)
  {
    SlipIsRun();
    SlipHypotheses();
    SlipPageIsEmpty();
    var w := SLIP_WORLDS[3];
    assert OldestBeyond(w, "a", 0, 1) == None by { assert !Visible(w, 0, "a"); }
    assert SLIP_WORLDS[6].calls[0].ts == 100;
  }

  // ---- the hypotheses leave a deployment all the time they name ----

  function SlowCall(status: Status, pending: bool): Call {
    Call(0, "a", 0.0, 0, 120.0, status, pending)
  }

  /** A call is stamped at zero, reaches its queue two minutes later, and is written just then. */
  const SLOW_EVENTS: seq<Event> := [Tick(120.0), Enqueue(0, "a", 0.0, false), Insert(0, 120.0), Commit(0)]

  const SLOW_WORLDS: seq<World> := [
    START,
    World(120.0, 1, [], map[]),
    World(120.0, 1, [SlowCall(Queued, true)], map[0 := map[0 := 1]]),
    World(120.0, 2, [SlowCall(Inserting(1, 120.0), true)], map[0 := map[0 := 1]]),
    World(120.0, 2, [SlowCall(Committed(1, 120.0), true)], map[0 := map[0 := 1]])]

  lemma SlowIsRun()
    ensures IsRun(SLOW_WORLDS, SLOW_EVENTS)
  {
    var ws, es := SLOW_WORLDS, SLOW_EVENTS;
    assert (0.0).Floor == 0;
    assert Next(ws[0], es[0], ws[1]);
    assert Next(ws[1], es[1], ws[2]);
    assert Next(ws[2], es[2], ws[3]);
    assert Next(ws[3], es[3], ws[4]);
  }

  lemma SlowPage()
    ensures 0 in Page(SLOW_WORLDS[4], "a", 0, 120.0, 1)
  {
    var w := SLOW_WORLDS[4];
    assert NextRow(w, "a", 0, 120.0, 1) == Some(0) by { assert Eligible(w, 0, "a", 0, 120.0); }
  }

  lemma SlowHypotheses(i: nat)
    requires i < |SLOW_WORLDS|
    ensures var w := SLOW_WORLDS[i];
      && RecordedInOrder(w) && CommitsWithin(w, 120.0) && EnqueuedWithin(w, 120.0)
      && forall q: Proc :: BacklogAt(w, q, 120.0)
  {
    assert |SLOW_WORLDS[i].calls| <= 1;
  }

  /** With a lag of two minutes every hypothesis holds of that run, and its row is on the page 120 seconds later. */
  lemma SlowestAllowed()
    ensures IsRun(SLOW_WORLDS, SLOW_EVENTS)
    ensures InsertsInTime(SLOW_WORLDS, 120.0) && EnqueuedInTime(SLOW_WORLDS, 120.0)
    ensures forall q: Proc :: BacklogWithin(SLOW_WORLDS, q, 120.0)
    ensures 0 in Page(SLOW_WORLDS[4], "a", 0, 240.0 - 120.0, 1)
  {
    SlowIsRun();
    SlowPage();
    forall i: nat | i < |SLOW_WORLDS|
      ensures var w := SLOW_WORLDS[i];
        && RecordedInOrder(w) && CommitsWithin(w, 120.0) && EnqueuedWithin(w, 120.0)
        && forall q: Proc :: BacklogAt(w, q, 120.0)
    {
      SlowHypotheses(i);
    }
  }
}
