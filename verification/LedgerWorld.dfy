/**
 Several processes writing one shared call ledger (host_store.py, `insert_call_async`, `_writer_loop`,
 `insert_call`). An insert is two steps, drawing an id and showing the row, with the steps of other
 processes in between.
 */
module LedgerWorld {
  import opened Common
  import opened PendingCalls

  type Proc = nat

  datatype Status =
    | Queued                              // in the process's write queue
    | Inserting(id: nat, recorded: real)  // id and recorded_at drawn, transaction still open
    | Committed(id: nat, recorded: real)  // visible to every reader
    | Lost                                // dropped by a full queue, or the write failed

  /**
   One call. `time` is when the ingress stamped it and `ts` the stored whole second; `enqueued` is when
   it reached the writer queue. `pending` says the job is counted in its process's `_pending_ts`.
   */
  datatype Call = Call(proc: Proc, caller: string, time: real, ts: int, enqueued: real,
                       status: Status, pending: bool)
  {
    predicate HasId() { status.Inserting? || status.Committed? }
  }

  /** Calls are numbered in the order they are enqueued. */
  datatype World = World(clock: real, nextId: nat, calls: seq<Call>, pending: map<Proc, Pending>)

  datatype Event =
    | Tick(now: real)
    | Enqueue(proc: Proc, caller: string, time: real, full: bool)
    | Insert(call: nat, recorded: real)
    | Commit(call: nat)
    | Fail(call: nat)
    | Finish(call: nat)

  function PendingOf(w: World, p: Proc): Pending {
    if p in w.pending then w.pending[p] else map[]
  }

  /** The single writer of a process takes jobs in order, one at a time. */
  ghost predicate AtHead(w: World, u: nat)
    requires u < |w.calls|
  {
    forall v :: 0 <= v < u && w.calls[v].proc == w.calls[u].proc ==> !w.calls[v].pending
  }

  ghost predicate Enabled(w: World, e: Event) {
    match e
    case Tick(now) => w.clock <= now
    case Enqueue(p, caller, time, full) => 0.0 <= time <= w.clock
    case Insert(u, recorded) => u < |w.calls| && w.calls[u].status == Queued && AtHead(w, u) && recorded <= w.clock
    case Commit(u) => u < |w.calls| && w.calls[u].status.Inserting?
    case Fail(u) => u < |w.calls| && AtHead(w, u) && (w.calls[u].status == Queued || w.calls[u].status.Inserting?)
    case Finish(u) => u < |w.calls| && w.calls[u].pending && (w.calls[u].status.Committed? || w.calls[u].status == Lost)
  }

  ghost function Apply(w: World, e: Event): World
    requires Enabled(w, e)
  {
    match e
    case Tick(now) => w.(clock := now)
    case Enqueue(p, caller, time, full) =>
      var call := Call(p, caller, time, time.Floor, w.clock, if full then Lost else Queued, !full);
      w.(calls := w.calls + [call],
         pending := if full then w.pending else w.pending[p := Added(PendingOf(w, p), time.Floor)])
    case Insert(u, recorded) =>
      w.(nextId := w.nextId + 1, calls := w.calls[u := w.calls[u].(status := Inserting(w.nextId, recorded))])
    case Commit(u) =>
      w.(calls := w.calls[u := w.calls[u].(status := Committed(w.calls[u].status.id, w.calls[u].status.recorded))])
    case Fail(u) => w.(calls := w.calls[u := w.calls[u].(status := Lost)])
    case Finish(u) =>
      var p := w.calls[u].proc;
      w.(calls := w.calls[u := w.calls[u].(pending := false)],
         pending := w.pending[p := Removed(PendingOf(w, p), w.calls[u].ts)])
  }

  ghost predicate Next(w: World, e: Event, w': World) {
    Enabled(w, e) && w' == Apply(w, e)
  }

  const START := World(0.0, 1, [], map[])

  /** A run: any interleaving of the processes' steps, starting from the empty ledger. */
  ghost predicate IsRun(ws: seq<World>, es: seq<Event>) {
    && |ws| == |es| + 1
    && ws[0] == START
    && forall i {:trigger es[i]} :: 0 <= i < |es| ==> Next(ws[i], es[i], ws[i + 1])
  }

  // ---- what every reachable ledger satisfies ----

  /** The calls of process p at call time t that its writer has not finished. */
  ghost function InFlight(w: World, p: Proc, t: int): set<nat> {
    set u: nat | u < |w.calls| && w.calls[u].proc == p && w.calls[u].ts == t && w.calls[u].pending
  }

  ghost predicate CallsOk(w: World) {
    w.nextId >= 1 &&
    forall u :: 0 <= u < |w.calls| ==>
      var c := w.calls[u];
      && 0.0 <= c.time <= c.enqueued <= w.clock
      && c.ts == c.time.Floor
      && (c.HasId() ==> 1 <= c.status.id < w.nextId)
      && (c.status == Queued || c.status.Inserting? ==> c.pending)
  }

  ghost predicate IdsUnique(w: World) {
    forall u, v :: 0 <= u < v < |w.calls| && w.calls[u].HasId() && w.calls[v].HasId()
      ==> w.calls[u].status.id != w.calls[v].status.id
  }

  ghost predicate CountedAt(w: World, p: Proc, t: int) {
    Positive(PendingOf(w, p)) && Count(PendingOf(w, p), t) == |InFlight(w, p, t)|
  }

  /** `_pending_ts` of every process is exactly the count of its unfinished calls, per call time. */
  ghost predicate PendingExact(w: World) {
    forall p: Proc, t: int :: CountedAt(w, p, t)
  }

  ghost predicate Inv(w: World) {
    CallsOk(w) && IdsUnique(w) && PendingExact(w)
  }

  lemma PendingKept(w: World, w': World)
    requires PendingExact(w) && w'.pending == w.pending && |w.calls| <= |w'.calls|
    requires forall u :: 0 <= u < |w.calls| ==>
      && w'.calls[u].proc == w.calls[u].proc && w'.calls[u].ts == w.calls[u].ts
      && w'.calls[u].pending == w.calls[u].pending
    requires forall u :: |w.calls| <= u < |w'.calls| ==> !w'.calls[u].pending
    ensures PendingExact(w')
  {
    forall p: Proc, t: int ensures CountedAt(w', p, t) {
      assert CountedAt(w, p, t);
      assert InFlight(w', p, t) == InFlight(w, p, t);
    }
  }

  lemma PendingGrows(w: World, w': World, c: Call)
    requires PendingExact(w) && c.pending && w'.calls == w.calls + [c]
    requires w'.pending == w.pending[c.proc := Added(PendingOf(w, c.proc), c.ts)]
    ensures PendingExact(w')
  {
    forall p: Proc, t: int ensures CountedAt(w', p, t) {
      assert CountedAt(w, p, t);
      InFlightGrows(w, w', c, p, t);
      if p == c.proc { AddedCounts(PendingOf(w, p), c.ts); }
    }
  }

  lemma InFlightGrows(w: World, w': World, c: Call, p: Proc, t: int)
    requires c.pending && w'.calls == w.calls + [c]
    ensures InFlight(w', p, t) == InFlight(w, p, t) + if c.proc == p && c.ts == t then {|w.calls|} else {}
    ensures |InFlight(w', p, t)| == |InFlight(w, p, t)| + if c.proc == p && c.ts == t then 1 else 0
  {
    assert InFlight(w', p, t) == InFlight(w, p, t) + if c.proc == p && c.ts == t then {|w.calls|} else {};
  }

  lemma PendingShrinks(w: World, w': World, u: nat)
    requires PendingExact(w) && u < |w.calls| && w.calls[u].pending
    requires w'.calls == w.calls[u := w.calls[u].(pending := false)]
    requires w'.pending == w.pending[w.calls[u].proc := Removed(PendingOf(w, w.calls[u].proc), w.calls[u].ts)]
    ensures PendingExact(w')
  {
    var p0, t0 := w.calls[u].proc, w.calls[u].ts;
    assert u in InFlight(w, p0, t0);
    assert CountedAt(w, p0, t0);
    assert |InFlight(w, p0, t0)| > 0;
    RemovedCounts(PendingOf(w, p0), t0);
    forall p: Proc, t: int ensures CountedAt(w', p, t) {
      assert CountedAt(w, p, t);
      if p == p0 && t == t0 {
        assert InFlight(w', p, t) == InFlight(w, p, t) - {u};
      } else {
        assert InFlight(w', p, t) == InFlight(w, p, t);
      }
    }
  }

  lemma StepKeepsInv(w: World, e: Event)
    requires Inv(w) && Enabled(w, e)
    ensures Inv(Apply(w, e))
  {
    var w' := Apply(w, e);
    match e {
      case Enqueue(p, caller, time, full) =>
        if full { PendingKept(w, w'); } else { PendingGrows(w, w', w'.calls[|w.calls|]); }
      case Finish(u) => PendingShrinks(w, w', u);
      case Insert(u, recorded) => PendingKept(w, w');
      case Commit(u) => PendingKept(w, w');
      case Fail(u) => PendingKept(w, w');
      case Tick(now) => PendingKept(w, w');
    }
  }

  lemma {:induction false} RunKeepsInv(ws: seq<World>, es: seq<Event>, i: nat)
    requires IsRun(ws, es) && i < |ws|
    ensures Inv(ws[i])
  {
    if i == 0 {
      forall p: Proc, t: int ensures CountedAt(START, p, t) {
        assert InFlight(START, p, t) == {};
      }
    } else {
      RunKeepsInv(ws, es, i - 1);
      assert Next(ws[i - 1], es[i - 1], ws[i - 1 + 1]);
      StepKeepsInv(ws[i - 1], es[i - 1]);
    }
  }

  // ---- how a ledger can change later ----

  ghost predicate Evolves(s: Status, s': Status, unused: nat) {
    match s
    case Queued => s' == Queued || s' == Lost || ((s'.Inserting? || s'.Committed?) && s'.id >= unused)
    case Inserting(id, rec) => s' == s || s' == Committed(id, rec) || s' == Lost
    case Committed(_, _) => s' == s
    case Lost => s' == Lost
  }

  /** w' can only be what w becomes: calls keep their identity, visible rows stay, and new ids are fresh. */
  ghost predicate Later(w: World, w': World) {
    && w.clock <= w'.clock && w.nextId <= w'.nextId && |w.calls| <= |w'.calls|
    && (forall u :: 0 <= u < |w.calls| ==>
          var c, c' := w.calls[u], w'.calls[u];
          && c' == c.(status := c'.status, pending := c'.pending)
          && Evolves(c.status, c'.status, w.nextId)
          && (c'.pending ==> c.pending))
    && (forall u :: |w.calls| <= u < |w'.calls| ==>
          && w'.calls[u].enqueued >= w.clock
          && (w'.calls[u].HasId() ==> w'.calls[u].status.id >= w.nextId))
  }

  lemma StepIsLater(w: World, e: Event)
    requires Enabled(w, e)
    ensures Later(w, Apply(w, e))
  {
  }

  lemma LaterTransitive(a: World, b: World, c: World)
    requires Later(a, b) && Later(b, c)
    ensures Later(a, c)
  {
    forall u | 0 <= u < |a.calls|
      ensures Evolves(a.calls[u].status, c.calls[u].status, a.nextId) && (c.calls[u].pending ==> a.calls[u].pending)
    {
      assert Evolves(a.calls[u].status, b.calls[u].status, a.nextId);
      assert Evolves(b.calls[u].status, c.calls[u].status, b.nextId);
    }
    forall u | |a.calls| <= u < |c.calls|
      ensures c.calls[u].enqueued >= a.clock && (c.calls[u].HasId() ==> c.calls[u].status.id >= a.nextId)
    {
      if u < |b.calls| { assert Evolves(b.calls[u].status, c.calls[u].status, b.nextId); }
    }
  }

  lemma {:induction false} RunIsLater(ws: seq<World>, es: seq<Event>, i: nat, j: nat)
    requires IsRun(ws, es) && i <= j < |ws|
    ensures Later(ws[i], ws[j])
    decreases j
  {
    if i == j {
    } else {
      RunIsLater(ws, es, i, j - 1);
      assert Next(ws[j - 1], es[j - 1], ws[j - 1 + 1]);
      StepIsLater(ws[j - 1], es[j - 1]);
      LaterTransitive(ws[i], ws[j - 1], ws[j]);
    }
  }
}
