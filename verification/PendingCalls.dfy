/**
 The in-process side of the call ledger: the refcounted dictionary of call times that are still
 queued or being written, the bounded write queue, and the watermark read off them
 (host_store.py, `_pending_ts`, `_write_q`, `ledger_watermark`).
 */
module PendingCalls {
  import opened Common

  /** `_pending_ts`: call time -> number of jobs in flight with that call time. */
  type Pending = map<int, int>

  function Count(m: Pending, ts: int): int {
    if ts in m then m[ts] else 0
  }

  ghost predicate Positive(m: Pending) {
    forall t :: t in m ==> m[t] > 0
  }

  function Added(m: Pending, ts: int): Pending {
    m[ts := Count(m, ts) + 1]
  }

  function Removed(m: Pending, ts: int): Pending {
    if Count(m, ts) - 1 > 0 then m[ts := Count(m, ts) - 1] else m - {ts}
  }

  lemma AddedCounts(m: Pending, ts: int)
    requires Positive(m)
    ensures Positive(Added(m, ts))
    ensures forall t :: Count(Added(m, ts), t) == Count(m, t) + if t == ts then 1 else 0
  {
  }

  /** Removing one job lowers only its own count, and forgets the time exactly when nothing is left. */
  lemma RemovedCounts(m: Pending, ts: int)
    requires Positive(m) && ts in m
    ensures Positive(Removed(m, ts))
    ensures forall t :: Count(Removed(m, ts), t) == Count(m, t) - if t == ts then 1 else 0
  {
  }

  lemma RoundTrip(m: Pending, ts: int)
    requires Positive(m)
    ensures Removed(Added(m, ts), ts) == m
  {
    if ts in m {
      assert Removed(Added(m, ts), ts) == m[ts := m[ts]];
    }
  }

  /** Python `int(x)` on a float: truncation toward zero. */
  function Trunc(x: real): (n: int)
    ensures x >= 0.0 ==> n as real <= x < n as real + 1.0
    ensures x <= 0.0 ==> n as real - 1.0 < x <= n as real
  {
    if x >= 0.0 then x.Floor else -((-x).Floor)
  }

  /** `ledger_watermark(stamp)`: the lag behind the stamp, capped by the oldest call in flight. */
  ghost predicate IsWatermark(m: Pending, stamp: real, lag: real, mark: int) {
    && mark <= Trunc(stamp - lag)
    && (forall t :: t in m ==> mark <= t)
    && (mark == Trunc(stamp - lag) || mark in m)
  }

  /** Which determines the mark. */
  lemma WatermarkUnique(m: Pending, stamp: real, lag: real, a: int, b: int)
    requires IsWatermark(m, stamp, lag, a) && IsWatermark(m, stamp, lag, b)
    ensures a == b
  {
  }

  /** Python `min` of a non-empty dictionary's keys. */
  method Min(keys: set<int>) returns (least: int)
    requires keys != {}
    ensures least in keys && forall t :: t in keys ==> least <= t
  {
    ghost var some := Pick(keys);
    assert some in keys;
    least :| least in keys;
    var rest := keys - {least};
    while rest != {}
      invariant rest <= keys && least in keys
      invariant forall t :: t in keys && t !in rest ==> least <= t
      decreases rest
    {
      some := Pick(rest);
      assert some in rest;
      var t :| t in rest;
      rest := rest - {t};
      least := if t < least then t else least;
    }
  }

  datatype Job = Job(ts: Option<int>, fails: bool)

  /** Jobs of one writer that count towards a call time. */
  function JobsAt(jobs: seq<Job>, t: int): nat {
    if jobs == [] then 0
    else (if jobs[0].ts == Some(t) then 1 else 0) + JobsAt(jobs[1..], t)
  }

  lemma {:induction false} JobsAtAppend(jobs: seq<Job>, j: Job, t: int)
    ensures JobsAt(jobs + [j], t) == JobsAt(jobs, t) + if j.ts == Some(t) then 1 else 0
  {
    if jobs == [] {
      assert jobs + [j] == [j];
      assert JobsAt([j], t) == (if j.ts == Some(t) then 1 else 0) + JobsAt([], t);
    } else {
      JobsAtAppend(jobs[1..], j, t);
      assert (jobs + [j])[1..] == jobs[1..] + [j];
    }
  }

  /**
   One process: its writer queue and `_pending_ts`. `running` is the job its single writer thread took
   off the queue and has not finished; the ledger is incomplete at every call time of `InFlight()`.
   */
  class WriterProcess {
    const capacity: nat
    const lag: real
    var counts: Pending
    var queue: seq<Job>
    var running: Option<Job>

    ghost function InFlight(): seq<Job>
      reads this
    {
      (if running.Some? then [running.value] else []) + queue
    }

    ghost predicate Valid()
      reads this
    {
      && Positive(counts)
      && |queue| <= capacity
      && lag >= 0.0
      && forall t :: Count(counts, t) == JobsAt(InFlight(), t)
    }

    constructor (capacity: nat, lag: real)
      ensures Valid() && counts == map[] && queue == [] && running == None
      ensures this.capacity == capacity && this.lag == if lag < 0.0 then 0.0 else lag
    {
      this.capacity := capacity;
      this.lag := if lag < 0.0 then 0.0 else lag;
      counts := map[];
      queue := [];
      running := None;
    }

    method PendingAdd(ts: Option<int>)
      modifies this`counts
      ensures counts == if ts.Some? then Added(old(counts), ts.value) else old(counts)
    {
      if ts.Some? {
        counts := counts[ts.value := (if ts.value in counts then counts[ts.value] else 0) + 1];
      }
    }

    method PendingDone(ts: Option<int>)
      modifies this`counts
      ensures counts == if ts.Some? then Removed(old(counts), ts.value) else old(counts)
    {
      if ts.Some? {
        var left := (if ts.value in counts then counts[ts.value] else 0) - 1;
        if left > 0 {
          counts := counts[ts.value := left];
        } else {
          counts := counts - {ts.value};
        }
      }
    }

    /** Queue a job, or drop it when the queue is full; a dropped job leaves no trace in `_pending_ts`. */
    method Enqueue(job: Job) returns (accepted: bool)
      requires Valid()
      modifies this`counts, this`queue
      ensures Valid()
      ensures accepted == (|old(queue)| < capacity)
      ensures InFlight() == if accepted then old(InFlight()) + [job] else old(InFlight())
      ensures !accepted ==> counts == old(counts)
    {
      ghost var before := InFlight();
      ghost var was := counts;
      PendingAdd(job.ts);
      if job.ts.Some? { AddedCounts(was, job.ts.value); }
      if |queue| < capacity {
        queue := queue + [job];
        accepted := true;
        assert InFlight() == before + [job];
        forall t ensures Count(counts, t) == JobsAt(InFlight(), t) { JobsAtAppend(before, job, t); }
      } else {
        if job.ts.Some? { RemovedCounts(counts, job.ts.value); RoundTrip(was, job.ts.value); }
        PendingDone(job.ts);
        accepted := false;
      }
    }

    /** The writer thread takes the oldest job; nothing changes for the watermark. */
    method Take() returns (job: Job)
      requires Valid() && running == None && queue != []
      modifies this`queue, this`running
      ensures Valid() && running == Some(job) && job == old(queue)[0]
      ensures InFlight() == old(InFlight()) && counts == old(counts)
    {
      ghost var before := InFlight();
      job := queue[0];
      queue := queue[1..];
      running := Some(job);
      assert InFlight() == before;
    }

    /** The write returned (or failed: a bad row must not kill the writer): only now is the job forgotten. */
    method Finish()
      requires Valid() && running.Some?
      modifies this`counts, this`running
      ensures Valid() && running == None && queue == old(queue)
      ensures InFlight() == old(InFlight())[1..]
    {
      ghost var before := InFlight();
      var ts := running.value.ts;
      if ts.Some? {
        assert JobsAt(before, ts.value) >= 1;
        assert Count(counts, ts.value) >= 1;
        RemovedCounts(counts, ts.value);
      }
      PendingDone(ts);
      running := None;
      assert InFlight() == before[1..];
    }

    /** `ledger_watermark`: no call in flight is older than the mark. */
    method LedgerWatermark(stamp: real) returns (mark: int)
      requires Valid()
      ensures IsWatermark(counts, stamp, lag, mark)
      ensures forall j :: j in InFlight() && j.ts.Some? ==> mark <= j.ts.value
    {
      mark := Trunc(stamp - lag);
      if counts != map[] {
        var oldest := Min(counts.Keys);
        mark := if oldest < mark then oldest else mark;
      }
      forall j | j in InFlight() && j.ts.Some? ensures mark <= j.ts.value {
        JobsAtMember(InFlight(), j);
        assert Count(counts, j.ts.value) >= 1;
      }
    }
  }

  lemma {:induction false} JobsAtMember(jobs: seq<Job>, j: Job)
    requires j in jobs && j.ts.Some?
    ensures JobsAt(jobs, j.ts.value) >= 1
  {
    if jobs[0] != j {
      JobsAtMember(jobs[1..], j);
    }
  }
}
