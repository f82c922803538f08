/**
 The global per-consumer token bucket (host_store.py, `consume_rate_token`). Stamps come from the callers'
 clocks, so they may also go back between consecutive requests.
 */
module RateBucket {
  import opened Common

  /** One row of `consumer_rate_buckets`. */
  datatype Bucket = Bucket(tokens: real, updatedAt: real)

  datatype Verdict = Verdict(allowed: bool, retryAfter: real)

  function AtLeast1(x: int): int { if x < 1 then 1 else x }

  function Min(x: real, y: real): real { if x <= y then x else y }
  function Max(x: real, y: real): real { if x >= y then x else y }

  /** Tokens per second. */
  function Refill(ratePerMin: int): real { AtLeast1(ratePerMin) as real / 60.0 }

  /** The tokens that flow in between two stamps; none when the clock went back. */
  function Gain(refill: real, since: real, stamp: real): real { Max(0.0, stamp - since) * refill }

  /** The tokens there are when a request arrives, before it takes one. */
  function Level(b: Bucket, refill: real, burst: int, stamp: real): real {
    Min(AtLeast1(burst) as real, b.tokens + Gain(refill, b.updatedAt, stamp))
  }

  function After(b: Bucket, refill: real, burst: int, stamp: real): Bucket {
    var level := Level(b, refill, burst, stamp);
    Bucket(if level >= 1.0 then level - 1.0 else level, stamp)
  }

  function Fresh(burst: int, stamp: real): Bucket { Bucket(AtLeast1(burst) as real, stamp) }

  function BucketOf(rows: map<string, Bucket>, consumer: string, burst: int, stamp: real): Bucket {
    if consumer in rows then rows[consumer] else Fresh(burst, stamp)
  }

  /** What a denied caller is told to wait. */
  function RetryAfter(b: Bucket, ratePerMin: int): real { Max(0.01, (1.0 - b.tokens) / Refill(ratePerMin)) }

  class RateStore {
    var rows: map<string, Bucket>

    constructor ()
      ensures rows == map[]
    {
      rows := map[];
    }

    method Consume(consumer: string, ratePerMin: int, burst: int, stamp: real) returns (v: Verdict)
      modifies this
      ensures var b := BucketOf(old(rows), consumer, burst, stamp);
        && v.allowed == (Level(b, Refill(ratePerMin), burst, stamp) >= 1.0)
        && rows == old(rows)[consumer := After(b, Refill(ratePerMin), burst, stamp)]
        && v.retryAfter == if v.allowed then 0.0 else RetryAfter(rows[consumer], ratePerMin)
    {
      var rate := if ratePerMin < 1 then 1 else ratePerMin;
      var capacity := if burst < 1 then 1 else burst;
      var refillPerS := rate as real / 60.0;
      if consumer !in rows {
        rows := rows[consumer := Bucket(capacity as real, stamp)];
      }
      var row := rows[consumer];
      var tokens := Min(capacity as real, row.tokens + Gain(refillPerS, row.updatedAt, stamp));
      assert row == BucketOf(old(rows), consumer, burst, stamp) && refillPerS == Refill(ratePerMin);
      assert tokens == Level(row, Refill(ratePerMin), burst, stamp);
      var allowed := tokens >= 1.0;
      if allowed {
        tokens := tokens - 1.0;
      }
      rows := rows[consumer := Bucket(tokens, stamp)];
      v := Verdict(allowed, if allowed then 0.0 else Max(0.01, (1.0 - tokens) / refillPerS));
    }
  }

  // ---- consecutive requests of one consumer ----

  /** The bucket before request n of a run of requests with the given stamps. */
  function BucketAt(b: Bucket, refill: real, burst: int, stamps: seq<real>, n: nat): Bucket
    requires n <= |stamps|
  {
    if n == 0 then b else After(BucketAt(b, refill, burst, stamps, n - 1), refill, burst, stamps[n - 1])
  }

  predicate Admitted(b: Bucket, refill: real, burst: int, stamps: seq<real>, n: nat)
    requires n < |stamps|
  {
    Level(BucketAt(b, refill, burst, stamps, n), refill, burst, stamps[n]) >= 1.0
  }

  /** How many of the requests i, .., n - 1 are admitted. */
  function Admissions(b: Bucket, refill: real, burst: int, stamps: seq<real>, i: nat, n: nat): nat
    requires i <= n <= |stamps|
    decreases n
  {
    if i == n then 0 else
      Admissions(b, refill, burst, stamps, i, n - 1) + if Admitted(b, refill, burst, stamps, n - 1) then 1 else 0
  }

  /** The sum of the positive increments of the stamps from request i to request n. */
  function Forward(stamps: seq<real>, i: nat, n: nat): real
    requires i <= n < |stamps|
    decreases n
  {
    if i == n then 0.0 else Forward(stamps, i, n - 1) + Max(0.0, stamps[n] - stamps[n - 1])
  }

  /** The tokens that flow in from request i to request n. */
  function Inflow(refill: real, stamps: seq<real>, i: nat, n: nat): real
    requires i <= n < |stamps|
    decreases n
  {
    if i == n then 0.0 else Inflow(refill, stamps, i, n - 1) + Gain(refill, stamps[n - 1], stamps[n])
  }

  predicate InRange(b: Bucket, burst: int) { 0.0 <= b.tokens <= AtLeast1(burst) as real }

  lemma GainPositive(refill: real, since: real, stamp: real)
    requires refill > 0.0
    ensures Gain(refill, since, stamp) >= 0.0
  {
  }

  lemma {:induction false} TokensInRange(b: Bucket, refill: real, burst: int, stamps: seq<real>, n: nat)
    requires InRange(b, burst) && refill > 0.0 && n <= |stamps|
    ensures InRange(BucketAt(b, refill, burst, stamps, n), burst)
  {
    if n == 0 {
    } else {
      TokensInRange(b, refill, burst, stamps, n - 1);
      GainPositive(refill, BucketAt(b, refill, burst, stamps, n - 1).updatedAt, stamps[n - 1]);
    }
  }

  /** What request n may still take, measured from request i: a full bucket, refilled, minus what was admitted. */
  function Allowance(b: Bucket, refill: real, burst: int, stamps: seq<real>, i: nat, n: nat): real
    requires i <= n < |stamps|
  {
    AtLeast1(burst) as real + Inflow(refill, stamps, i, n) - Admissions(b, refill, burst, stamps, i, n) as real
  }

  /** One more request: it takes a token if it is admitted, and tokens flow in until the next one. */
  lemma AllowanceNext(b: Bucket, refill: real, burst: int, stamps: seq<real>, i: nat, n: nat)
    requires i < n < |stamps|
    ensures Allowance(b, refill, burst, stamps, i, n) == Allowance(b, refill, burst, stamps, i, n - 1)
      - (if Admitted(b, refill, burst, stamps, n - 1) then 1.0 else 0.0) + Gain(refill, stamps[n - 1], stamps[n])
  {
  }

  function LevelAt(b: Bucket, refill: real, burst: int, stamps: seq<real>, n: nat): real
    requires n < |stamps|
  {
    Level(BucketAt(b, refill, burst, stamps, n), refill, burst, stamps[n])
  }

  lemma LevelNext(b: Bucket, refill: real, burst: int, stamps: seq<real>, n: nat)
    requires 0 < n < |stamps|
    ensures LevelAt(b, refill, burst, stamps, n) == Min(AtLeast1(burst) as real,
      LevelAt(b, refill, burst, stamps, n - 1) - (if Admitted(b, refill, burst, stamps, n - 1) then 1.0 else 0.0)
      + Gain(refill, stamps[n - 1], stamps[n]))
  {
    assert BucketAt(b, refill, burst, stamps, n) ==
      After(BucketAt(b, refill, burst, stamps, n - 1), refill, burst, stamps[n - 1]);
  }

  /** The level before request n never exceeds the allowance of any earlier request. */
  lemma {:induction false} LevelWithinAllowance(b: Bucket, refill: real, burst: int, stamps: seq<real>, i: nat, n: nat)
    requires i <= n < |stamps|
    ensures LevelAt(b, refill, burst, stamps, n) <= Allowance(b, refill, burst, stamps, i, n)
    decreases n
  {
    if i == n {
    } else {
      LevelWithinAllowance(b, refill, burst, stamps, i, n - 1);
      AllowanceNext(b, refill, burst, stamps, i, n);
      LevelNext(b, refill, burst, stamps, n);
    }
  }

  /** The level of a bucket that was new at stamp 0 is the allowance of some request. */
  lemma {:induction false} LevelIsSomeAllowance(b: Bucket, refill: real, burst: int, stamps: seq<real>,
                                                n: nat) returns (i: nat)
    requires n < |stamps| && b == Fresh(burst, stamps[0])
    ensures i <= n && LevelAt(b, refill, burst, stamps, n) == Allowance(b, refill, burst, stamps, i, n)
    decreases n
  {
    if LevelAt(b, refill, burst, stamps, n) == AtLeast1(burst) as real {
      i := n;
    } else if n == 0 {
      FreshIsFull(refill, burst, stamps[0]);
      i := n;
    } else {
      i := LevelIsSomeAllowance(b, refill, burst, stamps, n - 1);
      AllowanceNext(b, refill, burst, stamps, i, n);
      LevelNext(b, refill, burst, stamps, n);
    }
  }

  lemma FreshIsFull(refill: real, burst: int, stamp: real)
    ensures Level(Fresh(burst, stamp), refill, burst, stamp) == AtLeast1(burst) as real
  {
  }

  /** Counting request n, the window that starts at request i stays within burst plus inflow. */
  predicate WindowFits(b: Bucket, refill: real, burst: int, stamps: seq<real>, i: nat, n: nat)
    requires i <= n < |stamps|
  {
    Admissions(b, refill, burst, stamps, i, n) as real + 1.0 <= AtLeast1(burst) as real + Inflow(refill, stamps, i, n)
  }

  /**
   The bucket is exactly the greedy enforcement of the window bound: it admits a request if and only if,
   counting it, every window of consecutive requests that ends with it stays within burst plus inflow.
   */
  lemma AdmittedIff(b: Bucket, refill: real, burst: int, stamps: seq<real>, n: nat)
    requires n < |stamps| && b == Fresh(burst, stamps[0])
    ensures Admitted(b, refill, burst, stamps, n) <==>
      forall i :: 0 <= i <= n ==> WindowFits(b, refill, burst, stamps, i, n)
  {
    forall i | 0 <= i <= n
      ensures LevelAt(b, refill, burst, stamps, n) >= 1.0 ==> WindowFits(b, refill, burst, stamps, i, n)
    {
      LevelWithinAllowance(b, refill, burst, stamps, i, n);
    }
    var i := LevelIsSomeAllowance(b, refill, burst, stamps, n);
    assert WindowFits(b, refill, burst, stamps, i, n) ==> LevelAt(b, refill, burst, stamps, n) >= 1.0;
  }

  /** Any window of consecutive requests, from any bucket, admits at most the burst plus the inflow. */
  lemma {:induction false} InflowBound(b: Bucket, refill: real, burst: int, stamps: seq<real>, i: nat, n: nat)
    requires i <= n < |stamps| && refill > 0.0
    ensures Admissions(b, refill, burst, stamps, i, n + 1) as real
      <= AtLeast1(burst) as real + Inflow(refill, stamps, i, n)
    decreases n
  {
    if Admitted(b, refill, burst, stamps, n) {
      LevelWithinAllowance(b, refill, burst, stamps, i, n);
    } else if i < n {
      InflowBound(b, refill, burst, stamps, i, n - 1);
      GainPositive(refill, stamps[n - 1], stamps[n]);
    } else {
      assert Admissions(b, refill, burst, stamps, i, n) == 0;
    }
  }

  lemma {:induction false} InflowIsForward(refill: real, stamps: seq<real>, i: nat, n: nat)
    requires i <= n < |stamps|
    ensures Inflow(refill, stamps, i, n) == Forward(stamps, i, n) * refill
    decreases n
  {
    if i == n {
    } else {
      InflowIsForward(refill, stamps, i, n - 1);
      Distribute(Forward(stamps, i, n - 1), Max(0.0, stamps[n] - stamps[n - 1]), refill);
    }
  }

  lemma Distribute(x: real, y: real, refill: real)
    ensures (x + y) * refill == x * refill + y * refill
  {
  }

  lemma {:induction false} InflowIsElapsed(refill: real, stamps: seq<real>, i: nat, n: nat)
    requires i <= n < |stamps| && forall k :: 0 <= k < |stamps| - 1 ==> stamps[k] <= stamps[k + 1]
    ensures Inflow(refill, stamps, i, n) == (stamps[n] - stamps[i]) * refill
    decreases n
  {
    if i == n {
    } else {
      InflowIsElapsed(refill, stamps, i, n - 1);
      assert stamps[n - 1] <= stamps[n - 1 + 1];
      Distribute(stamps[n - 1] - stamps[i], stamps[n] - stamps[n - 1], refill);
    }
  }

  /**
   `granted` admissions from request i to request n are within what operators expect: the burst, and the rate per
   minute times the time by which the consumer's clock went forward; a rate or burst below one counts as one.
   */
  predicate WithinQuota(granted: nat, ratePerMin: int, burst: int, stamps: seq<real>, i: nat, n: nat)
    requires i <= n < |stamps|
  {
    granted as real <= (if burst < 1 then 1 else burst) as real
                       + (if ratePerMin < 1 then 1 else ratePerMin) as real * Forward(stamps, i, n) / 60.0
  }

  lemma QuotaIsWindow(granted: nat, ratePerMin: int, burst: int, stamps: seq<real>, i: nat, n: nat)
    requires i <= n < |stamps|
    ensures WithinQuota(granted, ratePerMin, burst, stamps, i, n) <==>
      granted as real <= AtLeast1(burst) as real + Inflow(Refill(ratePerMin), stamps, i, n)
  {
    InflowIsForward(Refill(ratePerMin), stamps, i, n);
    Sixtieth((if ratePerMin < 1 then 1 else ratePerMin) as real, Forward(stamps, i, n));
  }

  lemma Sixtieth(rate: real, seconds: real)
    ensures rate * seconds / 60.0 == seconds * (rate / 60.0)
  {
    var x := rate / 60.0;
    assert rate == x * 60.0;
    assert rate * seconds == (x * seconds) * 60.0;
  }

  lemma RefillPositive(ratePerMin: int)
    ensures Refill(ratePerMin) > 0.0
  {
  }

  /** Admissions of any window are at most burst + rate/60 * sum of positive stamp increments. */
  lemma WindowBound(b: Bucket, ratePerMin: int, burst: int, stamps: seq<real>, i: nat, n: nat)
    requires i <= n < |stamps|
    ensures WithinQuota(Admissions(b, Refill(ratePerMin), burst, stamps, i, n + 1), ratePerMin, burst, stamps, i, n)
  {
    RefillPositive(ratePerMin);
    InflowBound(b, Refill(ratePerMin), burst, stamps, i, n);
    QuotaIsWindow(Admissions(b, Refill(ratePerMin), burst, stamps, i, n + 1), ratePerMin, burst, stamps, i, n);
  }

  lemma ElapsedBound(b: Bucket, refill: real, burst: int, stamps: seq<real>, i: nat, n: nat)
    requires i <= n < |stamps| && refill > 0.0
    requires forall k :: 0 <= k < |stamps| - 1 ==> stamps[k] <= stamps[k + 1]
    ensures Admissions(b, refill, burst, stamps, i, n + 1) as real
      <= AtLeast1(burst) as real + (stamps[n] - stamps[i]) * refill
  {
    InflowBound(b, refill, burst, stamps, i, n);
    InflowIsElapsed(refill, stamps, i, n);
  }

  /** A number of admissions within the burst and what flows in at the rate per minute during some seconds. */
  predicate WithinTime(granted: nat, ratePerMin: int, burst: int, seconds: real) {
    granted as real <= burst as real + ratePerMin as real * seconds / 60.0
  }

  lemma TimeAtRate(granted: nat, ratePerMin: int, burst: int, seconds: real)
    requires ratePerMin >= 1 && burst >= 1
    requires granted as real <= AtLeast1(burst) as real + seconds * Refill(ratePerMin)
    ensures WithinTime(granted, ratePerMin, burst, seconds)
  {
    Sixtieth(ratePerMin as real, seconds);
  }

  /** With stamps that never go back this is burst + rate/60 * elapsed time. */
  lemma WindowBoundByTime(b: Bucket, ratePerMin: int, burst: int, stamps: seq<real>, i: nat, n: nat)
    requires i <= n < |stamps| && ratePerMin >= 1 && burst >= 1
    requires forall k :: 0 <= k < |stamps| - 1 ==> stamps[k] <= stamps[k + 1]
    ensures WithinTime(Admissions(b, Refill(ratePerMin), burst, stamps, i, n + 1), ratePerMin, burst,
                       stamps[n] - stamps[i])
  {
    ElapsedBound(b, Refill(ratePerMin), burst, stamps, i, n);
    TimeAtRate(Admissions(b, Refill(ratePerMin), burst, stamps, i, n + 1), ratePerMin, burst, stamps[n] - stamps[i]);
  }

  /**
   After a denial a lone retry is admitted if and only if it comes once the missing part of a token has flowed in
   at the rate per minute. The time reported is just that, or a hundredth of a second if that is longer.
   */
  lemma RetryIff(b: Bucket, ratePerMin: int, burst: int, denied: real, retry: real)
    requires Level(b, Refill(ratePerMin), burst, denied) < 1.0 && ratePerMin >= 1 && denied <= retry
    ensures var b' := After(b, Refill(ratePerMin), burst, denied);
      var missing, wait := 1.0 - b'.tokens, RetryAfter(b', ratePerMin);
      && (Level(b', Refill(ratePerMin), burst, retry) >= 1.0 <==>
            ratePerMin as real * (retry - denied) >= 60.0 * missing)
      && ratePerMin as real * wait >= 60.0 * missing
      && (wait == 0.01 || (wait > 0.01 && ratePerMin as real * wait == 60.0 * missing))
  {
    var b' := After(b, Refill(ratePerMin), burst, denied);
    Sixtieth(ratePerMin as real, retry - denied);
    WaitFor(1.0 - b'.tokens, ratePerMin as real, RetryAfter(b', ratePerMin));
  }

  lemma WaitFor(missing: real, rate: real, wait: real)
    requires rate > 0.0
    ensures wait == missing / (rate / 60.0) ==> rate * wait == 60.0 * missing
    ensures wait >= missing / (rate / 60.0) ==> rate * wait >= 60.0 * missing
  {
    var x, due := rate / 60.0, missing / (rate / 60.0);
    assert due * x == missing && rate == x * 60.0;
    assert rate * due == 60.0 * (due * x);
    if wait >= due { assert rate * (wait - due) >= 0.0; }
  }

  /** So a lone request that waits out `retry_after` is admitted, whatever the rate. */
  lemma RetryAfterSuffices(b: Bucket, ratePerMin: int, burst: int, denied: real, retry: real)
    requires Level(b, Refill(ratePerMin), burst, denied) < 1.0
    requires retry >= denied + RetryAfter(After(b, Refill(ratePerMin), burst, denied), ratePerMin)
    ensures Level(After(b, Refill(ratePerMin), burst, denied), Refill(ratePerMin), burst, retry) >= 1.0
  {
    var refill, b' := Refill(ratePerMin), After(b, Refill(ratePerMin), burst, denied);
    GainCovers(refill, 1.0 - b'.tokens, denied, retry);
  }

  lemma GainCovers(refill: real, missing: real, since: real, stamp: real)
    requires refill > 0.0 && stamp - since >= missing / refill && stamp >= since
    ensures Gain(refill, since, stamp) >= missing
  {
    var wait, elapsed := missing / refill, stamp - since;
    assert wait * refill == missing;
    assert (elapsed - wait) * refill >= 0.0;
    assert elapsed * refill == wait * refill + (elapsed - wait) * refill;
  }

  // ---- all consumers on one store ----

  datatype Request = Request(consumer: string, ratePerMin: int, burst: int, stamp: real)

  /** The rows after one request, as `Consume` leaves them. */
  function Consumed(rows: map<string, Bucket>, r: Request): map<string, Bucket> {
    rows[r.consumer := After(BucketOf(rows, r.consumer, r.burst, r.stamp), Refill(r.ratePerMin), r.burst, r.stamp)]
  }

  function RowsAfter(rs: seq<Request>): map<string, Bucket> {
    if rs == [] then map[] else Consumed(RowsAfter(rs[..|rs| - 1]), rs[|rs| - 1])
  }

  /** Does the store admit request k. */
  predicate StoreAdmits(rs: seq<Request>, k: nat)
    requires k < |rs|
  {
    Level(BucketOf(RowsAfter(rs[..k]), rs[k].consumer, rs[k].burst, rs[k].stamp), Refill(rs[k].ratePerMin), rs[k].burst,
          rs[k].stamp) >= 1.0
  }

  /** The stamps of one consumer's requests. */
  function StampsOf(rs: seq<Request>, consumer: string): seq<real> {
    if rs == [] then [] else
      StampsOf(rs[..|rs| - 1], consumer) + if rs[|rs| - 1].consumer == consumer then [rs[|rs| - 1].stamp] else []
  }

  lemma StampsNext(rs: seq<Request>, consumer: string)
    requires rs != []
    ensures var before, last := StampsOf(rs[..|rs| - 1], consumer), rs[|rs| - 1];
      StampsOf(rs, consumer) == if last.consumer == consumer then before + [last.stamp] else before
  {
    assert StampsOf(rs[..|rs| - 1], consumer) + [] == StampsOf(rs[..|rs| - 1], consumer);
  }

  /** The consumer's rate and burst never change. */
  ghost predicate Fixed(rs: seq<Request>, consumer: string, ratePerMin: int, burst: int) {
    forall k :: 0 <= k < |rs| && rs[k].consumer == consumer ==> rs[k].ratePerMin == ratePerMin && rs[k].burst == burst
  }

  lemma {:induction false} BucketAtPrefix(b: Bucket, refill: real, burst: int, stamps: seq<real>, more: seq<real>,
                                          n: nat)
    requires n <= |stamps|
    ensures BucketAt(b, refill, burst, stamps + more, n) == BucketAt(b, refill, burst, stamps, n)
  {
    if n == 0 {
    } else {
      BucketAtPrefix(b, refill, burst, stamps, more, n - 1);
    }
  }

  lemma {:induction false} AdmissionsPrefix(b: Bucket, refill: real, burst: int, stamps: seq<real>, more: seq<real>,
                                            i: nat, n: nat)
    requires i <= n <= |stamps|
    ensures Admissions(b, refill, burst, stamps + more, i, n) == Admissions(b, refill, burst, stamps, i, n)
    decreases n
  {
    if i == n {
    } else {
      AdmissionsPrefix(b, refill, burst, stamps, more, i, n - 1);
      BucketAtPrefix(b, refill, burst, stamps, more, n - 1);
    }
  }

  /** The bucket a consumer would have if nobody else used the store. */
  function OwnBucket(stamps: seq<real>, refill: real, burst: int, n: nat): Bucket
    requires n <= |stamps| && stamps != []
  {
    BucketAt(Fresh(burst, stamps[0]), refill, burst, stamps, n)
  }

  /** A consumer's row depends on its own requests only. */
  lemma {:induction false} OwnRequestsOnly(rs: seq<Request>, consumer: string, ratePerMin: int, burst: int)
    requires Fixed(rs, consumer, ratePerMin, burst)
    ensures var stamps := StampsOf(rs, consumer);
      && (consumer in RowsAfter(rs) <==> stamps != [])
      && (stamps != [] ==> RowsAfter(rs)[consumer] == OwnBucket(stamps, Refill(ratePerMin), burst, |stamps|))
    decreases |rs|
  {
    if rs == [] {
    } else {
      var n := |rs| - 1;
      OwnRequestsOnly(rs[..n], consumer, ratePerMin, burst);
      StampsNext(rs, consumer);
      if rs[n].consumer == consumer {
        OwnNext(StampsOf(rs[..n], consumer), Refill(ratePerMin), burst, rs[n].stamp);
      }
    }
  }

  lemma OwnNext(stamps: seq<real>, refill: real, burst: int, stamp: real)
    ensures var b := if stamps == [] then Fresh(burst, stamp) else OwnBucket(stamps, refill, burst, |stamps|);
      && OwnBucket(stamps + [stamp], refill, burst, |stamps|) == b
      && OwnBucket(stamps + [stamp], refill, burst, |stamps| + 1) == After(b, refill, burst, stamp)
  {
    var longer := stamps + [stamp];
    if stamps != [] {
      BucketAtPrefix(Fresh(burst, stamps[0]), refill, burst, stamps, [stamp], |stamps|);
    }
    assert longer[|stamps|] == stamp;
  }

  /** How many of the consumer's requests the store admits from request `from` on. */
  function Granted(rs: seq<Request>, consumer: string, from: nat): nat
    requires from <= |rs|
    decreases |rs|
  {
    if |rs| == from then 0 else
      var n := |rs| - 1;
      Granted(rs[..n], consumer, from) + if rs[n].consumer == consumer && StoreAdmits(rs, n) then 1 else 0
  }

  /** The store admits the last request exactly if the consumer's own bucket would. */
  lemma OwnAdmission(rs: seq<Request>, consumer: string, ratePerMin: int, burst: int)
    requires Fixed(rs, consumer, ratePerMin, burst) && rs != [] && rs[|rs| - 1].consumer == consumer
    ensures var stamps := StampsOf(rs, consumer);
      && stamps != []
      && (StoreAdmits(rs, |rs| - 1)
          <==> Admitted(Fresh(burst, stamps[0]), Refill(ratePerMin), burst, stamps, |stamps| - 1))
  {
    var n := |rs| - 1;
    var before := StampsOf(rs[..n], consumer);
    StampsNext(rs, consumer);
    OwnRequestsOnly(rs[..n], consumer, ratePerMin, burst);
    OwnNext(before, Refill(ratePerMin), burst, rs[n].stamp);
  }

  lemma OneMoreAdmission(b: Bucket, refill: real, burst: int, stamps: seq<real>, stamp: real, i: nat)
    requires i <= |stamps|
    ensures Admissions(b, refill, burst, stamps + [stamp], i, |stamps| + 1)
      == Admissions(b, refill, burst, stamps, i, |stamps|)
         + if Admitted(b, refill, burst, stamps + [stamp], |stamps|) then 1 else 0
  {
    AdmissionsPrefix(b, refill, burst, stamps, [stamp], i, |stamps|);
  }

  lemma {:induction false} GrantedAreAdmissions(rs: seq<Request>, consumer: string, ratePerMin: int, burst: int,
                                                from: nat,
                                                stamps: seq<real>, i: nat)
    requires Fixed(rs, consumer, ratePerMin, burst) && from <= |rs|
    requires stamps == StampsOf(rs, consumer) != [] && i == |StampsOf(rs[..from], consumer)|
    ensures i <= |stamps|
    ensures Granted(rs, consumer, from)
      == Admissions(Fresh(burst, stamps[0]), Refill(ratePerMin), burst, stamps, i, |stamps|)
    decreases |rs|
  {
    if |rs| == from {
      assert rs[..from] == rs;
    } else {
      var n := |rs| - 1;
      var before := StampsOf(rs[..n], consumer);
      assert rs[..n][..from] == rs[..from];
      StampsNext(rs, consumer);
      if before == [] {
        NothingGranted(rs[..n], consumer, from);
        OwnAdmission(rs, consumer, ratePerMin, burst);
      } else {
        GrantedAreAdmissions(rs[..n], consumer, ratePerMin, burst, from, before, i);
        if rs[n].consumer == consumer {
          OwnAdmission(rs, consumer, ratePerMin, burst);
          OneMoreAdmission(Fresh(burst, before[0]), Refill(ratePerMin), burst, before, rs[n].stamp, i);
        }
      }
    }
  }

  lemma {:induction false} NothingGranted(rs: seq<Request>, consumer: string, from: nat)
    requires from <= |rs| && StampsOf(rs, consumer) == []
    ensures Granted(rs, consumer, from) == 0 && StampsOf(rs[..from], consumer) == []
    decreases |rs|
  {
    if |rs| == from {
      assert rs[..from] == rs;
    } else {
      var n := |rs| - 1;
      StampsNext(rs, consumer);
      NothingGranted(rs[..n], consumer, from);
      assert rs[..n][..from] == rs[..from];
    }
  }

  lemma {:induction false} OwnStampInside(rs: seq<Request>, consumer: string, from: nat)
    requires from < |rs| && rs[from].consumer == consumer
    ensures |StampsOf(rs[..from], consumer)| < |StampsOf(rs, consumer)|
    decreases |rs|
  {
    var n := |rs| - 1;
    StampsNext(rs, consumer);
    if from == n {
    } else {
      OwnStampInside(rs[..n], consumer, from);
      assert rs[..n][..from] == rs[..from];
    }
  }

  /**
   However other consumers' requests are interleaved: from any request of a consumer on, the store admits it at
   most burst + rate/60 * the sum of the positive increments of its own stamps.
   */
  lemma StoreWindowBound(rs: seq<Request>, consumer: string, ratePerMin: int, burst: int, from: nat,
                         stamps: seq<real>, i: nat)
    requires Fixed(rs, consumer, ratePerMin, burst) && from < |rs| && rs[from].consumer == consumer
    requires stamps == StampsOf(rs, consumer) && i == |StampsOf(rs[..from], consumer)|
    ensures i < |stamps|
    ensures WithinQuota(Granted(rs, consumer, from), ratePerMin, burst, stamps, i, |stamps| - 1)
  {
    OwnStampInside(rs, consumer, from);
    GrantedAreAdmissions(rs, consumer, ratePerMin, burst, from, stamps, i);
    WindowBound(Fresh(burst, stamps[0]), ratePerMin, burst, stamps, i, |stamps| - 1);
  }

  /** Request `from` of all is the i-th of the consumer. */
  ghost predicate IsPlace(rs: seq<Request>, consumer: string, from: nat, i: nat) {
    from < |rs| && rs[from].consumer == consumer && |StampsOf(rs[..from], consumer)| == i
  }

  lemma {:induction false} PlaceOf(rs: seq<Request>, consumer: string, i: nat) returns (from: nat)
    requires i < |StampsOf(rs, consumer)|
    ensures IsPlace(rs, consumer, from, i)
    decreases |rs|
  {
    var n := |rs| - 1;
    StampsNext(rs, consumer);
    if i < |StampsOf(rs[..n], consumer)| {
      from := PlaceOf(rs[..n], consumer, i);
      assert rs[..n][..from] == rs[..from];
    } else {
      from := n;
    }
  }

  /** The admissions before the last request, in the store's terms and in those of the consumer's own bucket. */
  lemma GrantedBeforeLast(rs: seq<Request>, consumer: string, ratePerMin: int, burst: int, from: nat,
                          stamps: seq<real>, i: nat)
    requires Fixed(rs, consumer, ratePerMin, burst) && from < |rs| && rs[from].consumer == consumer
    requires rs[|rs| - 1].consumer == consumer
    requires stamps == StampsOf(rs, consumer) && i == |StampsOf(rs[..from], consumer)|
    ensures i < |stamps|
    ensures Granted(rs[..|rs| - 1], consumer, from) ==
      Admissions(Fresh(burst, stamps[0]), Refill(ratePerMin), burst, stamps, i, |stamps| - 1)
  {
    var n := |rs| - 1;
    var before := StampsOf(rs[..n], consumer);
    StampsNext(rs, consumer);
    OwnStampInside(rs, consumer, from);
    assert rs[..n][..from] == rs[..from];
    if before == [] {
      NothingGranted(rs[..n], consumer, from);
    } else {
      GrantedAreAdmissions(rs[..n], consumer, ratePerMin, burst, from, before, i);
      AdmissionsPrefix(Fresh(burst, before[0]), Refill(ratePerMin), burst, before, [rs[n].stamp], i, |before|);
    }
  }

  /** Counting the last request, the consumer's admissions from its i-th request on, at `from`, are within the quota. */
  ghost predicate LastFits(rs: seq<Request>, consumer: string, ratePerMin: int, burst: int, from: nat, i: nat)
    requires rs != [] && from < |rs| && i < |StampsOf(rs, consumer)|
  {
    WithinQuota(Granted(rs[..|rs| - 1], consumer, from) + 1, ratePerMin, burst, StampsOf(rs, consumer), i,
                |StampsOf(rs, consumer)| - 1)
  }

  lemma LastFitsIff(rs: seq<Request>, consumer: string, ratePerMin: int, burst: int, from: nat, stamps: seq<real>,
                    i: nat)
    requires Fixed(rs, consumer, ratePerMin, burst) && IsPlace(rs, consumer, from, i)
    requires rs[|rs| - 1].consumer == consumer && stamps == StampsOf(rs, consumer)
    ensures i < |stamps|
    ensures LastFits(rs, consumer, ratePerMin, burst, from, i)
      <==> WindowFits(Fresh(burst, stamps[0]), Refill(ratePerMin), burst, stamps, i, |stamps| - 1)
  {
    GrantedBeforeLast(rs, consumer, ratePerMin, burst, from, stamps, i);
    QuotaIsWindow(Granted(rs[..|rs| - 1], consumer, from) + 1, ratePerMin, burst, stamps, i, |stamps| - 1);
  }

  /**
   The store is the greedy enforcement of that bound for every consumer: whatever the others do, it admits a
   request if and only if, counting it, every window of the consumer's own requests that ends with it is within
   the quota.
   */
  lemma StoreAdmitsIff(rs: seq<Request>, consumer: string, ratePerMin: int, burst: int)
    requires Fixed(rs, consumer, ratePerMin, burst) && rs != [] && rs[|rs| - 1].consumer == consumer
    ensures StoreAdmits(rs, |rs| - 1) <==>
      forall from: nat, i: nat :: IsPlace(rs, consumer, from, i) && i < |StampsOf(rs, consumer)| ==>
        LastFits(rs, consumer, ratePerMin, burst, from, i)
  {
    var stamps := StampsOf(rs, consumer);
    OwnAdmission(rs, consumer, ratePerMin, burst);
    var b, refill, m := Fresh(burst, stamps[0]), Refill(ratePerMin), |stamps| - 1;
    AdmittedIff(b, refill, burst, stamps, m);
    forall from: nat, i: nat | IsPlace(rs, consumer, from, i) && i < |stamps|
      ensures LastFits(rs, consumer, ratePerMin, burst, from, i) <==> WindowFits(b, refill, burst, stamps, i, m)
    {
      LastFitsIff(rs, consumer, ratePerMin, burst, from, stamps, i);
    }
    if i :| 0 <= i <= m && !WindowFits(b, refill, burst, stamps, i, m) {
      var from := PlaceOf(rs, consumer, i);
      assert !LastFits(rs, consumer, ratePerMin, burst, from, i);
    }
  }
}
