/**
 One proxied request after its budget reservation is granted (auth_proxy.py): the capacity semaphore with its
 short queue, and the paths on which `_finish` gives the permit back and submits the reservation for
 settlement. Requests interleave at every point where the code waits. The semaphore is a counter with a queue
 of waiters; a release hands its permit to the first waiter that has none, which takes it up when it resumes.
 */
module Lifecycle {
  import opened Common

  type Rid = nat

  datatype Phase =
    | Queued                 // waits for a permit
    | Handed                 // was handed a permit, has not resumed
    | Running                // holds a permit, the response is not a stream, or not yet
    | Streaming              // holds a permit, which the pump will give back
    | Ended
    | Leaked                 // the pump died before `_finish`

  /** A request; `settles`, `taken` and `given` are its trail: submitted costs, permits taken and given back. */
  datatype Req = Req(phase: Phase, amount: Option<real>, done: bool, capacityReleased: bool,
                     settles: seq<Option<real>>, taken: nat, given: nat)

  /** MAX_INFLIGHT_REQUESTS, 0 for no limit, and MAX_PENDING_REQUESTS. */
  datatype Limits = Limits(inflight: nat, pending: nat)

  datatype State = State(free: int, active: int, pending: int, waiters: seq<Rid>, reqs: map<Rid, Req>)

  datatype Event =
    | Arrive(rid: Rid, amount: Option<real>)                       // past the reservation, if there is one
    | Resume(rid: Rid)                                             // a waiter takes up the permit it was handed
    | GiveUp(rid: Rid)                                             // a waiter times out or is cancelled
    | Respond(rid: Rid, status: int, cost: Option<real>)           // the request ends without a stream, in whatever way
    | StartStream(rid: Rid)
    | PumpEnds(rid: Rid, status: int, cost: Option<real>)          // in whatever way, once the upstream is closed
    | PumpDies(rid: Rid)                                           // closing the upstream raises or is cancelled
    | FinishAgain(rid: Rid, status: int, cost: Option<real>)       // a further call of `_finish`

  function MaxZero(n: int): (m: int)
    ensures m >= 0 && m >= n && (m == 0 || m == n)
  {
    if n < 0 then 0 else n
  }

  /** `_settle_reservation`. */
  function Settled(q: Req, cost: Option<real>): Req {
    if q.amount.None? || q.done then q else q.(done := true, settles := q.settles + [cost])
  }

  /** A successful call of unknown cost books its reservation. */
  function CostOf(q: Req, status: int, cost: Option<real>): Option<real> {
    if cost.Some? || status >= 400 then cost else q.amount
  }

  /** Index of the first waiter without a permit. */
  function FirstQueued(waiters: seq<Rid>, reqs: map<Rid, Req>): (i: nat)
    ensures i <= |waiters|
    ensures i < |waiters| ==> waiters[i] in reqs && reqs[waiters[i]].phase == Queued
  {
    if waiters == [] || (waiters[0] in reqs && reqs[waiters[0]].phase == Queued) then 0
    else 1 + FirstQueued(waiters[1..], reqs)
  }

  predicate InLine(q: Req) { q.phase == Queued || q.phase == Handed }

  function Put(s: State, r: Rid, q: Req): State { s.(reqs := s.reqs[r := q]) }

  /** `_wake_up_next` of the semaphore. */
  function Woken(s: State): State {
    var i := FirstQueued(s.waiters, s.reqs);
    if i == |s.waiters| then s
    else Put(s.(free := s.free - 1), s.waiters[i], s.reqs[s.waiters[i]].(phase := Handed))
  }

  /** Wake as many as there are free permits. */
  function WokenAll(s: State): State
    decreases MaxZero(s.free)
  {
    if s.free <= 0 || FirstQueued(s.waiters, s.reqs) == |s.waiters| then s else WokenAll(Woken(s))
  }

  function LineWithout(waiters: seq<Rid>, r: Rid): seq<Rid> {
    if waiters == [] then [] else if waiters[0] == r then waiters[1..] else [waiters[0]] + LineWithout(waiters[1..], r)
  }

  /** `_capacity_release`. */
  function Released(l: Limits, s: State): State {
    var t := s.(active := MaxZero(s.active - 1));
    if l.inflight == 0 then t else Woken(t.(free := t.free + 1))
  }

  /** A request after `_finish`. */
  function EndedReq(q: Req, status: int, cost: Option<real>): Req {
    Settled(q.(capacityReleased := true, phase := Ended, given := q.given + 1), CostOf(q, status, cost))
  }

  /** `_finish`. */
  function Finished(l: Limits, s: State, r: Rid, status: int, cost: Option<real>): State
    requires r in s.reqs
  {
    if s.reqs[r].capacityReleased then s else Released(l, Put(s, r, EndedReq(s.reqs[r], status, cost)))
  }

  predicate Locked(s: State) { s.free == 0 || s.waiters != [] }

  function Fresh(amount: Option<real>): Req { Req(Queued, amount, false, false, [], 0, 0) }

  function Entered(s: State, r: Rid, q: Req): State {
    Put(s.(active := s.active + 1), r, q.(phase := Running, taken := q.taken + 1))
  }

  /** A waiter takes up its permit; others have not been woken yet. */
  function Resumed(s: State, r: Rid): State
    requires r in s.reqs
  {
    Entered(s.(waiters := LineWithout(s.waiters, r), pending := MaxZero(s.pending - 1)), r, s.reqs[r])
  }

  /** A waiter leaves and gives back what it was handed; others have not been woken yet. */
  function Left(s: State, r: Rid): State
    requires r in s.reqs
  {
    Put(s.(waiters := LineWithout(s.waiters, r), pending := MaxZero(s.pending - 1),
           free := if s.reqs[r].phase == Handed then s.free + 1 else s.free),
        r, Settled(s.reqs[r].(phase := Ended), None))
  }

  function Step(l: Limits, s: State, e: Event): State {
    match e
    case Arrive(r, amount) =>
      var q := Fresh(amount);
      if r in s.reqs then s
      else if l.inflight == 0 then Entered(s, r, q)
      else if !Locked(s) then Entered(s.(free := s.free - 1), r, q)
      else if s.pending >= l.pending then Put(s, r, Settled(q.(phase := Ended), None))
      else Put(s.(pending := s.pending + 1, waiters := s.waiters + [r]), r, q)
    case Resume(r) =>
      if r !in s.reqs || s.reqs[r].phase != Handed then s else WokenAll(Resumed(s, r))
    case GiveUp(r) =>
      if r !in s.reqs || !InLine(s.reqs[r]) then s else WokenAll(Left(s, r))
    case Respond(r, status, cost) =>
      if r !in s.reqs || s.reqs[r].phase != Running then s else Finished(l, s, r, status, cost)
    case StartStream(r) =>
      if r !in s.reqs || s.reqs[r].phase != Running then s else Put(s, r, s.reqs[r].(phase := Streaming))
    case PumpEnds(r, status, cost) =>
      if r !in s.reqs || s.reqs[r].phase != Streaming then s else Finished(l, s, r, status, cost)
    case PumpDies(r) =>
      if r !in s.reqs || s.reqs[r].phase != Streaming then s else Put(s, r, s.reqs[r].(phase := Leaked))
    case FinishAgain(r, status, cost) =>
      if r !in s.reqs || s.reqs[r].phase != Ended || s.reqs[r].taken == 0 then s else Finished(l, s, r, status, cost)
  }

  function Init(l: Limits): State { State(l.inflight, 0, 0, [], map[]) }

  /** A run: the states before, between and after some events. */
  ghost predicate IsRun(l: Limits, ws: seq<State>, es: seq<Event>) {
    && |ws| == |es| + 1
    && ws[0] == Init(l)
    && forall i {:trigger es[i]} :: 0 <= i < |es| ==> ws[i + 1] == Step(l, ws[i], es[i])
  }

  // ---- the invariant ----

  predicate Holds(q: Req) { q.phase == Running || q.phase == Streaming || q.phase == Leaked }

  ghost function Holding(reqs: map<Rid, Req>): set<Rid> {
    set r | r in reqs && Holds(reqs[r])
  }

  ghost function HandedOver(reqs: map<Rid, Req>): set<Rid> { set r | r in reqs && reqs[r].phase == Handed }

  ghost function Waiting(reqs: map<Rid, Req>): set<Rid> { set r | r in reqs && reqs[r].phase == Queued }

  /** The trail of one request fits its phase. */
  ghost predicate Exact(q: Req) {
    && (q.done <==> q.amount.Some? && q.phase == Ended)
    && |q.settles| == (if q.done then 1 else 0)
    && (q.capacityReleased <==> q.phase == Ended && q.taken == 1)
    && match q.phase
       case Queued => q.taken == 0 && q.given == 0
       case Handed => q.taken == 0 && q.given == 0
       case Ended => q.taken == q.given <= 1
       case _ => q.taken == 1 && q.given == 0
  }

  /** The counters count the requests, and every permit is free, handed over or held. */
  ghost predicate Counted(l: Limits, s: State) {
    && s.active == |Holding(s.reqs)|
    && s.pending == |Waiting(s.reqs)| + |HandedOver(s.reqs)|
    && (if l.inflight == 0 then s.waiters == []
        else s.free >= 0 && s.free + s.active + |HandedOver(s.reqs)| == l.inflight)
  }

  ghost predicate Queue(s: State) {
    && Distinct(s.waiters)
    && forall r :: r in s.waiters <==> r in s.reqs && InLine(s.reqs[r])
  }

  /** A permit is free while somebody waits only until a waiter that was handed one resumes. */
  ghost predicate NoneIdle(s: State) { s.free > 0 && HandedOver(s.reqs) == {} ==> Waiting(s.reqs) == {} }

  ghost predicate AllExact(s: State) { forall r :: r in s.reqs ==> Exact(s.reqs[r]) }

  ghost predicate Inv(l: Limits, s: State) {
    Counted(l, s) && Queue(s) && NoneIdle(s) && AllExact(s) && s.pending <= l.pending
  }

  // ---- small steps ----

  lemma CardRemove(a: set<Rid>, r: Rid)
    ensures |a - {r}| == if r in a then |a| - 1 else |a|
  {
    if r !in a { assert a - {r} == a; }
  }

  function One(b: bool): int { if b then 1 else 0 }

  /** How the counts change when one request changes. */
  lemma PutCounts(m: map<Rid, Req>, r: Rid, q: Req)
    ensures var m' := m[r := q];
      && |Holding(m')| == |Holding(m)| - One(r in m && Holds(m[r])) + One(Holds(q))
      && |HandedOver(m')| == |HandedOver(m)| - One(r in m && m[r].phase == Handed) + One(q.phase == Handed)
      && |Waiting(m')| == |Waiting(m)| - One(r in m && m[r].phase == Queued) + One(q.phase == Queued)
  {
    var m' := m[r := q];
    PutSet(Holding(m), Holding(m'), r, Holds(q));
    PutSet(HandedOver(m), HandedOver(m'), r, q.phase == Handed);
    PutSet(Waiting(m), Waiting(m'), r, q.phase == Queued);
  }

  lemma PutSet(a: set<Rid>, b: set<Rid>, r: Rid, now: bool)
    requires r in b <==> now
    requires forall x :: x != r ==> (x in a <==> x in b)
    ensures |b| == |a| - One(r in a) + One(now)
  {
    CardRemove(a, r);
    CardRemove(b, r);
    assert a - {r} == b - {r};
  }

  lemma HeadNotInTail(waiters: seq<Rid>)
    requires Distinct(waiters) && waiters != []
    ensures waiters[0] !in waiters[1..] && Distinct(waiters[1..])
  {
  }

  lemma {:induction false} LineWithoutIs(waiters: seq<Rid>, r: Rid)
    requires Distinct(waiters)
    ensures Distinct(LineWithout(waiters, r))
    ensures forall x :: x in LineWithout(waiters, r) <==> x in waiters && x != r
  {
    if waiters == [] {
    } else {
      HeadNotInTail(waiters);
      LineWithoutIs(waiters[1..], r);
      assert waiters == [waiters[0]] + waiters[1..];
    }
  }

  lemma PutQueue(s: State, r: Rid, q: Req)
    requires Queue(s) && r in s.reqs && InLine(s.reqs[r]) == InLine(q)
    ensures Queue(Put(s, r, q))
  {
  }

  lemma {:induction false} NoneBefore(waiters: seq<Rid>, reqs: map<Rid, Req>, r: Rid)
    requires FirstQueued(waiters, reqs) == |waiters| && r in waiters && r in reqs
    ensures reqs[r].phase != Queued
  {
    if waiters[0] != r { NoneBefore(waiters[1..], reqs, r); }
  }

  lemma NobodyWaits(s: State)
    requires Queue(s)
    ensures FirstQueued(s.waiters, s.reqs) == |s.waiters| <==> Waiting(s.reqs) == {}
  {
    var i := FirstQueued(s.waiters, s.reqs);
    if i < |s.waiters| {
      assert s.waiters[i] in Waiting(s.reqs);
    } else {
      forall r ensures r !in Waiting(s.reqs) {
        if r in s.waiters && r in s.reqs { NoneBefore(s.waiters, s.reqs, r); }
      }
    }
  }

  /** What a wake-up leaves alone. */
  ghost predicate SameButLine(s: State, t: State) {
    && t.active == s.active && t.pending == s.pending && t.waiters == s.waiters && t.reqs.Keys == s.reqs.Keys
    && forall r :: r in s.reqs && s.reqs[r].phase != Queued ==> t.reqs[r] == s.reqs[r]
  }

  ghost predicate Sound(l: Limits, s: State) { Counted(l, s) && Queue(s) && AllExact(s) }

  /** Handing a free permit over keeps every count. */
  lemma WakeOne(l: Limits, s: State)
    requires Sound(l, s) && s.free > 0 && Waiting(s.reqs) != {}
    ensures var t := Woken(s); Sound(l, t) && SameButLine(s, t) && t.free == s.free - 1
  {
    NobodyWaits(s);
    var r := s.waiters[FirstQueued(s.waiters, s.reqs)];
    var q := s.reqs[r].(phase := Handed);
    PutCounts(s.reqs, r, q);
    PutQueue(s, r, q);
  }

  lemma {:induction false} WakeAll(l: Limits, s: State)
    requires Sound(l, s)
    ensures var t := WokenAll(s); Sound(l, t) && SameButLine(s, t) && NoneIdle(t)
    decreases MaxZero(s.free)
  {
    NobodyWaits(s);
    if s.free > 0 && Waiting(s.reqs) != {} {
      WakeOne(l, s);
      WakeAll(l, Woken(s));
    }
  }

  // ---- every step keeps the invariant ----

  function PhaseIn(s: State, r: Rid): Option<Phase> { if r in s.reqs then Some(s.reqs[r].phase) else None }

  function Held(p: Option<Phase>): int { One(p == Some(Running) || p == Some(Streaming) || p == Some(Leaked)) }

  function Lined(p: Option<Phase>): int { One(p == Some(Queued) || p == Some(Handed)) }

  /** One request changes, and the counters with it. */
  lemma SoundAfter(l: Limits, s: State, t: State, r: Rid, q: Req)
    requires Sound(l, s) && t.reqs == s.reqs[r := q] && Exact(q) && Queue(t)
    requires t.active == s.active - Held(PhaseIn(s, r)) + Held(Some(q.phase))
    requires t.pending == s.pending - Lined(PhaseIn(s, r)) + Lined(Some(q.phase))
    requires l.inflight == 0 ==> t.waiters == []
    requires l.inflight > 0 ==> t.free >= 0
    requires l.inflight > 0 ==>
      t.free + t.active + One(q.phase == Handed) == s.free + s.active + One(PhaseIn(s, r) == Some(Handed))
    ensures Sound(l, t)
  {
    PutCounts(s.reqs, r, q);
  }

  /** A request that neither was nor is in line does not bear on who waits. */
  lemma NoneIdleAfter(s: State, t: State, r: Rid, q: Req)
    requires NoneIdle(s) && t.reqs == s.reqs[r := q] && Lined(PhaseIn(s, r)) == 0 == Lined(Some(q.phase))
    requires t.free <= s.free
    ensures NoneIdle(t)
  {
    assert HandedOver(t.reqs) == HandedOver(s.reqs) && Waiting(t.reqs) == Waiting(s.reqs);
  }

  lemma SameQueue(s: State, t: State, r: Rid, q: Req)
    requires Queue(s) && t.reqs == s.reqs[r := q] && t.waiters == s.waiters
    requires Lined(PhaseIn(s, r)) == Lined(Some(q.phase))
    ensures Queue(t)
  {
  }

  lemma LongerQueue(s: State, t: State, r: Rid, q: Req)
    requires Queue(s) && t.reqs == s.reqs[r := q] && r !in s.reqs && t.waiters == s.waiters + [r] && q.phase == Queued
    ensures Queue(t)
  {
    assert r !in s.waiters;
  }

  lemma EnterKeeps(l: Limits, s: State, r: Rid, amount: Option<real>)
    requires Inv(l, s) && r !in s.reqs && (l.inflight == 0 || !Locked(s))
    ensures Inv(l, Step(l, s, Arrive(r, amount)))
  {
    var q := Fresh(amount).(phase := Running, taken := 1);
    var t := Step(l, s, Arrive(r, amount));
    SameQueue(s, t, r, q);
    SoundAfter(l, s, t, r, q);
    NoneIdleAfter(s, t, r, q);
  }

  lemma ShedKeeps(l: Limits, s: State, r: Rid, amount: Option<real>)
    requires Inv(l, s) && r !in s.reqs && l.inflight > 0 && Locked(s) && s.pending >= l.pending
    ensures Inv(l, Step(l, s, Arrive(r, amount)))
  {
    var q := Settled(Fresh(amount).(phase := Ended), None);
    var t := Step(l, s, Arrive(r, amount));
    SameQueue(s, t, r, q);
    SoundAfter(l, s, t, r, q);
    NoneIdleAfter(s, t, r, q);
  }

  lemma QueueKeeps(l: Limits, s: State, r: Rid, amount: Option<real>)
    requires Inv(l, s) && r !in s.reqs && l.inflight > 0 && Locked(s) && s.pending < l.pending
    ensures Inv(l, Step(l, s, Arrive(r, amount)))
  {
    var q := Fresh(amount);
    var t := Step(l, s, Arrive(r, amount));
    LongerQueue(s, t, r, q);
    SoundAfter(l, s, t, r, q);
    assert HandedOver(t.reqs) == HandedOver(s.reqs);
    if s.free > 0 { LineOfWaiters(s); }
  }

  /** Whoever is in line and was handed nothing waits. */
  lemma LineOfWaiters(s: State)
    requires Queue(s) && s.waiters != []
    ensures HandedOver(s.reqs) != {} || Waiting(s.reqs) != {}
  {
    var r := s.waiters[0];
    assert r in s.waiters;
    assert r in HandedOver(s.reqs) || r in Waiting(s.reqs);
  }

  /** A request leaves the line. */
  lemma ShorterQueue(s: State, t: State, r: Rid, q: Req)
    requires Queue(s) && t.reqs == s.reqs[r := q] && r in s.reqs && t.waiters == LineWithout(s.waiters, r) && !InLine(q)
    ensures Queue(t)
  {
    LineWithoutIs(s.waiters, r);
  }

  lemma InLineMeansLimit(l: Limits, s: State, r: Rid)
    requires Inv(l, s) && r in s.reqs && InLine(s.reqs[r])
    ensures l.inflight > 0 && r in s.waiters && s.pending > 0
  {
    assert r in s.waiters;
    assert r in Waiting(s.reqs) || r in HandedOver(s.reqs);
  }

  lemma EndedExact(q: Req, status: int, cost: Option<real>)
    requires Exact(q)
    ensures InLine(q) ==> Exact(Settled(q.(phase := Ended), None))
    ensures q.phase == Handed ==> Exact(q.(phase := Running, taken := q.taken + 1))
    ensures q.phase == Running || q.phase == Streaming ==>
      Exact(EndedReq(q, status, cost)) && EndedReq(q, status, cost).phase == Ended
  {
  }

  lemma LeftSound(l: Limits, s: State, r: Rid)
    requires Inv(l, s) && r in s.reqs && InLine(s.reqs[r])
    ensures Sound(l, Left(s, r)) && Left(s, r).pending == s.pending - 1
  {
    InLineMeansLimit(l, s, r);
    assert Exact(s.reqs[r]);
    EndedExact(s.reqs[r], 0, None);
    var q := Settled(s.reqs[r].(phase := Ended), None);
    ShorterQueue(s, Left(s, r), r, q);
    SoundAfter(l, s, Left(s, r), r, q);
  }

  lemma ResumedSound(l: Limits, s: State, r: Rid)
    requires Inv(l, s) && r in s.reqs && s.reqs[r].phase == Handed
    ensures Sound(l, Resumed(s, r)) && Resumed(s, r).pending == s.pending - 1
  {
    InLineMeansLimit(l, s, r);
    assert Exact(s.reqs[r]);
    EndedExact(s.reqs[r], 0, None);
    var q := s.reqs[r].(phase := Running, taken := s.reqs[r].taken + 1);
    ShorterQueue(s, Resumed(s, r), r, q);
    SoundAfter(l, s, Resumed(s, r), r, q);
  }

  lemma WokenInv(l: Limits, t: State)
    requires Sound(l, t) && t.pending <= l.pending
    ensures Inv(l, WokenAll(t))
  {
    WakeAll(l, t);
  }

  lemma HolderCounts(l: Limits, s: State, r: Rid)
    requires Counted(l, s) && r in s.reqs && Holds(s.reqs[r])
    ensures s.active > 0
  {
    assert r in Holding(s.reqs);
  }

  lemma WokenIsHanded(s: State)
    requires FirstQueued(s.waiters, s.reqs) < |s.waiters|
    ensures HandedOver(Woken(s).reqs) != {}
  {
    assert s.waiters[FirstQueued(s.waiters, s.reqs)] in HandedOver(Woken(s).reqs);
  }

  /** A permit that comes free goes to the first waiter. */
  lemma ReleaseKeeps(l: Limits, t: State)
    requires Sound(l, t) && t.pending <= l.pending && (l.inflight > 0 ==> t.free > 0)
    ensures l.inflight > 0 ==> Inv(l, Woken(t))
    ensures l.inflight == 0 ==> Inv(l, t)
  {
    NobodyWaits(t);
    if l.inflight > 0 && Waiting(t.reqs) != {} {
      WakeOne(l, t);
      WokenIsHanded(t);
    }
  }

  /** The state as `_finish` has settled and counted down, with the permit free again. */
  function Freed(l: Limits, s: State, r: Rid, q: Req): State {
    Put(s.(active := s.active - 1, free := if l.inflight > 0 then s.free + 1 else s.free), r, q)
  }

  lemma FreedSound(l: Limits, s: State, r: Rid, q: Req)
    requires Inv(l, s) && r in s.reqs && (s.reqs[r].phase == Running || s.reqs[r].phase == Streaming)
    requires q.phase == Ended && Exact(q)
    ensures Sound(l, Freed(l, s, r, q))
  {
    SameQueue(s, Freed(l, s, r, q), r, q);
    SoundAfter(l, s, Freed(l, s, r, q), r, q);
  }

  lemma FinishedIs(l: Limits, s: State, r: Rid, status: int, cost: Option<real>)
    requires r in s.reqs && !s.reqs[r].capacityReleased && s.active > 0
    ensures var t := Freed(l, s, r, EndedReq(s.reqs[r], status, cost));
      Finished(l, s, r, status, cost) == if l.inflight == 0 then t else Woken(t)
  {
  }

  lemma FinishKeeps(l: Limits, s: State, r: Rid, status: int, cost: Option<real>)
    requires Inv(l, s) && r in s.reqs && (s.reqs[r].phase == Running || s.reqs[r].phase == Streaming)
    ensures Inv(l, Finished(l, s, r, status, cost))
  {
    HolderCounts(l, s, r);
    assert Exact(s.reqs[r]);
    EndedExact(s.reqs[r], status, cost);
    FreedSound(l, s, r, EndedReq(s.reqs[r], status, cost));
    FinishedIs(l, s, r, status, cost);
    ReleaseKeeps(l, Freed(l, s, r, EndedReq(s.reqs[r], status, cost)));
  }

  lemma PhaseKeeps(l: Limits, s: State, r: Rid, phase: Phase)
    requires Inv(l, s) && r in s.reqs && Holds(s.reqs[r]) && (phase == Streaming || phase == Leaked)
    ensures Inv(l, Put(s, r, s.reqs[r].(phase := phase)))
  {
    var q := s.reqs[r].(phase := phase);
    assert Exact(s.reqs[r]);
    SameQueue(s, Put(s, r, q), r, q);
    SoundAfter(l, s, Put(s, r, q), r, q);
    NoneIdleAfter(s, Put(s, r, q), r, q);
  }

  lemma StepKeepsInv(l: Limits, s: State, e: Event)
    requires Inv(l, s)
    ensures Inv(l, Step(l, s, e))
  {
    match e {
      case Arrive(r, amount) =>
        if r !in s.reqs {
          if l.inflight == 0 || !Locked(s) { EnterKeeps(l, s, r, amount); }
          else if s.pending >= l.pending { ShedKeeps(l, s, r, amount); }
          else { QueueKeeps(l, s, r, amount); }
        }
      case Resume(r) =>
        if r in s.reqs && s.reqs[r].phase == Handed {
          ResumedSound(l, s, r);
          WokenInv(l, Resumed(s, r));
        }
      case GiveUp(r) =>
        if r in s.reqs && InLine(s.reqs[r]) {
          LeftSound(l, s, r);
          WokenInv(l, Left(s, r));
        }
      case Respond(r, status, cost) =>
        if r in s.reqs && s.reqs[r].phase == Running { FinishKeeps(l, s, r, status, cost); }
      case StartStream(r) => if r in s.reqs && s.reqs[r].phase == Running { PhaseKeeps(l, s, r, Streaming); }
      case PumpEnds(r, status, cost) =>
        if r in s.reqs && s.reqs[r].phase == Streaming { FinishKeeps(l, s, r, status, cost); }
      case PumpDies(r) => if r in s.reqs && s.reqs[r].phase == Streaming { PhaseKeeps(l, s, r, Leaked); }
      case FinishAgain(r, status, cost) =>
    }
  }

  /**
   In every state of every run: active + free + handed-over permits make up the limit, pending is within its
   bound, and each request's trail is exact: the permit is taken at most once and given back once when the
   request ends, and a reservation is submitted once, when the request ends.
   */
  lemma {:induction false} RunKeepsInv(l: Limits, ws: seq<State>, es: seq<Event>, i: nat)
    requires IsRun(l, ws, es) && i < |ws|
    ensures Inv(l, ws[i])
  {
    if i == 0 {
      assert Holding(map[]) == {} && HandedOver(map[]) == {} && Waiting(map[]) == {};
    } else {
      RunKeepsInv(l, ws, es, i - 1);
      assert ws[i - 1 + 1] == Step(l, ws[i - 1], es[i - 1]);
      StepKeepsInv(l, ws[i - 1], es[i - 1]);
    }
  }

  // ---- what follows for one request, and for all ----

  /** The permit is given back exactly once and the reservation submitted exactly once, at the end, not before. */
  lemma ExactlyOnce(l: Limits, ws: seq<State>, es: seq<Event>, i: nat, r: Rid)
    requires IsRun(l, ws, es) && i < |ws| && r in ws[i].reqs
    ensures var q := ws[i].reqs[r];
      && q.taken <= 1 && q.given == (if q.phase == Ended then q.taken else 0)
      && |q.settles| == (if q.phase == Ended && q.amount.Some? then 1 else 0)
  {
    RunKeepsInv(l, ws, es, i);
    assert Exact(ws[i].reqs[r]);
  }

  /** Whenever a counter is decremented it is positive, so its `max(0, ...)` changes nothing. */
  lemma ClampsNeverFire(l: Limits, ws: seq<State>, es: seq<Event>, i: nat, r: Rid)
    requires IsRun(l, ws, es) && i < |ws| && r in ws[i].reqs
    ensures InLine(ws[i].reqs[r]) ==> ws[i].pending > 0
    ensures ws[i].reqs[r].phase == Running || ws[i].reqs[r].phase == Streaming ==> ws[i].active > 0
  {
    RunKeepsInv(l, ws, es, i);
    if InLine(ws[i].reqs[r]) { InLineMeansLimit(l, ws[i], r); }
    if Holds(ws[i].reqs[r]) { HolderCounts(l, ws[i], r); }
  }

  /** Every permit is free, handed over or held, and nobody waits for an idle one. */
  lemma PermitsConserved(l: Limits, ws: seq<State>, es: seq<Event>, i: nat)
    requires IsRun(l, ws, es) && i < |ws|
    ensures var s := ws[i];
      && s.active == |Holding(s.reqs)| && s.pending == |Waiting(s.reqs)| + |HandedOver(s.reqs)| <= l.pending
      && (l.inflight > 0 ==> s.active + s.free + |HandedOver(s.reqs)| == l.inflight)
      && (s.free > 0 && HandedOver(s.reqs) == {} ==> Waiting(s.reqs) == {})
  {
    RunKeepsInv(l, ws, es, i);
  }

  /** Once every request has ended, everything is as at the start. */
  lemma AllEndedAllFree(l: Limits, ws: seq<State>, es: seq<Event>, i: nat)
    requires IsRun(l, ws, es) && i < |ws|
    requires forall r :: r in ws[i].reqs ==> ws[i].reqs[r].phase == Ended
    ensures ws[i].active == 0 && ws[i].pending == 0 && ws[i].waiters == [] && ws[i].free == l.inflight
  {
    RunKeepsInv(l, ws, es, i);
    var s := ws[i];
    assert Holding(s.reqs) == {} && HandedOver(s.reqs) == {} && Waiting(s.reqs) == {};
    if s.waiters != [] { LineOfWaiters(s); }
    if l.inflight == 0 { UnlimitedFree(l, ws, es, i); }
  }

  lemma {:induction false} UnlimitedFree(l: Limits, ws: seq<State>, es: seq<Event>, i: nat)
    requires IsRun(l, ws, es) && i < |ws| && l.inflight == 0
    ensures ws[i].free == 0
  {
    if i == 0 {
    } else {
      UnlimitedFree(l, ws, es, i - 1);
      RunKeepsInv(l, ws, es, i - 1);
      assert ws[i - 1 + 1] == Step(l, ws[i - 1], es[i - 1]);
      UnlimitedStep(l, ws[i - 1], es[i - 1]);
    }
  }

  lemma UnlimitedStep(l: Limits, s: State, e: Event)
    requires Inv(l, s) && l.inflight == 0 && s.free == 0
    ensures Step(l, s, e).free == 0
  {
    if e.GiveUp? && e.rid in s.reqs && InLine(s.reqs[e.rid]) { InLineMeansLimit(l, s, e.rid); }
  }

  /** Waking leaves everyone but the waiters alone. */
  lemma {:induction false} WokenOthers(s: State, r: Rid)
    requires r in s.reqs && s.reqs[r].phase != Queued
    ensures r in WokenAll(s).reqs && WokenAll(s).reqs[r] == s.reqs[r]
    ensures r in Woken(s).reqs && Woken(s).reqs[r] == s.reqs[r]
    decreases MaxZero(s.free)
  {
    if s.free > 0 && FirstQueued(s.waiters, s.reqs) < |s.waiters| { WokenOthers(Woken(s), r); }
  }

  lemma FinishedReq(l: Limits, s: State, r: Rid, status: int, cost: Option<real>)
    requires r in s.reqs && !s.reqs[r].capacityReleased && s.active > 0
    ensures r in Finished(l, s, r, status, cost).reqs
    ensures Finished(l, s, r, status, cost).reqs[r] == EndedReq(s.reqs[r], status, cost)
  {
    FinishedIs(l, s, r, status, cost);
    WokenOthers(Freed(l, s, r, EndedReq(s.reqs[r], status, cost)), r);
  }

  lemma LiveRequest(l: Limits, s: State, r: Rid)
    requires Inv(l, s) && r in s.reqs && (s.reqs[r].phase == Running || s.reqs[r].phase == Streaming)
    ensures s.active > 0 && !s.reqs[r].capacityReleased && !s.reqs[r].done && s.reqs[r].settles == []
    ensures s.reqs[r].given == 0
  {
    assert Exact(s.reqs[r]);
    HolderCounts(l, s, r);
  }

  /** A request that ends by itself gives its permit back and books what it cost; a success never books nothing. */
  lemma EndBooks(l: Limits, ws: seq<State>, es: seq<Event>, i: nat, status: int, cost: Option<real>)
    requires IsRun(l, ws, es) && i < |es|
    requires es[i] == PumpEnds(es[i].rid, status, cost) || es[i] == Respond(es[i].rid, status, cost)
    requires es[i].rid in ws[i].reqs && ws[i].reqs[es[i].rid].phase == if es[i].PumpEnds? then Streaming else Running
    ensures es[i].rid in ws[i + 1].reqs
    ensures var q, q' := ws[i].reqs[es[i].rid], ws[i + 1].reqs[es[i].rid];
      && q'.phase == Ended && q'.given == 1
      && q'.settles == (if q.amount.None? then [] else [if cost.Some? || status >= 400 then cost else q.amount])
  {
    RunKeepsInv(l, ws, es, i);
    LiveRequest(l, ws[i], es[i].rid);
    FinishedReq(l, ws[i], es[i].rid, status, cost);
  }

  // ---- first come, first served ----

  ghost predicate Ahead(waiters: seq<Rid>, a: Rid, b: Rid) {
    exists i, j :: 0 <= i < j < |waiters| && waiters[i] == a && waiters[j] == b
  }

  predicate PhaseIs(s: State, r: Rid, phase: Phase) { r in s.reqs && s.reqs[r].phase == phase }

  /** The first queued waiter is ahead of every other queued one. */
  lemma {:induction false} NobodyBefore(waiters: seq<Rid>, reqs: map<Rid, Req>, a: Rid, b: Rid)
    requires Ahead(waiters, a, b) && a in reqs && reqs[a].phase == Queued && Distinct(waiters)
    ensures var i := FirstQueued(waiters, reqs); i < |waiters| && waiters[i] != b
  {
    var i, j :| 0 <= i < j < |waiters| && waiters[i] == a && waiters[j] == b;
    if i > 0 && !(waiters[0] in reqs && reqs[waiters[0]].phase == Queued) {
      assert waiters[1..][i - 1] == a && waiters[1..][j - 1] == b;
      assert Ahead(waiters[1..], a, b);
      NobodyBefore(waiters[1..], reqs, a, b);
    }
  }

  lemma {:induction false} WakingIsFair(s: State, a: Rid, b: Rid)
    requires Distinct(s.waiters) && Ahead(s.waiters, a, b) && PhaseIs(s, a, Queued) && PhaseIs(s, b, Queued)
    ensures PhaseIs(Woken(s), a, Queued) ==> PhaseIs(Woken(s), b, Queued)
    ensures PhaseIs(WokenAll(s), a, Queued) ==> PhaseIs(WokenAll(s), b, Queued)
    ensures Woken(s).waiters == s.waiters == WokenAll(s).waiters
    decreases MaxZero(s.free)
  {
    NobodyBefore(s.waiters, s.reqs, a, b);
    WakingKeepsLine(s);
    if s.free > 0 && FirstQueued(s.waiters, s.reqs) < |s.waiters| {
      if PhaseIs(Woken(s), a, Queued) {
        WakingIsFair(Woken(s), a, b);
      } else {
        WokenOthers(Woken(s), a);
      }
    }
  }

  lemma {:induction false} WakingKeepsLine(s: State)
    ensures Woken(s).waiters == s.waiters == WokenAll(s).waiters
    decreases MaxZero(s.free)
  {
    if s.free > 0 && FirstQueued(s.waiters, s.reqs) < |s.waiters| { WakingKeepsLine(Woken(s)); }
  }

  lemma {:induction false} LineKeepsOrder(waiters: seq<Rid>, r: Rid, a: Rid, b: Rid)
    requires Distinct(waiters) && Ahead(waiters, a, b) && r != a && r != b
    ensures Ahead(LineWithout(waiters, r), a, b)
  {
    var i, j :| 0 <= i < j < |waiters| && waiters[i] == a && waiters[j] == b;
    var rest := LineWithout(waiters, r);
    if waiters[0] == r {
      assert rest[i - 1] == a && rest[j - 1] == b;
    } else if i == 0 {
      HeadNotInTail(waiters);
      LineWithoutIs(waiters[1..], r);
      assert waiters[1..][j - 1] == b && b in waiters[1..];
      assert b in LineWithout(waiters[1..], r);
      var k :| 0 <= k < |LineWithout(waiters[1..], r)| && LineWithout(waiters[1..], r)[k] == b;
      assert rest[0] == a && rest[k + 1] == b;
    } else {
      assert waiters[1..][i - 1] == a && waiters[1..][j - 1] == b;
      assert Ahead(waiters[1..], a, b);
      LineKeepsOrder(waiters[1..], r, a, b);
      assert Ahead(LineWithout(waiters[1..], r), a, b);
      var k, m :| 0 <= k < m < |LineWithout(waiters[1..], r)|
        && LineWithout(waiters[1..], r)[k] == a && LineWithout(waiters[1..], r)[m] == b;
      assert rest[k + 1] == a && rest[m + 1] == b;
    }
  }

  /** Both wait, a ahead of b. */
  ghost predicate WaitsBehind(s: State, a: Rid, b: Rid) {
    PhaseIs(s, a, Queued) && PhaseIs(s, b, Queued) && Ahead(s.waiters, a, b)
  }

  lemma FinishIsFair(l: Limits, s: State, r: Rid, status: int, cost: Option<real>, a: Rid, b: Rid)
    requires Inv(l, s) && WaitsBehind(s, a, b) && r in s.reqs && !InLine(s.reqs[r])
    ensures var t := Finished(l, s, r, status, cost); PhaseIs(t, a, Queued) ==> WaitsBehind(t, a, b)
  {
    var freed := Put(s.(active := MaxZero(s.active - 1)), r, EndedReq(s.reqs[r], status, cost));
    WakingIsFair(freed.(free := freed.free + 1), a, b);
  }

  lemma LineIsFair(s: State, u: State, r: Rid, q: Req, a: Rid, b: Rid)
    requires Distinct(s.waiters) && WaitsBehind(s, a, b) && r != a && r != b
    requires u.reqs == s.reqs[r := q] && u.waiters == LineWithout(s.waiters, r)
    ensures PhaseIs(WokenAll(u), a, Queued) ==> WaitsBehind(WokenAll(u), a, b)
  {
    LineWithoutIs(s.waiters, r);
    LineKeepsOrder(s.waiters, r, a, b);
    WakingIsFair(u, a, b);
  }

  lemma ResumeIsFair(l: Limits, s: State, r: Rid, a: Rid, b: Rid)
    requires Inv(l, s) && WaitsBehind(s, a, b) && PhaseIs(s, r, Handed)
    ensures var t := Step(l, s, Resume(r)); PhaseIs(t, a, Queued) ==> WaitsBehind(t, a, b)
  {
    LineIsFair(s, Resumed(s, r), r, s.reqs[r].(phase := Running, taken := s.reqs[r].taken + 1), a, b);
  }

  lemma GiveUpIsFair(l: Limits, s: State, r: Rid, a: Rid, b: Rid)
    requires Inv(l, s) && WaitsBehind(s, a, b) && r in s.reqs && InLine(s.reqs[r]) && r != b
    ensures var t := Step(l, s, GiveUp(r)); PhaseIs(t, a, Queued) ==> WaitsBehind(t, a, b)
  {
    if r == a {
      WokenOthers(Left(s, r), a);
    } else {
      LineIsFair(s, Left(s, r), r, Settled(s.reqs[r].(phase := Ended), None), a, b);
    }
  }

  lemma ArriveIsFair(l: Limits, s: State, r: Rid, amount: Option<real>, a: Rid, b: Rid)
    requires WaitsBehind(s, a, b)
    ensures WaitsBehind(Step(l, s, Arrive(r, amount)), a, b)
  {
    StaysAhead(s.waiters, r, a, b);
  }

  /** In one step nobody behind a queued request is handed a permit; it can only give up. */
  lemma StepIsFair(l: Limits, s: State, e: Event, a: Rid, b: Rid)
    requires Inv(l, s) && WaitsBehind(s, a, b) && e != GiveUp(b)
    ensures PhaseIs(Step(l, s, e), a, Queued) ==> WaitsBehind(Step(l, s, e), a, b)
  {
    match e {
      case Arrive(r, amount) => ArriveIsFair(l, s, r, amount, a, b);
      case Resume(r) => if PhaseIs(s, r, Handed) { ResumeIsFair(l, s, r, a, b); }
      case GiveUp(r) => if r in s.reqs && InLine(s.reqs[r]) { GiveUpIsFair(l, s, r, a, b); }
      case Respond(r, status, cost) =>
        if PhaseIs(s, r, Phase.Running) { FinishIsFair(l, s, r, status, cost, a, b); }
      case PumpEnds(r, status, cost) => if PhaseIs(s, r, Streaming) { FinishIsFair(l, s, r, status, cost, a, b); }
      case FinishAgain(r, status, cost) => if PhaseIs(s, r, Ended) { FinishIsFair(l, s, r, status, cost, a, b); }
      case _ =>
    }
  }

  lemma StaysAhead(waiters: seq<Rid>, r: Rid, a: Rid, b: Rid)
    requires Ahead(waiters, a, b)
    ensures Ahead(waiters + [r], a, b)
  {
    var i, j :| 0 <= i < j < |waiters| && waiters[i] == a && waiters[j] == b;
    assert (waiters + [r])[i] == a && (waiters + [r])[j] == b;
  }

  /** Nobody goes back to waiting. */
  lemma StepQueued(l: Limits, s: State, e: Event, a: Rid)
    requires a in s.reqs && s.reqs[a].phase != Queued
    ensures a in Step(l, s, e).reqs && Step(l, s, e).reqs[a].phase != Queued
  {
    match e {
      case Resume(r) => if PhaseIs(s, r, Handed) { WokenOthers(Resumed(s, r), a); }
      case GiveUp(r) => if r in s.reqs && InLine(s.reqs[r]) { WokenOthers(Left(s, r), a); }
      case Respond(r, status, cost) => if PhaseIs(s, r, Phase.Running) { FinishedOthers(l, s, r, status, cost, a); }
      case PumpEnds(r, status, cost) => if PhaseIs(s, r, Streaming) { FinishedOthers(l, s, r, status, cost, a); }
      case FinishAgain(r, status, cost) => if PhaseIs(s, r, Ended) { FinishedOthers(l, s, r, status, cost, a); }
      case _ =>
    }
  }

  lemma FinishedOthers(l: Limits, s: State, r: Rid, status: int, cost: Option<real>, a: Rid)
    requires r in s.reqs && a in s.reqs && s.reqs[a].phase != Queued
    ensures var t := Finished(l, s, r, status, cost); a in t.reqs && t.reqs[a].phase != Queued
  {
    var freed := Put(s.(active := MaxZero(s.active - 1)), r, EndedReq(s.reqs[r], status, cost));
    WokenOthers(freed.(free := freed.free + 1), a);
  }

  /**
   Permits go first come, first served: while a request waits, whoever came to wait after it still waits behind it,
   unless it gave up.
   */
  lemma {:induction false} NoOvertaking(l: Limits, ws: seq<State>, es: seq<Event>, i: nat, j: nat, a: Rid, b: Rid)
    requires IsRun(l, ws, es) && i <= j < |ws| && WaitsBehind(ws[i], a, b) && PhaseIs(ws[j], a, Queued)
    requires forall k :: i <= k < j ==> es[k] != GiveUp(b)
    ensures WaitsBehind(ws[j], a, b)
    decreases j
  {
    if i == j {
    } else {
      assert ws[j - 1 + 1] == Step(l, ws[j - 1], es[j - 1]);
      KnownStays(l, ws, es, i, j - 1, a);
      if ws[j - 1].reqs[a].phase != Queued { StepQueued(l, ws[j - 1], es[j - 1], a); }
      NoOvertaking(l, ws, es, i, j - 1, a, b);
      RunKeepsInv(l, ws, es, j - 1);
      StepIsFair(l, ws[j - 1], es[j - 1], a, b);
    }
  }

  lemma {:induction false} KnownStays(l: Limits, ws: seq<State>, es: seq<Event>, i: nat, j: nat, r: Rid)
    requires IsRun(l, ws, es) && i <= j < |ws| && r in ws[i].reqs
    ensures r in ws[j].reqs
    decreases j
  {
    if i == j {
    } else {
      KnownStays(l, ws, es, i, j - 1, r);
      assert ws[j - 1 + 1] == Step(l, ws[j - 1], es[j - 1]);
      StepKnows(l, ws[j - 1], es[j - 1], r);
    }
  }

  lemma {:induction false} WokenKnows(s: State, r: Rid)
    requires r in s.reqs
    ensures r in Woken(s).reqs && r in WokenAll(s).reqs
    decreases MaxZero(s.free)
  {
    if s.free > 0 && FirstQueued(s.waiters, s.reqs) < |s.waiters| { WokenKnows(Woken(s), r); }
  }

  lemma StepKnows(l: Limits, s: State, e: Event, r: Rid)
    requires r in s.reqs
    ensures r in Step(l, s, e).reqs
  {
    match e {
      case Resume(x) => if PhaseIs(s, x, Handed) { WokenKnows(Resumed(s, x), r); }
      case GiveUp(x) => if x in s.reqs { WokenKnows(Left(s, x), r); }
      case _ =>
    }
  }

  /** A newcomer gets a permit at once if and only if there is no limit, or one is free and nobody is in line. */
  lemma NewcomerIff(l: Limits, s: State, r: Rid, amount: Option<real>)
    requires r !in s.reqs
    ensures var t := Step(l, s, Arrive(r, amount));
      && (PhaseIs(t, r, Phase.Running) <==> l.inflight == 0 || (s.free != 0 && s.waiters == []))
      && (PhaseIs(t, r, Queued) <==> l.inflight != 0 && (s.free == 0 || s.waiters != []) && s.pending < l.pending)
      && (PhaseIs(t, r, Ended) <==> l.inflight != 0 && (s.free == 0 || s.waiters != []) && s.pending >= l.pending)
      && (PhaseIs(t, r, Ended) ==> t.reqs[r].settles == if amount.Some? then [None] else [])
      && (PhaseIs(t, r, Queued) ==> t.waiters == s.waiters + [r])
  {
  }

  // ---- the assumption on closing the upstream is needed ----

  /** Event k is the death of the pump of r. */
  ghost predicate PumpDiedAt(ws: seq<State>, es: seq<Event>, k: int, r: Rid) {
    0 <= k < |es| && k < |ws| && es[k] == PumpDies(r) && r in ws[k].reqs && ws[k].reqs[r].phase == Streaming
  }

  /** A request has leaked if and only if its pump has died. */
  lemma {:induction false} OnlyPumpsLeak(l: Limits, ws: seq<State>, es: seq<Event>, i: nat, r: Rid)
    requires IsRun(l, ws, es) && i < |ws|
    ensures (r in ws[i].reqs && ws[i].reqs[r].phase == Leaked) <==> exists k :: 0 <= k < i && PumpDiedAt(ws, es, k, r)
  {
    if i == 0 {
    } else {
      OnlyPumpsLeak(l, ws, es, i - 1, r);
      assert ws[i - 1 + 1] == Step(l, ws[i - 1], es[i - 1]);
      LeakStep(l, ws[i - 1], es[i - 1], r);
      assert PumpDiedAt(ws, es, i - 1, r) ==> r in ws[i].reqs && ws[i].reqs[r].phase == Leaked;
    }
  }

  /** A phase other than Leaked becomes Leaked only when the pump dies, and Leaked never changes. */
  lemma LeakStep(l: Limits, s: State, e: Event, r: Rid)
    ensures r in s.reqs && s.reqs[r].phase == Leaked ==> r in Step(l, s, e).reqs && Step(l, s, e).reqs[r] == s.reqs[r]
    ensures (r !in s.reqs || s.reqs[r].phase != Leaked) && e != PumpDies(r) && r in Step(l, s, e).reqs ==>
              Step(l, s, e).reqs[r].phase != Leaked
  {
    match e {
      case Resume(x) =>
        if x in s.reqs && s.reqs[x].phase == Handed { WokenLeaks(Resumed(s, x), r); }
      case GiveUp(x) =>
        if x in s.reqs && InLine(s.reqs[x]) { WokenLeaks(Left(s, x), r); }
      case Respond(x, status, cost) =>
        if x in s.reqs && s.reqs[x].phase == Running { FinishedLeaks(l, s, x, status, cost, r); }
      case PumpEnds(x, status, cost) =>
        if x in s.reqs && s.reqs[x].phase == Streaming { FinishedLeaks(l, s, x, status, cost, r); }
      case FinishAgain(x, status, cost) =>
        if x in s.reqs && s.reqs[x].phase == Ended { FinishedLeaks(l, s, x, status, cost, r); }
      case _ =>
    }
  }

  lemma {:induction false} WokenLeaks(s: State, r: Rid)
    ensures forall t :: t == Woken(s) || t == WokenAll(s) ==>
      && (r in t.reqs <==> r in s.reqs)
      && (r in s.reqs ==> (s.reqs[r].phase == Leaked <==> t.reqs[r].phase == Leaked)
                          && (s.reqs[r].phase == Leaked ==> t.reqs[r] == s.reqs[r]))
    decreases MaxZero(s.free)
  {
    if s.free > 0 && FirstQueued(s.waiters, s.reqs) < |s.waiters| { WokenLeaks(Woken(s), r); }
  }

  lemma FinishedLeaks(l: Limits, s: State, x: Rid, status: int, cost: Option<real>, r: Rid)
    requires x in s.reqs && s.reqs[x].phase != Leaked
    ensures var t := Finished(l, s, x, status, cost);
      && (r in t.reqs <==> r in s.reqs)
      && (r in s.reqs ==> (s.reqs[r].phase == Leaked <==> t.reqs[r].phase == Leaked)
                          && (s.reqs[r].phase == Leaked ==> t.reqs[r] == s.reqs[r]))
  {
    var t := Put(s.(active := MaxZero(s.active - 1)), x, EndedReq(s.reqs[x], status, cost));
    WokenLeaks(t.(free := t.free + 1), r);
  }

  lemma {:induction false} LeakStays(l: Limits, ws: seq<State>, es: seq<Event>, i: nat, j: nat, r: Rid)
    requires IsRun(l, ws, es) && i <= j < |ws| && r in ws[i].reqs && ws[i].reqs[r].phase == Leaked
    ensures r in ws[j].reqs && ws[j].reqs[r] == ws[i].reqs[r]
    decreases j
  {
    if i == j {
    } else {
      LeakStays(l, ws, es, i, j - 1, r);
      assert ws[j - 1 + 1] == Step(l, ws[j - 1], es[j - 1]);
      LeakStep(l, ws[j - 1], es[j - 1], r);
    }
  }

  /** When a pump dies its permit is lost for good: whatever happens later, it is never given back or settled. */
  lemma LeakIsForever(l: Limits, ws: seq<State>, es: seq<Event>, i: nat, j: nat, r: Rid)
    requires IsRun(l, ws, es) && i <= j < |ws| && r in ws[i].reqs && ws[i].reqs[r].phase == Leaked
    ensures r in ws[j].reqs && ws[j].reqs[r].given == 0 && ws[j].reqs[r].settles == [] && ws[j].active > 0
    ensures l.inflight > 0 ==> ws[j].free < l.inflight
  {
    LeakStays(l, ws, es, i, j, r);
    RunKeepsInv(l, ws, es, j);
    assert Exact(ws[j].reqs[r]);
    HolderCounts(l, ws[j], r);
  }

  /** One permit, no queue: a streaming request whose pump dies, and then another request. */
  const LEAK_LIMITS := Limits(1, 0)

  const LEAK_EVENTS: seq<Event> := [Arrive(0, Some(1.0)), StartStream(0), PumpDies(0), Arrive(1, Some(1.0))]

  function Streamer(phase: Phase): Req { Req(phase, Some(1.0), false, false, [], 1, 0) }

  const LEAK_WORLDS: seq<State> := [
    Init(LEAK_LIMITS),
    State(0, 1, 0, [], map[0 := Streamer(Running)]),
    State(0, 1, 0, [], map[0 := Streamer(Streaming)]),
    State(0, 1, 0, [], map[0 := Streamer(Leaked)]),
    State(0, 1, 0, [], map[0 := Streamer(Leaked), 1 := Req(Ended, Some(1.0), true, false, [None], 0, 0)])]

  /** Nobody runs any more, and yet the second request is shed: the permit and the reservation are lost. */
  lemma DeadPumpLeaks()
    ensures IsRun(LEAK_LIMITS, LEAK_WORLDS, LEAK_EVENTS) && PumpDiedAt(LEAK_WORLDS, LEAK_EVENTS, 2, 0)
    ensures var s := LEAK_WORLDS[4];
      && s.free == 0 && s.reqs[0].given == 0 && s.reqs[0].settles == []
      && s.reqs[1].phase == Ended && s.reqs[1].taken == 0
  {
    var ws, es, l := LEAK_WORLDS, LEAK_EVENTS, LEAK_LIMITS;
    assert ws[1] == Step(l, ws[0], es[0]);
    assert ws[2] == Step(l, ws[1], es[1]);
    assert ws[3] == Step(l, ws[2], es[2]);
    assert Settled(Fresh(Some(1.0)).(phase := Ended), None) == ws[4].reqs[1];
    assert ws[4] == Step(l, ws[3], es[3]);
  }

  // ---- the code ----

  lemma {:induction false} FirstQueuedAt(waiters: seq<Rid>, reqs: map<Rid, Req>, i: nat)
    requires i <= |waiters| && forall j :: 0 <= j < i ==> !(waiters[j] in reqs && reqs[waiters[j]].phase == Queued)
    requires i < |waiters| ==> waiters[i] in reqs && reqs[waiters[i]].phase == Queued
    ensures FirstQueued(waiters, reqs) == i
    decreases i
  {
    if i == 0 {
    } else {
      FirstQueuedAt(waiters[1..], reqs, i - 1);
    }
  }

  lemma {:induction false} FirstQueuedElsewhere(waiters: seq<Rid>, reqs: map<Rid, Req>, r: Rid, q: Req)
    requires r !in waiters
    ensures FirstQueued(waiters, reqs[r := q]) == FirstQueued(waiters, reqs)
  {
    if waiters == [] {
    } else {
      FirstQueuedElsewhere(waiters[1..], reqs, r, q);
    }
  }

  /** Waking and changing the counters or a request that is not in line commute. */
  lemma {:induction false} WakeElsewhere(s: State, r: Rid, q: Req, pending: int, active: int)
    requires r !in s.waiters
    ensures WokenAll(Put(s.(pending := pending, active := active), r, q)) ==
      Put(WokenAll(s).(pending := pending, active := active), r, q)
    decreases MaxZero(s.free)
  {
    FirstQueuedElsewhere(s.waiters, s.reqs, r, q);
    var i := FirstQueued(s.waiters, s.reqs);
    if s.free > 0 && i < |s.waiters| {
      var w := s.waiters[i];
      assert s.reqs[r := q][w := s.reqs[w].(phase := Handed)] == s.reqs[w := s.reqs[w].(phase := Handed)][r := q];
      WakeElsewhere(Woken(s), r, q, pending, active);
    }
  }

  lemma ResumeCommutes(s: State, r: Rid)
    requires Distinct(s.waiters) && r in s.reqs && s.reqs[r].phase == Handed
    ensures var t := WokenAll(s.(waiters := LineWithout(s.waiters, r)));
      && r in t.reqs && t.reqs[r] == s.reqs[r]
      && WokenAll(Resumed(s, r)) == Put(t.(pending := MaxZero(s.pending - 1), active := s.active + 1), r,
                                        s.reqs[r].(phase := Running, taken := s.reqs[r].taken + 1))
  {
    LineWithoutIs(s.waiters, r);
    var u := s.(waiters := LineWithout(s.waiters, r));
    var q := s.reqs[r].(phase := Running, taken := s.reqs[r].taken + 1);
    WakeElsewhere(u, r, q, MaxZero(s.pending - 1), s.active + 1);
    WokenOthers(u, r);
  }

  lemma LeaveCommutes(s: State, r: Rid)
    requires Distinct(s.waiters) && r in s.reqs && InLine(s.reqs[r])
    ensures var free := if s.reqs[r].phase == Handed then s.free + 1 else s.free;
      var t := WokenAll(s.(waiters := LineWithout(s.waiters, r), free := free));
      WokenAll(Left(s, r)) ==
        Put(t.(pending := MaxZero(s.pending - 1), active := s.active), r, Settled(s.reqs[r].(phase := Ended), None))
  {
    LineWithoutIs(s.waiters, r);
    var free := if s.reqs[r].phase == Handed then s.free + 1 else s.free;
    var u := s.(waiters := LineWithout(s.waiters, r), free := free);
    var q := Settled(s.reqs[r].(phase := Ended), None);
    assert Left(s, r) == Put(u.(pending := MaxZero(s.pending - 1), active := s.active), r, q);
    WakeElsewhere(u, r, q, MaxZero(s.pending - 1), s.active);
  }

  class Proxy {
    const limits: Limits
    var free: int
    var active: int
    var pending: int
    var waiters: seq<Rid>
    var reqs: map<Rid, Req>

    constructor (limits: Limits)
      ensures this.limits == limits && Now() == Init(limits)
    {
      this.limits := limits;
      free, active, pending, waiters, reqs := limits.inflight, 0, 0, [], map[];
    }

    ghost function Now(): State
      reads this
    {
      State(free, active, pending, waiters, reqs)
    }

    method WakeUpNext() returns (woke: bool)
      modifies this`free, this`reqs
      ensures Now() == Woken(old(Now())) && woke == (FirstQueued(old(waiters), old(reqs)) < |old(waiters)|)
    {
      for i := 0 to |waiters|
        invariant Now() == old(Now())
        invariant forall j :: 0 <= j < i ==> !(waiters[j] in reqs && reqs[waiters[j]].phase == Queued)
      {
        if waiters[i] in reqs && reqs[waiters[i]].phase == Queued {
          FirstQueuedAt(waiters, reqs, i);
          free := free - 1;
          reqs := reqs[waiters[i] := reqs[waiters[i]].(phase := Handed)];
          return true;
        }
      }
      FirstQueuedAt(waiters, reqs, |waiters|);
      return false;
    }

    method WakeAll()
      modifies this`free, this`reqs
      ensures Now() == WokenAll(old(Now()))
    {
      while free > 0
        invariant waiters == old(waiters) && active == old(active) && pending == old(pending)
        invariant WokenAll(Now()) == WokenAll(old(Now()))
        decreases free
      {
        var woke := WakeUpNext();
        if !woke { return; }
      }
    }

    /** `_settle_reservation`. */
    method SettleReservation(r: Rid, cost: Option<real>)
      requires r in reqs
      modifies this`reqs
      ensures reqs == old(reqs)[r := Settled(old(reqs[r]), cost)]
    {
      var q := reqs[r];
      if q.amount.None? || q.done { return; }
      reqs := reqs[r := q.(done := true, settles := q.settles + [cost])];
    }

    /** A request that gets no permit ends by settling for nothing. */
    method EndUnadmitted(r: Rid, q: Req)
      modifies this`reqs
      ensures reqs == old(reqs)[r := Settled(q.(phase := Ended), None)]
    {
      reqs := reqs[r := q.(phase := Ended)];
      SettleReservation(r, None);
      assert reqs == old(reqs)[r := Settled(q.(phase := Ended), None)];
    }

    /** `_capacity_acquire`, up to the point where it may wait; a request that is shed settles at once. */
    method Acquire(r: Rid, amount: Option<real>)
      requires r !in reqs
      modifies this
      ensures Now() == Step(limits, old(Now()), Event.Arrive(r, amount))
    {
      var q := Fresh(amount);
      if limits.inflight == 0 {
        active := active + 1;
        reqs := reqs[r := q.(phase := Running, taken := 1)];
        return;
      }
      var queued := free == 0 || waiters != [];
      if queued {
        if pending >= limits.pending {
          EndUnadmitted(r, q);
          return;
        }
        pending := pending + 1;
        waiters := waiters + [r];
        reqs := reqs[r := q];
        return;
      }
      free := free - 1;
      active := active + 1;
      reqs := reqs[r := q.(phase := Running, taken := 1)];
    }

    /** The rest of `_capacity_acquire` for a waiter that was handed a permit. */
    method ResumeAcquire(r: Rid)
      requires Distinct(waiters) && r in reqs && reqs[r].phase == Handed
      modifies this
      ensures Now() == Step(limits, old(Now()), Event.Resume(r))
    {
      ResumeCommutes(Now(), r);
      waiters := LineWithout(waiters, r);
      WakeAll();
      pending := MaxZero(pending - 1);
      active := active + 1;
      reqs := reqs[r := reqs[r].(phase := Running, taken := reqs[r].taken + 1)];
    }

    /** The waiter times out or is cancelled: the permit it was handed goes on, the reservation is settled. */
    method AbandonAcquire(r: Rid)
      requires Distinct(waiters) && r in reqs && InLine(reqs[r])
      modifies this
      ensures Now() == Step(limits, old(Now()), Event.GiveUp(r))
    {
      LeaveCommutes(Now(), r);
      var q := reqs[r];
      waiters := LineWithout(waiters, r);
      if q.phase == Handed { free := free + 1; }
      WakeAll();
      pending := MaxZero(pending - 1);
      EndUnadmitted(r, q);
    }

    /** `_capacity_release`. */
    method Release()
      modifies this
      ensures Now() == Released(limits, old(Now()))
    {
      active := MaxZero(active - 1);
      if limits.inflight != 0 {
        free := free + 1;
        var _ := WakeUpNext();
      }
    }

    /** `_finish`: the flag first, then the settlement, then the permit. */
    method Finish(r: Rid, status: int, cost: Option<real>)
      requires r in reqs
      modifies this
      ensures Now() == Finished(limits, old(Now()), r, status, cost)
    {
      if reqs[r].capacityReleased { return; }
      reqs := reqs[r := reqs[r].(capacityReleased := true, phase := Ended, given := reqs[r].given + 1)];
      SettleReservation(r, if cost.Some? || status >= 400 then cost else reqs[r].amount);
      assert reqs == old(reqs)[r := EndedReq(old(reqs[r]), status, cost)];
      Release();
    }
  }
}
