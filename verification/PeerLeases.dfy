/**
 Global concurrency leases of a marketplace peer (host_store.py, `try_acquire_peer_lease`,
 `renew_peer_lease`, `release_peer_lease`). Replicas share one table; the transactions of one peer are
 serialized, and each is one method call here. Clock readings of a transaction are parameters.
 */
module PeerLeases {
  import opened Common

  /** A row of `peer_concurrency_leases`; the table is keyed by lease id over all peers. */
  datatype Lease = Lease(peer: string, expires: real)
  type Table = map<string, Lease>

  predicate HexDigit(c: char) { '0' <= c <= '9' || 'a' <= c <= 'f' }

  /** Arguments the store accepts, already stripped and lower-cased. */
  predicate ValidArgs(peer: string, lease: string) {
    1 <= |peer| <= 200 && |lease| == 32 && forall i :: 0 <= i < 32 ==> HexDigit(lease[i])
  }

  function Ttl(ttl: real): real { if ttl < 5.0 then 5.0 else if ttl > 3600.0 then 3600.0 else ttl }

  function Capacity(cap: int): int { if cap < 1 then 1 else if cap > 1000 then 1000 else cap }

  function Holders(rows: Table, peer: string): set<string> {
    set l | l in rows && rows[l].peer == peer
  }

  /** The leases of a peer that have not expired at time t. */
  function LiveHolders(rows: Table, peer: string, t: real): set<string> {
    set l | l in rows && rows[l].peer == peer && rows[l].expires > t
  }

  function Unexpired(rows: Table, peer: string, t: real): Table {
    map l | l in rows && !(rows[l].peer == peer && rows[l].expires <= t) :: rows[l]
  }

  /** Is the slot granted: fewer unexpired leases than the cap, whatever else is still in the table. */
  predicate Grants(rows: Table, peer: string, lease: string, cap: int, swept: real) {
    && ValidArgs(peer, lease)
    && |LiveHolders(rows, peer, swept)| < Capacity(cap)
    && lease !in Unexpired(rows, peer, swept)
  }

  function AfterAcquire(rows: Table, peer: string, lease: string, cap: int, ttl: real, swept: real, now: real): Table {
    if !ValidArgs(peer, lease) then rows
    else if |LiveHolders(rows, peer, swept)| >= Capacity(cap) then Unexpired(rows, peer, swept)
    else if lease in Unexpired(rows, peer, swept) then rows
    else Unexpired(rows, peer, swept)[lease := Lease(peer, now + Ttl(ttl))]
  }

  predicate Holds(rows: Table, peer: string, lease: string) {
    lease in rows && rows[lease].peer == peer
  }

  function AfterRenew(rows: Table, peer: string, lease: string, ttl: real, now: real): Table {
    if ValidArgs(peer, lease) && Holds(rows, peer, lease) then rows[lease := Lease(peer, now + Ttl(ttl))] else rows
  }

  function AfterRelease(rows: Table, peer: string, lease: string): Table {
    if ValidArgs(peer, lease) && Holds(rows, peer, lease) then rows - {lease} else rows
  }

  class LeaseStore {
    var rows: Table

    constructor ()
      ensures rows == map[]
    {
      rows := map[];
    }

    /** Sweep the peer's expired leases, count the rest, and insert if there is room. */
    method TryAcquire(peer: string, lease: string, cap: int, ttl: real, swept: real, now: real)
      returns (acquired: bool, storeOk: bool)
      modifies this
      ensures rows == AfterAcquire(old(rows), peer, lease, cap, ttl, swept, now)
      ensures acquired == Grants(old(rows), peer, lease, cap, swept)
      ensures acquired ==> rows[lease] == Lease(peer, now + Ttl(ttl))
      ensures storeOk ==
        (ValidArgs(peer, lease) && (acquired || |LiveHolders(old(rows), peer, swept)| >= Capacity(cap)))
      ensures !storeOk ==> rows == old(rows)
    {
      if !ValidArgs(peer, lease) { return false, false; }
      var before := rows;
      rows := Unexpired(rows, peer, swept);
      var used := |Holders(rows, peer)|;
      assert Holders(rows, peer) == LiveHolders(before, peer, swept);
      if used >= Capacity(cap) { return false, true; }
      if lease in rows {
        rows := before;
        return false, false;
      }
      rows := rows[lease := Lease(peer, now + Ttl(ttl))];
      return true, true;
    }

    /** Renewing does not look at the expiry: a lease that expired but was not swept lives on. */
    method Renew(peer: string, lease: string, ttl: real, now: real) returns (renewed: bool)
      modifies this
      ensures rows == AfterRenew(old(rows), peer, lease, ttl, now)
      ensures renewed == (ValidArgs(peer, lease) && Holds(old(rows), peer, lease))
      ensures Holders(rows, peer) == Holders(old(rows), peer)
    {
      if !ValidArgs(peer, lease) { return false; }
      renewed := lease in rows && rows[lease].peer == peer;
      if renewed {
        rows := rows[lease := Lease(peer, now + Ttl(ttl))];
      }
    }

    method Release(peer: string, lease: string) returns (storeOk: bool)
      modifies this
      ensures rows == AfterRelease(old(rows), peer, lease)
      ensures storeOk == ValidArgs(peer, lease)
      ensures storeOk ==> Holders(rows, peer) == Holders(old(rows), peer) - {lease}
    {
      if !ValidArgs(peer, lease) { return false; }
      if lease in rows && rows[lease].peer == peer {
        rows := rows - {lease};
      }
      storeOk := true;
    }
  }

  // ---- runs: replicas acquire, renew, release, crash (fall silent), while clocks advance ----

  datatype Event =
    | Acquire(peer: string, lease: string, cap: int, ttl: real, swept: real, now: real)
    | Renew(peer: string, lease: string, ttl: real, now: real)
    | Release(peer: string, lease: string)

  function Step(rows: Table, e: Event): Table {
    match e
    case Acquire(peer, lease, cap, ttl, swept, now) => AfterAcquire(rows, peer, lease, cap, ttl, swept, now)
    case Renew(peer, lease, ttl, now) => AfterRenew(rows, peer, lease, ttl, now)
    case Release(peer, lease) => AfterRelease(rows, peer, lease)
  }

  function Run(es: seq<Event>): Table {
    if es == [] then map[] else Step(Run(es[..|es| - 1]), es[|es| - 1])
  }

  predicate CapsAtMost(es: seq<Event>, peer: string, most: int) {
    forall i :: 0 <= i < |es| && es[i].Acquire? && es[i].peer == peer ==> es[i].cap <= most
  }

  lemma SubsetSize<T>(a: set<T>, b: set<T>)
    requires a <= b
    ensures |a| <= |b|
  {
    if a == {} {
    } else {
      var x :| x in a;
      SubsetSize(a - {x}, b - {x});
    }
  }

  lemma OtherPeers(rows: Table, e: Event, peer: string)
    requires e.peer != peer
    ensures Holders(Step(rows, e), peer) == Holders(rows, peer)
  {
  }

  lemma Joins(rows: Table, e: Event, peer: string)
    requires e.Acquire? && e.peer == peer && Grants(rows, peer, e.lease, e.cap, e.swept)
    ensures |Holders(Step(rows, e), peer)| <= Capacity(e.cap)
  {
    assert Holders(Step(rows, e), peer) == LiveHolders(rows, peer, e.swept) + {e.lease};
  }

  lemma NoneJoins(rows: Table, e: Event, peer: string)
    requires e.Acquire? && e.peer == peer ==> !Grants(rows, peer, e.lease, e.cap, e.swept)
    ensures |Holders(Step(rows, e), peer)| <= |Holders(rows, peer)|
  {
    SubsetSize(Holders(Step(rows, e), peer), Holders(rows, peer));
  }

  /** One step: no one joins beyond the cap, and a step of one peer leaves every other peer's holders alone. */
  lemma StepHolders(rows: Table, e: Event, peer: string)
    ensures e.peer != peer ==> Holders(Step(rows, e), peer) == Holders(rows, peer)
    ensures var n := |Holders(Step(rows, e), peer)|;
      n <= |Holders(rows, peer)| || (e.Acquire? && e.peer == peer && n <= 1000 && (n <= 1 || n <= e.cap))
  {
    if e.peer != peer {
      OtherPeers(rows, e, peer);
    } else if e.Acquire? && Grants(rows, peer, e.lease, e.cap, e.swept) {
      Joins(rows, e, peer);
    } else {
      NoneJoins(rows, e, peer);
    }
  }

  /**
   In every run a peer never has more rows than the largest cap it was asked for, nor than a thousand, hence
   never more unexpired holders, at whatever time they are counted.
   */
  lemma {:induction false} HoldersWithinCap(es: seq<Event>, peer: string, most: int, t: real)
    requires CapsAtMost(es, peer, most) && most >= 1
    ensures |LiveHolders(Run(es), peer, t)| <= |Holders(Run(es), peer)| <= most
    ensures |Holders(Run(es), peer)| <= 1000
    decreases |es|
  {
    SubsetSize(LiveHolders(Run(es), peer, t), Holders(Run(es), peer));
    if es == [] {
      assert Holders(Run(es), peer) == {};
    } else {
      var n := |es| - 1;
      HoldersWithinCap(es[..n], peer, most, t);
      StepHolders(Run(es[..n]), es[n], peer);
    }
  }

  /**
   A slot is granted if and only if peer and lease are well named, the lease is new or an expired one of the peer,
   and the peer's unexpired leases are fewer than the cap; a cap below one counts as one and a cap above a thousand
   as a thousand.
   */
  lemma GrantsIff(rows: Table, peer: string, lease: string, cap: int, swept: real)
    ensures Grants(rows, peer, lease, cap, swept) <==>
      && peer != "" && |peer| < 201 && |lease| == 32 && (forall c :: c in lease ==> c in "0123456789abcdef")
      && (lease in rows ==> rows[lease].peer == peer && rows[lease].expires <= swept)
      && (|LiveHolders(rows, peer, swept)| == 0
          || (|LiveHolders(rows, peer, swept)| < cap && |LiveHolders(rows, peer, swept)| < 1000))
  {
    assert forall i :: 0 <= i < |lease| ==> lease[i] in lease;
    assert forall c :: c in "0123456789abcdef" <==> HexDigit(c);
  }

  /** From a grant or a renewal on a lease is live for the time asked for, at least five seconds, at most an hour. */
  lemma LeaseLasts(rows: Table, e: Event, t: real)
    requires !e.Release? && Writes(rows, e, e.peer, e.lease)
    ensures e.lease in LiveHolders(Step(rows, e), e.peer, t) <==>
      if e.ttl <= 5.0 then t < e.now + 5.0 else t < e.now + e.ttl && t < e.now + 3600.0
  {
  }

  /** Every other lease is left alone, except that an acquire that commits removes the peer's expired ones. */
  lemma OtherLeases(rows: Table, e: Event, other: string)
    requires other != e.lease && other in rows
    ensures other in Step(rows, e) ==> Step(rows, e)[other] == rows[other]
    ensures other !in Step(rows, e) <==>
      e.Acquire? && Commits(rows, e) && rows[other].peer == e.peer && rows[other].expires <= e.swept
  {
  }

  /** The holder of `lease` is silent during the run: it neither renews, releases nor acquires it again. */
  predicate Silent(es: seq<Event>, lease: string) {
    forall i :: 0 <= i < |es| ==> es[i].lease != lease
  }

  function RunFrom(rows: Table, es: seq<Event>): Table {
    if es == [] then rows else Step(RunFrom(rows, es[..|es| - 1]), es[|es| - 1])
  }

  /** A crashed holder's row keeps its expiry until it is swept: nothing extends it. */
  lemma {:induction false} SilentHolderExpires(rows: Table, es: seq<Event>, peer: string, lease: string)
    requires Holds(rows, peer, lease) && Silent(es, lease)
    ensures lease in RunFrom(rows, es) ==> RunFrom(rows, es)[lease] == rows[lease]
    decreases |es|
  {
    if es == [] {
    } else {
      var n := |es| - 1;
      SilentHolderExpires(rows, es[..n], peer, lease);
    }
  }

  /**
   A crashed holder's slot comes back: once its expiry has passed, whatever the others did since, it no longer
   counts, and a new lease is granted exactly if the remaining unexpired holders are fewer than the cap.
   */
  lemma CrashedSlotIsGrantable(rows: Table, es: seq<Event>, peer: string, crashed: string, newcomer: string, cap: int,
                               t: real)
    requires Holds(rows, peer, crashed) && Silent(es, crashed) && rows[crashed].expires <= t
    requires ValidArgs(peer, newcomer) && newcomer !in RunFrom(rows, es)
    ensures crashed !in LiveHolders(RunFrom(rows, es), peer, t)
    ensures var others := |LiveHolders(RunFrom(rows, es), peer, t) - {crashed}|;
      Grants(RunFrom(rows, es), peer, newcomer, cap, t) <==> others < 1000 && (others == 0 || others < cap)
  {
    SilentHolderExpires(rows, es, peer, crashed);
    assert LiveHolders(RunFrom(rows, es), peer, t) - {crashed} == LiveHolders(RunFrom(rows, es), peer, t);
  }

  // ---- renewing a lease that has expired ----

  /** Does the acquire commit: valid arguments, and no live lease of that id stands in the way of its insert. */
  predicate Commits(rows: Table, e: Event)
    requires e.Acquire?
  {
    && ValidArgs(e.peer, e.lease)
    && (|LiveHolders(rows, e.peer, e.swept)| < Capacity(e.cap) ==> e.lease !in Unexpired(rows, e.peer, e.swept))
  }

  /** The event writes the lease's row: a granted acquire or a renewal that finds it. */
  predicate Writes(rows: Table, e: Event, peer: string, lease: string) {
    && e.peer == peer && e.lease == lease
    && match e
       case Acquire(_, _, cap, _, swept, _) => Grants(rows, peer, lease, cap, swept)
       case Renew(_, _, _, _) => ValidArgs(peer, lease) && Holds(rows, peer, lease)
       case Release(_, _) => false
  }

  function ExpiryOf(e: Event): real
    requires !e.Release?
  {
    e.now + Ttl(e.ttl)
  }

  /** The event removes a row of the peer that expires at `expires`: its release, or a committed sweep past that. */
  predicate Removes(rows: Table, e: Event, peer: string, lease: string, expires: real) {
    && e.peer == peer
    && ((e.Release? && e.lease == lease) || (e.Acquire? && e.swept >= expires && Commits(rows, e)))
  }

  /** One step, for one row. */
  lemma RowAfter(rows: Table, e: Event, peer: string, lease: string)
    requires ValidArgs(peer, lease)
    ensures Writes(rows, e, peer, lease) ==>
      Holds(Step(rows, e), peer, lease) && Step(rows, e)[lease].expires == ExpiryOf(e)
    ensures !Writes(rows, e, peer, lease) ==>
      (Holds(Step(rows, e), peer, lease) <==>
       Holds(rows, peer, lease) && !Removes(rows, e, peer, lease, rows[lease].expires))
    ensures !Writes(rows, e, peer, lease) && Holds(Step(rows, e), peer, lease) ==> Step(rows, e)[lease] == rows[lease]
  {
  }

  /** Event k wrote the row last, and nothing has removed it since. */
  ghost predicate StillThere(es: seq<Event>, k: nat, peer: string, lease: string) {
    && k < |es| && !es[k].Release? && Writes(Run(es[..k]), es[k], peer, lease)
    && (forall m :: k < m < |es| ==> Undisturbed(es, k, m, peer, lease))
  }

  ghost predicate Undisturbed(es: seq<Event>, k: nat, m: nat, peer: string, lease: string)
    requires k < m < |es| && !es[k].Release?
  {
    !Writes(Run(es[..m]), es[m], peer, lease) && !Removes(Run(es[..m]), es[m], peer, lease, ExpiryOf(es[k]))
  }

  lemma StillThereNext(es: seq<Event>, k: nat, peer: string, lease: string)
    requires k < |es| - 1
    ensures StillThere(es, k, peer, lease) <==>
      StillThere(es[..|es| - 1], k, peer, lease) && !es[k].Release? && Undisturbed(es, k, |es| - 1, peer, lease)
  {
    var before := es[..|es| - 1];
    assert before[..k] == es[..k];
    if !es[k].Release? {
      forall m | k < m < |before|
        ensures Undisturbed(before, k, m, peer, lease) <==> Undisturbed(es, k, m, peer, lease)
      {
        assert before[..m] == es[..m];
      }
    }
  }

  /** A row in the table was left by some event that wrote it, and nothing removed it since. */
  lemma {:induction false} RowWasWritten(es: seq<Event>, peer: string, lease: string) returns (k: nat)
    requires ValidArgs(peer, lease) && Holds(Run(es), peer, lease)
    ensures StillThere(es, k, peer, lease)
    ensures Run(es)[lease].expires == ExpiryOf(es[k])
    decreases |es|
  {
    var n := |es| - 1;
    RowAfter(Run(es[..n]), es[n], peer, lease);
    if Writes(Run(es[..n]), es[n], peer, lease) {
      k := n;
    } else {
      k := RowWasWritten(es[..n], peer, lease);
      StillThereNext(es, k, peer, lease);
    }
  }

  /** And such a row is in the table. */
  lemma {:induction false} WrittenRowHolds(es: seq<Event>, k: nat, peer: string, lease: string)
    requires ValidArgs(peer, lease) && StillThere(es, k, peer, lease)
    ensures Holds(Run(es), peer, lease) && Run(es)[lease].expires == ExpiryOf(es[k])
    decreases |es|
  {
    var n := |es| - 1;
    RowAfter(Run(es[..n]), es[n], peer, lease);
    if k == n {
    } else {
      StillThereNext(es, k, peer, lease);
      WrittenRowHolds(es[..n], k, peer, lease);
    }
  }

  /**
   A renewal brings back a lease that had expired if and only if the last write of its row expired by then, and
   since that write neither a release nor a committed acquire of the peer swept at or after its expiry came.
   */
  lemma RenewRevivesIff(es: seq<Event>, peer: string, lease: string, ttl: real, now: real)
    requires ValidArgs(peer, lease)
    ensures (Writes(Run(es), Renew(peer, lease, ttl, now), peer, lease) && Run(es)[lease].expires <= now)
      <==> exists k: nat :: StillThere(es, k, peer, lease) && ExpiryOf(es[k]) <= now
  {
    if Holds(Run(es), peer, lease) {
      var k := RowWasWritten(es, peer, lease);
    }
    forall k: nat | StillThere(es, k, peer, lease)
      ensures Holds(Run(es), peer, lease) && Run(es)[lease].expires == ExpiryOf(es[k])
    {
      WrittenRowHolds(es, k, peer, lease);
    }
  }

  /** A lease of five seconds, renewed after ten: it is live again although nobody held it in between. */
  lemma ExpiredLeaseIsRenewed(peer: string, lease: string)
    requires ValidArgs(peer, lease)
    ensures var es := [Acquire(peer, lease, 1, 5.0, 0.0, 0.0)];
      && LiveHolders(Run(es), peer, 10.0) == {}
      && LiveHolders(Run(es + [Renew(peer, lease, 5.0, 10.0)]), peer, 10.0) == {lease}
  {
    var a := Acquire(peer, lease, 1, 5.0, 0.0, 0.0);
    var r := Renew(peer, lease, 5.0, 10.0);
    assert [a][..0] == [] && ([a] + [r])[..1] == [a];
    assert LiveHolders(map[], peer, 0.0) == {};
    assert Run([a]) == map[lease := Lease(peer, 5.0)];
    assert Run([a] + [r]) == map[lease := Lease(peer, 15.0)];
  }
}
