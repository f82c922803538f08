/**
 The cache in front of the control plane (control_plane_client.py, `resolve_key`, `_entry_ttl`,
 `_evict_if_full`). A call answers from a fresh entry, joins a running fetch for the same digest, or starts
 one; between its start and the reply other calls run. All steps are on one event loop.
 */
module KeyCache {
  import opened Common

  type Digest = string

  /** A definitive reply, positive (`active`) or negative; `key` is whatever the reply grants. */
  datatype Entry<K> = Entry(active: bool, fetchedAt: real, key: K)

  datatype Settings = Settings(ttl: real, negativeTtl: real, grace: real)

  const CACHE_MAX: nat := 4096

  /** `_entry_ttl`. */
  function TtlOf<K>(c: Settings, e: Entry<K>): real { if e.active then c.ttl else c.negativeTtl }

  /** A running fetch: what its call read when it started. */
  datatype Fetch<K> = Fetch(digest: Digest, now: real, cached: Option<Entry<K>>)

  datatype State<K> = State(cache: map<Digest, Entry<K>>, inflight: map<Digest, nat>, fetches: map<nat, Fetch<K>>)

  datatype Event<K> =
    | Call(digest: Digest, now: real, id: nat)                  // a call starts; id names its fetch if it starts one
    | Reply(id: nat, reply: Option<Entry<K>>, now: real)        // the fetch ends; None is a transport error or a 5xx
    | Abort(id: nat)                                            // the fetching call is cancelled

  /** What a call gets at once. */
  datatype Outcome<K> = Hit(entry: Entry<K>) | Joined(id: nat) | Fetching(id: nat)

  predicate Fresh<K>(c: Settings, e: Entry<K>, now: real) { now - e.fetchedAt <= TtlOf(c, e) }

  function Cached<K>(cache: map<Digest, Entry<K>>, d: Digest): Option<Entry<K>> {
    if d in cache then Some(cache[d]) else None
  }

  function Started<K>(c: Settings, s: State<K>, e: Event<K>): Outcome<K>
    requires e.Call?
  {
    if e.digest in s.cache && Fresh(c, s.cache[e.digest], e.now) then Hit(s.cache[e.digest])
    else if e.digest in s.inflight then Joined(s.inflight[e.digest])
    else Fetching(e.id)
  }

  /** The cache after `_evict_if_full`. */
  function Evicted<K>(c: Settings, cache: map<Digest, Entry<K>>, now: real): map<Digest, Entry<K>> {
    if |cache| < CACHE_MAX then cache else
      var kept := map d | d in cache && Fresh(c, cache[d], now) :: cache[d];
      if |kept| >= CACHE_MAX then map[] else kept
  }

  /** What a fetch answers to the call that started it and to all that joined it. */
  function Result<K>(c: Settings, f: Fetch<K>, reply: Option<Entry<K>>): Option<Entry<K>> {
    if reply.Some? then reply
    else if f.cached.Some? && f.cached.value.active && f.now - f.cached.value.fetchedAt <= c.ttl + c.grace then f.cached
    else None
  }

  function Step<K>(c: Settings, s: State<K>, e: Event<K>): State<K> {
    match e
    case Call(d, now, id) =>
      if Started(c, s, e).Fetching? then
        s.(inflight := s.inflight[d := id], fetches := s.fetches[id := Fetch(d, now, Cached(s.cache, d))])
      else s
    case Reply(id, reply, now) =>
      if id !in s.fetches then s else
        var f := s.fetches[id];
        State(if reply.Some? then Evicted(c, s.cache, now)[f.digest := reply.value]
              else if Result(c, f, reply).Some? then s.cache
              else s.cache - {f.digest},
              s.inflight - {f.digest}, s.fetches - {id})
    case Abort(id) =>
      if id !in s.fetches then s else s.(inflight := s.inflight - {s.fetches[id].digest}, fetches := s.fetches - {id})
  }

  class Resolver<K> {
    const settings: Settings
    var cache: map<Digest, Entry<K>>
    var inflight: map<Digest, nat>
    var fetches: map<nat, Fetch<K>>

    constructor (settings: Settings)
      ensures this.settings == settings && Now() == State(map[], map[], map[])
    {
      this.settings := settings;
      cache, inflight, fetches := map[], map[], map[];
    }

    ghost function Now(): State<K>
      reads this
    {
      State(cache, inflight, fetches)
    }

    /** `_evict_if_full`: first the expired entries, then everything. */
    method EvictIfFull(now: real)
      modifies this`cache
      ensures cache == Evicted(settings, old(cache), now)
    {
      if |cache| < CACHE_MAX { return; }
      var expired: set<Digest> := {};
      var unseen := cache.Keys;
      while unseen != {}
        invariant unseen <= cache.Keys && cache == old(cache)
        invariant expired == set d | d in cache && d !in unseen && !Fresh(settings, cache[d], now)
        decreases |unseen|
      {
        var d :| d in unseen;
        unseen := unseen - {d};
        if now - cache[d].fetchedAt > TtlOf(settings, cache[d]) { expired := expired + {d}; }
      }
      cache := cache - expired;
      assert cache == map d | d in old(cache) && Fresh(settings, old(cache)[d], now) :: old(cache)[d];
      if |cache| >= CACHE_MAX { cache := map[]; }
    }

    /** `resolve_key`, up to the point where it waits. */
    method Begin(digest: Digest, now: real, id: nat) returns (r: Outcome<K>)
      modifies this
      ensures r == Started(settings, old(Now()), Event.Call(digest, now, id))
      ensures Now() == Step(settings, old(Now()), Event.Call(digest, now, id))
    {
      var cached := Cached(cache, digest);
      if cached.Some? && now - cached.value.fetchedAt <= TtlOf(settings, cached.value) { return Hit(cached.value); }
      if digest in inflight { return Joined(inflight[digest]); }
      inflight := inflight[digest := id];
      fetches := fetches[id := Fetch(digest, now, cached)];
      r := Fetching(id);
    }

    /** `resolve_key`, from the reply on. */
    method Finish(id: nat, reply: Option<Entry<K>>, now: real) returns (result: Option<Entry<K>>)
      requires id in fetches
      modifies this
      ensures result == Result(settings, old(fetches[id]), reply)
      ensures Now() == Step(settings, old(Now()), Event.Reply(id, reply, now))
    {
      var f := fetches[id];
      if reply.Some? {
        EvictIfFull(now);
        cache := cache[f.digest := reply.value];
        result := reply;
      } else if f.cached.Some? && f.cached.value.active
                && f.now - f.cached.value.fetchedAt <= settings.ttl + settings.grace {
        result := f.cached;
      } else {
        cache := cache - {f.digest};
        result := None;
      }
      inflight := inflight - {f.digest};
      fetches := fetches - {id};
    }

    /** The fetching call is cancelled: its exception goes to those who joined. */
    method Cancel(id: nat)
      requires id in fetches
      modifies this
      ensures Now() == Step(settings, old(Now()), Event.Abort(id))
    {
      inflight := inflight - {fetches[id].digest};
      fetches := fetches - {id};
    }
  }

  // ---- runs ----

  function Run<K>(c: Settings, es: seq<Event<K>>): State<K> {
    if es == [] then State(map[], map[], map[]) else Step(c, Run(c, es[..|es| - 1]), es[|es| - 1])
  }

  /** Each fetch is named once. */
  ghost predicate Named<K>(es: seq<Event<K>>) {
    forall i, j :: 0 <= i < j < |es| && es[i].Call? && es[j].Call? ==> es[i].id != es[j].id
  }

  /** The digest an event brings a definitive reply for. */
  function Definitive<K>(s: State<K>, e: Event<K>): Option<Digest> {
    if e.Reply? && e.id in s.fetches && e.reply.Some? then Some(s.fetches[e.id].digest) else None
  }

  /** The last definitive reply for a digest. */
  function Latest<K>(c: Settings, es: seq<Event<K>>, d: Digest): Option<Entry<K>> {
    if es == [] then None else
      var before, e := es[..|es| - 1], es[|es| - 1];
      if Definitive(Run(c, before), e) == Some(d) then e.reply else Latest(c, before, d)
  }

  /** One fetch per digest, found under its digest. */
  ghost predicate SingleFlight<K>(s: State<K>) {
    && (forall id :: id in s.fetches ==> s.fetches[id].digest in s.inflight && s.inflight[s.fetches[id].digest] == id)
    && (forall d :: d in s.inflight ==> s.inflight[d] in s.fetches && s.fetches[s.inflight[d]].digest == d)
  }

  lemma StepKeepsSingleFlight<K>(c: Settings, s: State<K>, e: Event<K>)
    requires SingleFlight(s) && (e.Call? ==> e.id !in s.fetches)
    ensures SingleFlight(Step(c, s, e))
  {
  }

  /** Names of running fetches come from earlier calls. */
  lemma {:induction false} FetchesAreNamed<K>(c: Settings, es: seq<Event<K>>, id: nat)
    requires id in Run(c, es).fetches
    ensures exists i :: 0 <= i < |es| && es[i].Call? && es[i].id == id
    decreases |es|
  {
    if es == [] {
    } else {
      var n := |es| - 1;
      if id in Run(c, es[..n]).fetches {
        FetchesAreNamed(c, es[..n], id);
        var i :| 0 <= i < n && es[..n][i].Call? && es[..n][i].id == id;
        assert es[i].Call? && es[i].id == id;
      } else {
        assert es[n].Call? && es[n].id == id;
      }
    }
  }

  /** At most one fetch per digest is in flight. */
  lemma {:induction false} OneFetchPerDigest<K(!new)>(c: Settings, es: seq<Event<K>>)
    requires Named(es)
    ensures SingleFlight(Run(c, es))
    ensures var f := Run(c, es).fetches; forall i, j :: i in f && j in f && f[i].digest == f[j].digest ==> i == j
    decreases |es|
  {
    if es == [] {
    } else {
      var n := |es| - 1;
      OneFetchPerDigest(c, es[..n]);
      var s := Run(c, es[..n]);
      if es[n].Call? && es[n].id in s.fetches {
        FetchesAreNamed(c, es[..n], es[n].id);
      }
      StepKeepsSingleFlight(c, s, es[n]);
    }
  }

  /** An entry that is cached, or that a running fetch may fall back on, is the last definitive reply. */
  ghost predicate Current<K(!new)>(c: Settings, es: seq<Event<K>>) {
    var s := Run(c, es);
    && (forall d :: d in s.cache ==> Latest(c, es, d) == Some(s.cache[d]))
    && (forall id :: id in s.fetches && s.fetches[id].cached.Some? ==>
          Latest(c, es, s.fetches[id].digest) == s.fetches[id].cached)
  }

  lemma LatestNext<K>(c: Settings, es: seq<Event<K>>, e: Event<K>, d: Digest)
    ensures Run(c, es + [e]) == Step(c, Run(c, es), e)
    ensures Latest(c, es + [e], d) == if Definitive(Run(c, es), e) == Some(d) then e.reply else Latest(c, es, d)
  {
    assert (es + [e])[..|es|] == es;
  }

  lemma EvictedIsPart<K>(c: Settings, cache: map<Digest, Entry<K>>, now: real, d: Digest)
    ensures d in Evicted(c, cache, now) ==> d in cache && Evicted(c, cache, now)[d] == cache[d]
  {
  }

  /** An entry in the cache is the reply that just came, or was there before. */
  lemma CacheAfter<K>(c: Settings, s: State<K>, e: Event<K>, d: Digest)
    requires d in Step(c, s, e).cache
    ensures if Definitive(s, e) == Some(d) then e.reply == Some(Step(c, s, e).cache[d])
            else d in s.cache && s.cache[d] == Step(c, s, e).cache[d]
  {
    if e.Reply? { EvictedIsPart(c, s.cache, e.now, d); }
  }

  /** A running fetch was running before, or starts now; the reply that comes is for another digest. */
  lemma FetchAfter<K>(c: Settings, s: State<K>, e: Event<K>, id: nat)
    requires SingleFlight(s) && (e.Call? ==> e.id !in s.fetches) && id in Step(c, s, e).fetches
    ensures var f := Step(c, s, e).fetches[id];
      && Definitive(s, e) != Some(f.digest)
      && (if id in s.fetches then s.fetches[id] == f else f.cached == Cached(s.cache, f.digest))
  {
  }

  lemma CurrentNext<K(!new)>(c: Settings, es: seq<Event<K>>, e: Event<K>)
    requires Current(c, es) && SingleFlight(Run(c, es)) && (e.Call? ==> e.id !in Run(c, es).fetches)
    ensures Current(c, es + [e])
  {
    var s := Run(c, es);
    LatestNext(c, es, e, "");
    forall d | d in Run(c, es + [e]).cache ensures Latest(c, es + [e], d) == Some(Run(c, es + [e]).cache[d]) {
      LatestNext(c, es, e, d);
      CacheAfter(c, s, e, d);
    }
    forall id | id in Run(c, es + [e]).fetches && Run(c, es + [e]).fetches[id].cached.Some?
      ensures Latest(c, es + [e], Run(c, es + [e]).fetches[id].digest) == Run(c, es + [e]).fetches[id].cached
    {
      LatestNext(c, es, e, Run(c, es + [e]).fetches[id].digest);
      FetchAfter(c, s, e, id);
    }
  }

  lemma {:induction false} AlwaysCurrent<K(!new)>(c: Settings, es: seq<Event<K>>)
    requires Named(es)
    ensures Current(c, es)
    decreases |es|
  {
    if es == [] {
    } else {
      var n := |es| - 1;
      AlwaysCurrent(c, es[..n]);
      OneFetchPerDigest(c, es[..n]);
      if es[n].Call? && es[n].id in Run(c, es[..n]).fetches {
        FetchesAreNamed(c, es[..n], es[n].id);
      }
      CurrentNext(c, es[..n], es[n]);
      assert es[..n] + [es[n]] == es;
    }
  }

  /** An answer from the cache is the last definitive reply for the digest and within its own lifetime. */
  lemma {:induction false} HitsAreFresh<K(!new)>(c: Settings, es: seq<Event<K>>, call: Event<K>)
    requires Named(es) && call.Call? && Started(c, Run(c, es), call).Hit?
    ensures var e := Started(c, Run(c, es), call).entry;
      && Latest(c, es, call.digest) == Some(e)
      && call.now - e.fetchedAt <= if e.active then c.ttl else c.negativeTtl
  {
    AlwaysCurrent(c, es);
  }

  /**
   A fetch answers a definitive reply that it just got, or, after a failed attempt, a positive one that is
   still the last definitive reply and was at most ttl + grace old when the fetching call started. So a
   positive reply is never served after a later negative one.
   */
  lemma {:induction false} FetchAnswers<K(!new)>(c: Settings, es: seq<Event<K>>, id: nat, reply: Option<Entry<K>>)
    requires Named(es) && id in Run(c, es).fetches
    ensures var f := Run(c, es).fetches[id]; var r := Result(c, f, reply);
      && (reply.Some? ==> r == reply)
      && (reply.None? && r.Some? ==>
            r.value.active && Latest(c, es, f.digest) == r && f.now - r.value.fetchedAt <= c.ttl + c.grace)
      && (reply.None? && r.None? ==> f.digest !in Step(c, Run(c, es), Reply(id, reply, f.now)).cache)
  {
    AlwaysCurrent(c, es);
  }

  /** A negative reply is the answer from then on, until it expires or a newer definitive reply comes. */
  lemma {:induction false} NegativeIsFinal<K(!new)>(c: Settings, es: seq<Event<K>>, d: Digest, now: real, id: nat)
    requires Named(es) && Latest(c, es, d).Some? && !Latest(c, es, d).value.active
    ensures var s := Run(c, es);
      && (Started(c, s, Call(d, now, id)).Hit? ==> !Started(c, s, Call(d, now, id)).entry.active)
      && (d in s.inflight ==> s.inflight[d] in s.fetches && Result(c, s.fetches[s.inflight[d]], None).None?)
  {
    AlwaysCurrent(c, es);
    OneFetchPerDigest(c, es);
    HitIsCached(c, Run(c, es), Call(d, now, id));
  }

  lemma HitIsCached<K>(c: Settings, s: State<K>, call: Event<K>)
    requires call.Call?
    ensures Started(c, s, call).Hit? ==> call.digest in s.cache && Started(c, s, call).entry == s.cache[call.digest]
  {
  }

  /** The cache never outgrows its bound. */
  lemma {:induction false} CacheBounded<K>(c: Settings, es: seq<Event<K>>)
    ensures |Run(c, es).cache| <= 4096
    decreases |es|
  {
    if es == [] {
    } else {
      var before, e := es[..|es| - 1], es[|es| - 1];
      CacheBounded(c, before);
      var s := Run(c, before);
      if e.Reply? && e.id in s.fetches {
        var d := s.fetches[e.id].digest;
        OneKeyMore(Evicted(c, s.cache, e.now), d, e.reply);
        FewerKeys(s.cache, d);
      }
    }
  }

  lemma OneKeyMore<K>(m: map<Digest, Entry<K>>, d: Digest, e: Option<Entry<K>>)
    ensures e.Some? ==> |m[d := e.value]| <= |m| + 1
  {
    if e.Some? { assert m[d := e.value].Keys == m.Keys + {d}; }
  }

  lemma FewerKeys<K>(m: map<Digest, Entry<K>>, d: Digest)
    ensures |m - {d}| <= |m|
  {
    assert (m - {d}).Keys == m.Keys - {d};
  }

  // ---- what stays in the cache ----

  /** The entry is within its own lifetime at `now`. */
  ghost predicate Alive<K>(c: Settings, e: Entry<K>, now: real) {
    e.fetchedAt >= now - if e.active then c.ttl else c.negativeTtl
  }

  /** A call is answered from the cache if and only if its digest has an entry that is alive. */
  lemma HitIff<K>(c: Settings, s: State<K>, call: Event<K>)
    requires call.Call?
    ensures Started(c, s, call).Hit? <==> call.digest in s.cache && Alive(c, s.cache[call.digest], call.now)
  {
  }

  /** A definitive reply for another digest meets a full cache, and this entry is dead or too many are alive. */
  ghost predicate Displaced<K>(c: Settings, s: State<K>, e: Event<K>, d: Digest)
    requires d in s.cache
  {
    && e.Reply? && e.id in s.fetches && e.reply.Some? && |s.cache| >= 4096
    && (!Alive(c, s.cache[d], e.now) || |set x | x in s.cache && Alive(c, s.cache[x], e.now)| >= 4096)
  }

  /** A failed fetch of this digest found nothing to fall back on. */
  ghost predicate Dropped<K>(c: Settings, s: State<K>, e: Event<K>, d: Digest) {
    && e.Reply? && e.id in s.fetches && s.fetches[e.id].digest == d && e.reply.None?
    && Result(c, s.fetches[e.id], None).None?
  }

  /** An entry stays as it is until a definitive reply for its digest, a failed fetch, or an eviction. */
  lemma EntryStays<K>(c: Settings, s: State<K>, e: Event<K>, d: Digest)
    requires d in s.cache && Definitive(s, e) != Some(d)
    ensures d in Step(c, s, e).cache <==> !Displaced(c, s, e, d) && !Dropped(c, s, e, d)
    ensures d in Step(c, s, e).cache ==> Step(c, s, e).cache[d] == s.cache[d]
  {
    if e.Reply? && e.id in s.fetches && e.reply.Some? && |s.cache| >= CACHE_MAX {
      var kept := map x | x in s.cache && Fresh(c, s.cache[x], e.now) :: s.cache[x];
      assert kept.Keys == set x | x in s.cache && Alive(c, s.cache[x], e.now);
    }
  }

  /** A flight lasts until its fetch is answered, fails or is cancelled; only a call that fetches starts one. */
  lemma FlightLasts<K>(c: Settings, s: State<K>, e: Event<K>, d: Digest)
    requires SingleFlight(s)
    ensures d in Step(c, s, e).inflight <==>
      if e.Call? then d in s.inflight || (d == e.digest && !(d in s.cache && Alive(c, s.cache[d], e.now)))
      else d in s.inflight && s.inflight[d] != e.id
    ensures d in s.inflight && d in Step(c, s, e).inflight ==> Step(c, s, e).inflight[d] == s.inflight[d]
    ensures e.Abort? ==> Step(c, s, e).cache == s.cache
  {
  }

  // ---- calls that join a fetch ----

  /** Event k is the call that started the fetch: it read its clock, and what was cached, then. */
  ghost predicate StartedAt<K>(c: Settings, es: seq<Event<K>>, k: nat, id: nat) {
    && k < |es| && es[k].Call? && es[k].id == id && id in Run(c, es).fetches
    && Started(c, Run(c, es[..k]), es[k]).Fetching?
    && Run(c, es).fetches[id] == Fetch(es[k].digest, es[k].now, Cached(Run(c, es[..k]).cache, es[k].digest))
  }

  /** Every running fetch was started by some call. */
  lemma {:induction false} FetchWasStarted<K>(c: Settings, es: seq<Event<K>>, id: nat)
    requires id in Run(c, es).fetches
    ensures exists k: nat :: StartedAt(c, es, k, id)
    decreases |es|
  {
    var n := |es| - 1;
    if id in Run(c, es[..n]).fetches && Run(c, es).fetches[id] == Run(c, es[..n]).fetches[id] {
      FetchWasStarted(c, es[..n], id);
      var k: nat :| StartedAt(c, es[..n], k, id);
      assert es[..n][..k] == es[..k];
      assert StartedAt(c, es, k, id);
    } else {
      assert StartedAt(c, es, n, id);
    }
  }

  /**
   A failing fetch answers what was cached when it started if and only if that was positive and its grace period
   had not ended by then.
   */
  lemma StaleIff<K>(c: Settings, es: seq<Event<K>>, k: nat, id: nat)
    requires StartedAt(c, es, k, id)
    ensures Result(c, Run(c, es).fetches[id], None).Some? <==>
      var cache := Run(c, es[..k]).cache;
      && es[k].digest in cache && cache[es[k].digest].active
      && es[k].now <= cache[es[k].digest].fetchedAt + c.ttl + c.grace
  {
  }

  /** What a fetch falls back on is fixed when it starts. */
  lemma {:induction false} FetchStays<K>(c: Settings, es: seq<Event<K>>, later: seq<Event<K>>, id: nat)
    requires es <= later && Named(later) && id in Run(c, es).fetches && id in Run(c, later).fetches
    ensures Run(c, later).fetches[id] == Run(c, es).fetches[id]
    decreases |later|
  {
    if |later| == |es| {
      assert later == es;
    } else {
      var n := |later| - 1;
      FetchesAreNamed(c, es, id);
      var i :| 0 <= i < |es| && es[i].Call? && es[i].id == id;
      assert later[i] == es[i];
      assert !(later[n].Call? && later[n].id == id);
      assert es <= later[..n];
      FetchStays(c, es, later[..n], id);
    }
  }

  /** A call that joins is given the fetch of its own digest. */
  lemma JoinedFetch<K>(c: Settings, s: State<K>, call: Event<K>)
    requires SingleFlight(s) && call.Call? && Started(c, s, call).Joined?
    ensures var j := Started(c, s, call).id; j in s.fetches && s.fetches[j].digest == call.digest
  {
  }

  /**
   The bound on a stale answer is counted from the call that fetches. If the fetch fails, whenever that is, a call
   that joined it is given an entry older than ttl + grace at its own start if and only if the digest was cached
   when the fetch started, its last definitive reply is positive, and the grace period of that reply ended
   between the start of the fetch and the start of the joining call. In any case the entry is at most as much
   older as the fetch had been running.
   */
  lemma {:induction false} JoinerOutlivesGraceIff<K(!new)>(c: Settings, es: seq<Event<K>>, call: Event<K>,
                                                          later: seq<Event<K>>, k: nat)
    requires es <= later && Named(later) && call.Call? && Started(c, Run(c, es), call).Joined?
    requires var j := Started(c, Run(c, es), call).id; StartedAt(c, es, k, j) && j in Run(c, later).fetches
    ensures var j := Started(c, Run(c, es), call).id;
      var latest := Latest(c, es, call.digest);
      var given := Result(c, Run(c, later).fetches[j], None);
      && es[k].digest == call.digest
      && ((given.Some? && call.now - given.value.fetchedAt > c.ttl + c.grace)
          <==>
          (call.digest in Run(c, es[..k]).cache && latest.Some? && latest.value.active
           && es[k].now <= latest.value.fetchedAt + c.ttl + c.grace < call.now))
      && (given.Some? ==>
            given == latest && call.now - given.value.fetchedAt <= c.ttl + c.grace + (call.now - es[k].now))
  {
    assert Named(es);
    OneFetchPerDigest(c, es);
    AlwaysCurrent(c, es);
    JoinedFetch(c, Run(c, es), call);
    FetchStays(c, es, later, Started(c, Run(c, es), call).id);
  }

  /** So a joining call can be given an entry older than ttl + grace at its own start: here by half a second. */
  lemma JoinerOutlivesGrace()
    ensures var c := Settings(60.0, 15.0, 300.0);
      var es := [Call("d", 0.0, 0), Reply(0, Some(Entry(true, 0.0, "key")), 0.0), Call("d", 360.0, 1)];
      var s, join := Run(c, es), Call("d", 360.5, 2);
      && Named(es + [join]) && Started(c, s, join) == Joined(1) && 1 in s.fetches
      && Result(c, s.fetches[1], None) == Some(Entry(true, 0.0, "key")) && join.now - 0.0 > c.ttl + c.grace
  {
    var c := Settings(60.0, 15.0, 300.0);
    var e := Entry(true, 0.0, "key");
    var a, b, d := Call("d", 0.0, 0), Reply(0, Some(e), 0.0), Call("d", 360.0, 1);
    RunNext(c, [], a);
    RunNext(c, [a], b);
    RunNext(c, [a, b], d);
    assert [] + [a] == [a] && [a] + [b] == [a, b] && [a, b] + [d] == [a, b, d];
    assert Run(c, [a]) == State(map[], map["d" := 0], map[0 := Fetch("d", 0.0, None)]);
    assert Run(c, [a, b]) == State(map["d" := e], map[], map[]);
    assert Run(c, [a, b, d]) == State(map["d" := e], map["d" := 1], map[1 := Fetch("d", 360.0, Some(e))]);
  }

  lemma RunNext<K>(c: Settings, es: seq<Event<K>>, e: Event<K>)
    ensures Run(c, es + [e]) == Step(c, Run(c, es), e)
  {
    assert (es + [e])[..|es|] == es;
  }
}
