/**
 Policy templates compiled to selector terms (policy_templates.py). A selector orders the candidate routes:
 `argmax` by descending score, `prefer` by a stable partition of the inner order, `top_k` by truncation.
 The nested preferences the templates build mean one lexicographic order.
 */
module PolicySelectors {
  import opened Common
  import opened Text

  /** A route as the selector terms see it; `rank` is its intelligence rank. */
  datatype Candidate = Candidate(route: string, provider: string, breakerOpen: bool, rank: int, score: real)

  datatype Pred =
    | ProviderEq(provider: string)
    | BreakerOpen
    | RankLe(n: int)
    | Bot
    | Not(arg: Pred)
    | Or(args: seq<Pred>)

  datatype Selector = Argmax | Prefer(pred: Pred, inner: Selector) | TopK(k: nat, of: Selector)

  predicate Holds(p: Pred, c: Candidate) {
    match p
    case ProviderEq(provider) => c.provider == provider
    case BreakerOpen => c.breakerOpen
    case RankLe(n) => c.rank <= n
    case Bot => false
    case Not(arg) => !Holds(arg, c)
    case Or(args) => exists i :: 0 <= i < |args| && Holds(args[i], c)
  }

  /** The candidates that satisfy a predicate, or that do not, in their order. */
  function Keep(s: seq<Candidate>, p: Pred, wanted: bool): seq<Candidate> {
    if s == [] then [] else
      Keep(s[..|s| - 1], p, wanted) + if Holds(p, s[|s| - 1]) == wanted then [s[|s| - 1]] else []
  }

  /** The order a selector gives, from the order `argmax` gives. */
  function Rank(sel: Selector, ranked: seq<Candidate>): seq<Candidate> {
    match sel
    case Argmax => ranked
    case Prefer(p, inner) => var s := Rank(inner, ranked); Keep(s, p, true) + Keep(s, p, false)
    case TopK(k, of) => var s := Rank(of, ranked); if |s| <= k then s else s[..k]
  }

  // ---- the templates ----

  type Groups = seq<seq<string>>

  const DEFAULT_PROVIDER_ORDER: Groups :=
    [["openai_codex"], ["antseed"], ["bedrock", "bedrock_market"], ["openrouter", "openrouter_market"]]
  const AGENT_PROVIDER_ORDER: Groups :=
    [["openai_codex"], ["openai", "anthropic", "gemini", "bedrock", "bedrock_market"],
     ["openrouter", "openrouter_market"], ["antseed"]]
  const DEFAULT_QUALITY_TOP_N := 5
  const AGENT_TOP_K := 8

  /** `_or`. */
  function OrOf(parts: seq<Pred>): (r: Pred)
    ensures forall c :: Holds(r, c) <==> exists i :: 0 <= i < |parts| && Holds(parts[i], c)
  {
    if parts == [] then Bot
    else if |parts| == 1 then
      assert forall c :: Holds(parts[0], c) ==> exists i :: 0 <= i < |parts| && Holds(parts[i], c);
      parts[0]
    else Or(parts)
  }

  function GroupPred(group: seq<string>): (r: Pred)
    ensures forall c :: Holds(r, c) <==> c.provider in group
  {
    var parts := seq(|group|, i requires 0 <= i < |group| => ProviderEq(group[i]));
    assert forall c: Candidate, i :: 0 <= i < |group| ==> (Holds(parts[i], c) <==> c.provider == group[i]);
    OrOf(parts)
  }

  /** `_healthy_first`. */
  function HealthyFirst(sel: Selector): Selector { Prefer(Not(BreakerOpen), sel) }

  /** Prefer the first group, then the second, and so on. */
  function Ordered(order: Groups, inner: Selector): Selector {
    if order == [] then inner else Prefer(GroupPred(order[0]), Ordered(order[1..], inner))
  }

  /** `_ordered_provider_selector`: built from the last group outwards. */
  method OrderedProviderSelector(order: Groups, inner: Option<Selector>) returns (allowed: Pred, selector: Selector)
    ensures forall c :: Holds(allowed, c) <==> exists g :: 0 <= g < |order| && c.provider in order[g]
    ensures selector == Ordered(order, if inner.Some? then inner.value else Argmax)
  {
    var preds := [];
    for g := 0 to |order|
      invariant |preds| == g
      invariant forall i :: 0 <= i < g ==> preds[i] == GroupPred(order[i])
    {
      preds := preds + [GroupPred(order[g])];
    }
    selector := if inner.Some? then inner.value else Argmax;
    ghost var start := selector;
    var n := |preds|;
    while n > 0
      invariant 0 <= n <= |order|
      invariant selector == Ordered(order[n..], start)
    {
      n := n - 1;
      assert order[n..][1..] == order[n + 1..];
      selector := Prefer(preds[n], selector);
    }
    assert order[0..] == order;
    allowed := OrOf(preds);
    forall c ensures Holds(allowed, c) <==> exists g :: 0 <= g < |order| && c.provider in order[g] {
      assert forall g :: 0 <= g < |order| ==> (Holds(preds[g], c) <==> c.provider in order[g]);
    }
  }

  /** The selector of `_default`. */
  method DefaultSelector() returns (selector: Selector)
    ensures selector == DefaultTerm()
  {
    var _, inner := OrderedProviderSelector(DEFAULT_PROVIDER_ORDER, None);
    selector := Prefer(RankLe(DEFAULT_QUALITY_TOP_N), inner);
    selector := HealthyFirst(selector);
  }

  function DefaultTerm(): Selector {
    HealthyFirst(Prefer(RankLe(DEFAULT_QUALITY_TOP_N), Ordered(DEFAULT_PROVIDER_ORDER, Argmax)))
  }

  function AgentTerm(): Selector { TopK(AGENT_TOP_K, HealthyFirst(Ordered(AGENT_PROVIDER_ORDER, Argmax))) }

  /** The selector of `_agent`. */
  method AgentSelector() returns (selector: Selector)
    ensures selector == AgentTerm()
  {
    var _, inner := OrderedProviderSelector(AGENT_PROVIDER_ORDER, None);
    selector := TopK(AGENT_TOP_K, HealthyFirst(inner));
  }

  // ---- preferences are one sort key ----

  predicate Untruncated(sel: Selector) {
    match sel
    case Argmax => true
    case Prefer(_, inner) => Untruncated(inner)
    case TopK(_, _) => false
  }

  /** Was x put no later than y by `argmax`. */
  ghost predicate NoLater(ranked: seq<Candidate>, x: Candidate, y: Candidate) {
    exists i, j :: 0 <= i <= j < |ranked| && ranked[i] == x && ranked[j] == y
  }

  /** The order a nest of preferences stands for: outermost preference first, `argmax` order last. */
  ghost predicate Before(sel: Selector, ranked: seq<Candidate>, x: Candidate, y: Candidate) {
    match sel
    case Argmax => NoLater(ranked, x, y)
    case Prefer(p, inner) => if Holds(p, x) == Holds(p, y) then Before(inner, ranked, x, y) else Holds(p, x)
    case TopK(_, of) => Before(of, ranked, x, y)
  }

  ghost predicate Sorted(sel: Selector, ranked: seq<Candidate>, s: seq<Candidate>) {
    forall i, j :: 0 <= i < j < |s| ==> Before(sel, ranked, s[i], s[j])
  }

  lemma {:induction false} KeepMembers(s: seq<Candidate>, p: Pred, wanted: bool)
    ensures forall i :: 0 <= i < |Keep(s, p, wanted)| ==>
      Keep(s, p, wanted)[i] in s && Holds(p, Keep(s, p, wanted)[i]) == wanted
  {
    if s == [] {
    } else {
      KeepMembers(s[..|s| - 1], p, wanted);
    }
  }

  lemma {:induction false} KeepSplits(s: seq<Candidate>, p: Pred)
    ensures multiset(Keep(s, p, true)) + multiset(Keep(s, p, false)) == multiset(s)
  {
    if s == [] {
    } else {
      var front, last := s[..|s| - 1], s[|s| - 1];
      KeepSplits(front, p);
      AppendMultiset(s, front, last);
      KeepNext(s, p, true);
      KeepNext(s, p, false);
    }
  }

  lemma AppendMultiset(s: seq<Candidate>, front: seq<Candidate>, last: Candidate)
    requires s != [] && front == s[..|s| - 1] && last == s[|s| - 1]
    ensures multiset(s) == multiset(front) + multiset{last}
  {
    assert s == front + [last];
  }

  lemma KeepNext(s: seq<Candidate>, p: Pred, wanted: bool)
    requires s != []
    ensures multiset(Keep(s, p, wanted)) == multiset(Keep(s[..|s| - 1], p, wanted))
      + if Holds(p, s[|s| - 1]) == wanted then multiset{s[|s| - 1]} else multiset{}
  {
  }

  lemma {:induction false} KeepSorted(sel: Selector, ranked: seq<Candidate>, s: seq<Candidate>, p: Pred, wanted: bool)
    requires Sorted(sel, ranked, s)
    ensures Sorted(sel, ranked, Keep(s, p, wanted))
  {
    if s == [] {
    } else {
      var n := |s| - 1;
      KeepSorted(sel, ranked, s[..n], p, wanted);
      KeepMembers(s[..n], p, wanted);
      var kept := Keep(s[..n], p, wanted);
      forall i | 0 <= i < |kept| ensures Before(sel, ranked, kept[i], s[n]) {
        assert kept[i] in s[..n];
      }
    }
  }

  /** A stable partition refines the order it is applied to. */
  lemma {:induction false} RankSorted(sel: Selector, ranked: seq<Candidate>)
    requires Untruncated(sel)
    ensures Sorted(sel, ranked, Rank(sel, ranked)) && multiset(Rank(sel, ranked)) == multiset(ranked)
    decreases sel
  {
    if sel.Prefer? {
      RankSorted(sel.inner, ranked);
      var s := Rank(sel.inner, ranked);
      KeepSplits(s, sel.pred);
      KeepSorted(sel.inner, ranked, s, sel.pred, true);
      KeepSorted(sel.inner, ranked, s, sel.pred, false);
      KeepMembers(s, sel.pred, true);
      KeepMembers(s, sel.pred, false);
    }
  }

  lemma {:induction false} BeforeBoth(sel: Selector, ranked: seq<Candidate>, x: Candidate, y: Candidate)
    requires Distinct(ranked) && Before(sel, ranked, x, y) && Before(sel, ranked, y, x)
    ensures x == y
    decreases sel
  {
    match sel
    case Argmax =>
    case Prefer(_, inner) => BeforeBoth(inner, ranked, x, y);
    case TopK(_, of) => BeforeBoth(of, ranked, x, y);
  }

  lemma SameFirst(sel: Selector, ranked: seq<Candidate>, a: seq<Candidate>, b: seq<Candidate>)
    requires Distinct(ranked) && multiset(a) == multiset(b) && Sorted(sel, ranked, a) && Sorted(sel, ranked, b)
    requires a != [] && b != []
    ensures a[0] == b[0]
  {
    assert a[0] in multiset(b) && b[0] in multiset(a);
    var i :| 0 <= i < |a| && a[i] == b[0];
    var j :| 0 <= j < |b| && b[j] == a[0];
    if i > 0 && j > 0 {
      assert Before(sel, ranked, a[0], a[i]) && Before(sel, ranked, b[0], b[j]);
      BeforeBoth(sel, ranked, a[0], b[0]);
    }
  }

  lemma RestMultiset(a: seq<Candidate>)
    requires a != []
    ensures multiset(a[1..]) == multiset(a) - multiset{a[0]}
  {
    assert a == [a[0]] + a[1..];
  }

  /** Only one permutation is sorted, so the sort key says everything. */
  lemma {:induction false} SortedUnique(sel: Selector, ranked: seq<Candidate>, a: seq<Candidate>, b: seq<Candidate>)
    requires Distinct(ranked) && multiset(a) == multiset(b) && Sorted(sel, ranked, a) && Sorted(sel, ranked, b)
    ensures a == b
    decreases |a|
  {
    assert |multiset(a)| == |a| && |multiset(b)| == |b|;
    if a == [] {
    } else {
      SameFirst(sel, ranked, a, b);
      RestMultiset(a);
      RestMultiset(b);
      SortedUnique(sel, ranked, a[1..], b[1..]);
      assert a == [a[0]] + a[1..] && b == [b[0]] + b[1..];
    }
  }

  // ---- provider groups ----

  /** No provider is in two groups. */
  ghost predicate Disjoint(order: Groups) {
    forall g, h :: 0 <= g < h < |order| ==> forall p :: !(p in order[g] && p in order[h])
  }

  /** All providers of all groups, in order. */
  function Flat(order: Groups): seq<string> {
    if order == [] then [] else Flat(order[..|order| - 1]) + order[|order| - 1]
  }

  lemma {:induction false} FlatHas(order: Groups, g: nat, p: string)
    requires g < |order| && p in order[g]
    ensures p in Flat(order)
    decreases |order|
  {
    if g < |order| - 1 { FlatHas(order[..|order| - 1], g, p); }
  }

  lemma Clash(front: seq<string>, group: seq<string>, p: string)
    requires p in front && p in group
    ensures !Distinct(front + group)
  {
    var i :| 0 <= i < |front| && front[i] == p;
    var k :| 0 <= k < |group| && group[k] == p;
    assert (front + group)[i] == (front + group)[|front| + k];
  }

  /** No repeated provider, no overlapping groups. */
  lemma {:induction false} FlatDistinct(order: Groups)
    requires Distinct(Flat(order))
    ensures Disjoint(order)
    decreases |order|
  {
    if order == [] {
    } else {
      var n := |order| - 1;
      var front := Flat(order[..n]);
      assert forall i :: 0 <= i < |front| ==> front[i] == Flat(order)[i];
      FlatDistinct(order[..n]);
      forall g, p | 0 <= g < n ensures !(p in order[g] && p in order[n]) {
        if p in order[g] {
          FlatHas(order[..n], g, p);
          if p in order[n] { Clash(front, order[n], p); }
        }
      }
    }
  }

  /** The group of a provider; unlisted providers come after all groups. */
  function GroupOf(order: Groups, provider: string): (g: nat)
    ensures g <= |order| && (g < |order| ==> provider in order[g])
    ensures forall h :: 0 <= h < g ==> provider !in order[h]
  {
    if order == [] || provider in order[0] then 0 else 1 + GroupOf(order[1..], provider)
  }

  /** Two providers are in the same groups. */
  ghost predicate SameGroups(order: Groups, p: string, q: string) {
    forall h :: 0 <= h < |order| ==> (p in order[h] <==> q in order[h])
  }

  lemma SameGroupsRest(order: Groups, p: string, q: string)
    requires order != []
    ensures SameGroups(order, p, q) <==> (p in order[0] <==> q in order[0]) && SameGroups(order[1..], p, q)
  {
    assert forall h :: 1 <= h < |order| ==> order[h] == order[1..][h - 1];
  }

  /** Among candidates of the same groups the groups decide nothing. */
  lemma {:induction false} SameGroupsDecideNothing(order: Groups, inner: Selector, ranked: seq<Candidate>, x: Candidate,
                                                   y: Candidate)
    requires SameGroups(order, x.provider, y.provider)
    ensures Before(Ordered(order, inner), ranked, x, y) <==> Before(inner, ranked, x, y)
    decreases |order|
  {
    if order == [] {
    } else {
      SameGroupsRest(order, x.provider, y.provider);
      SameGroupsDecideNothing(order[1..], inner, ranked, x, y);
    }
  }

  /** What the chain should mean for two candidates: the lower group number first, the inner order within a group. */
  ghost predicate ComparesGroups(order: Groups, inner: Selector, ranked: seq<Candidate>, x: Candidate, y: Candidate) {
    var gx, gy := GroupOf(order, x.provider), GroupOf(order, y.provider);
    Before(Ordered(order, inner), ranked, x, y) <==> if gx == gy then Before(inner, ranked, x, y) else gx < gy
  }

  /** It does if the two, being in the same first group, are in the same later groups as well. */
  lemma {:induction false} PairMeans(order: Groups, inner: Selector, ranked: seq<Candidate>, x: Candidate, y: Candidate)
    requires GroupOf(order, x.provider) == GroupOf(order, y.provider) ==> SameGroups(order, x.provider, y.provider)
    ensures ComparesGroups(order, inner, ranked, x, y)
    decreases |order|
  {
    if order == [] {
    } else {
      SameGroupsRest(order, x.provider, y.provider);
      if x.provider in order[0] && y.provider in order[0] {
        SameGroupsDecideNothing(order[1..], inner, ranked, x, y);
      } else if x.provider !in order[0] && y.provider !in order[0] {
        PairMeans(order[1..], inner, ranked, x, y);
      }
    }
  }

  /** The chain of provider preferences compares group numbers, because groups are disjoint. */
  lemma OrderedMeans(order: Groups, inner: Selector, ranked: seq<Candidate>, x: Candidate, y: Candidate)
    requires Disjoint(order)
    ensures ComparesGroups(order, inner, ranked, x, y)
  {
    if GroupOf(order, x.provider) == GroupOf(order, y.provider) {
      DisjointMeansSame(order, x.provider, y.provider);
    }
    PairMeans(order, inner, ranked, x, y);
  }

  lemma DisjointMeansSame(order: Groups, p: string, q: string)
    requires Disjoint(order) && GroupOf(order, p) == GroupOf(order, q)
    ensures SameGroups(order, p, q)
  {
    var g := GroupOf(order, p);
    forall h | 0 <= h < |order| ensures p in order[h] <==> q in order[h] {
      if g < h { assert p in order[g] && q in order[g]; }
    }
  }

  /** A group that tells two candidates apart decides between them, whatever order they come in. */
  lemma {:induction false} SomeGroupDecides(order: Groups, inner: Selector, r1: seq<Candidate>, r2: seq<Candidate>,
                                            x: Candidate, y: Candidate)
    requires !SameGroups(order, x.provider, y.provider)
    ensures Before(Ordered(order, inner), r1, x, y) <==> Before(Ordered(order, inner), r2, x, y)
    decreases |order|
  {
    SameGroupsRest(order, x.provider, y.provider);
    if x.provider in order[0] <==> y.provider in order[0] {
      SomeGroupDecides(order[1..], inner, r1, r2, x, y);
    }
  }

  /** Any two providers of one first group are in the same later groups. */
  ghost predicate Consistent(order: Groups) {
    forall p, q :: GroupOf(order, p) == GroupOf(order, q) ==> SameGroups(order, p, q)
  }

  /**
   For arbitrary groups, overlapping or not, the chain ranks by group number if and only if providers of one first
   group share their later groups too. Disjoint groups, which is what is accepted, always do.
   */
  lemma GroupRankIff(order: Groups)
    ensures Consistent(order) <==> forall ranked, x, y :: ComparesGroups(order, Argmax, ranked, x, y)
  {
    if Consistent(order) {
      forall ranked, x, y ensures ComparesGroups(order, Argmax, ranked, x, y) {
        PairMeans(order, Argmax, ranked, x, y);
      }
    } else {
      var p, q :| GroupOf(order, p) == GroupOf(order, q) && !SameGroups(order, p, q);
      var x, y := Candidate("1", p, false, 1, 1.0), Candidate("2", q, false, 1, 1.0);
      SomeGroupDecides(order, Argmax, [x, y], [y, x], x, y);
      assert NoLater([x, y], x, y) by { assert [x, y][0] == x && [x, y][1] == y; }
      assert !NoLater([y, x], x, y);
      assert !(ComparesGroups(order, Argmax, [x, y], x, y) && ComparesGroups(order, Argmax, [y, x], x, y));
    }
  }

  /** `argmax` order: descending score, each route once. */
  ghost predicate ArgmaxOrder(cs: seq<Candidate>, ranked: seq<Candidate>) {
    && multiset(ranked) == multiset(cs) && Distinct(ranked)
    && forall i, j :: 0 <= i < j < |ranked| ==> ranked[i].score >= ranked[j].score
  }

  /** Such an order exists for any candidates. */
  lemma {:induction false} ArgmaxExists(cs: seq<Candidate>) returns (ranked: seq<Candidate>)
    requires Distinct(cs)
    ensures ArgmaxOrder(cs, ranked)
    decreases |cs|
  {
    if cs == [] {
      ranked := [];
    } else {
      var front, last := cs[..|cs| - 1], cs[|cs| - 1];
      var rest := ArgmaxExists(front);
      LastIsNew(cs, front, last);
      ranked := InsertByScore(rest, last);
    }
  }

  lemma LastIsNew(cs: seq<Candidate>, front: seq<Candidate>, last: Candidate)
    requires Distinct(cs) && cs != [] && front == cs[..|cs| - 1] && last == cs[|cs| - 1]
    ensures last !in front && multiset(cs) == multiset(front) + multiset{last}
  {
    AppendMultiset(cs, front, last);
  }

  ghost predicate Descending(s: seq<Candidate>) {
    forall i, j :: 0 <= i < j < |s| ==> s[i].score >= s[j].score
  }

  lemma HeadFirst(head: Candidate, rest: seq<Candidate>)
    requires Descending(rest) && Distinct(rest)
    requires forall k :: 0 <= k < |rest| ==> rest[k] != head && head.score >= rest[k].score
    ensures Descending([head] + rest) && Distinct([head] + rest)
    ensures multiset([head] + rest) == multiset{head} + multiset(rest)
  {
  }

  lemma TailToo(s: seq<Candidate>)
    requires Descending(s) && Distinct(s) && s != []
    ensures s == [s[0]] + s[1..] && Descending(s[1..]) && Distinct(s[1..])
    ensures multiset(s) == multiset{s[0]} + multiset(s[1..])
  {
    assert s == [s[0]] + s[1..];
  }

  lemma {:induction false} InsertByScore(s: seq<Candidate>, c: Candidate) returns (r: seq<Candidate>)
    requires Descending(s) && Distinct(s) && c !in multiset(s)
    ensures Descending(r) && Distinct(r) && multiset(r) == multiset(s) + multiset{c}
    decreases |s|
  {
    if s == [] {
      r := [c];
    } else if c.score >= s[0].score {
      forall k | 0 <= k < |s| ensures s[k] != c && c.score >= s[k].score { assert s[k] in multiset(s); }
      HeadFirst(c, s);
      r := [c] + s;
    } else {
      var head, tail := s[0], s[1..];
      TailToo(s);
      var rest := InsertByScore(tail, c);
      forall k | 0 <= k < |rest| ensures rest[k] != head && head.score >= rest[k].score {
        InRest(head, tail, c, rest, k);
      }
      HeadFirst(head, rest);
      r := [head] + rest;
    }
  }

  lemma InRest(head: Candidate, tail: seq<Candidate>, c: Candidate, rest: seq<Candidate>, k: nat)
    requires Descending([head] + tail) && Distinct([head] + tail) && c != head && c.score <= head.score
    requires multiset(rest) == multiset(tail) + multiset{c} && k < |rest|
    ensures rest[k] != head && head.score >= rest[k].score
  {
    assert rest[k] in multiset(rest);
    if rest[k] != c {
      assert rest[k] in tail;
      var i :| 0 <= i < |tail| && tail[i] == rest[k];
      assert ([head] + tail)[0] == head && ([head] + tail)[i + 1] == tail[i];
    }
  }

  predicate InTop(top: Option<int>, c: Candidate) { top.None? || c.rank <= top.value }

  /** (breaker open, outside the top, group, descending score), ties as `argmax` left them. */
  ghost predicate Precedes(top: Option<int>, order: Groups, ranked: seq<Candidate>, x: Candidate, y: Candidate) {
    var gx, gy := GroupOf(order, x.provider), GroupOf(order, y.provider);
    if x.breakerOpen != y.breakerOpen then y.breakerOpen
    else if InTop(top, x) != InTop(top, y) then InTop(top, x)
    else if gx != gy then gx < gy
    else x.score >= y.score && NoLater(ranked, x, y)
  }

  ghost predicate InOrder(top: Option<int>, order: Groups, ranked: seq<Candidate>, s: seq<Candidate>) {
    forall i, j :: 0 <= i < j < |s| ==> Precedes(top, order, ranked, s[i], s[j])
  }

  function Term(top: Option<int>, order: Groups): Selector {
    var inner := Ordered(order, Argmax);
    HealthyFirst(if top.Some? then Prefer(RankLe(top.value), inner) else inner)
  }

  lemma {:induction false} OrderedUntruncated(order: Groups)
    ensures Untruncated(Ordered(order, Argmax))
    decreases |order|
  {
    if order == [] {
    } else {
      OrderedUntruncated(order[1..]);
    }
  }

  lemma NotOpen(c: Candidate)
    ensures Holds(Not(BreakerOpen), c) <==> !c.breakerOpen
  {
    assert Holds(BreakerOpen, c) == c.breakerOpen;
  }

  lemma TermMeans(top: Option<int>, order: Groups, cs: seq<Candidate>, ranked: seq<Candidate>, x: Candidate,
                  y: Candidate)
    requires Disjoint(order) && ArgmaxOrder(cs, ranked)
    ensures Before(Term(top, order), ranked, x, y) <==> Precedes(top, order, ranked, x, y)
  {
    OrderedMeans(order, Argmax, ranked, x, y);
    var inner := Ordered(order, Argmax);
    NotOpen(x);
    NotOpen(y);
    if top.Some? {
      assert Term(top, order).inner == Prefer(RankLe(top.value), inner);
    } else {
      assert Term(top, order).inner == inner;
    }
  }

  /** A template ranks the candidates by (breaker open, outside the top, provider group, descending score). */
  lemma TemplateSorted(top: Option<int>, order: Groups, cs: seq<Candidate>, ranked: seq<Candidate>)
    requires Disjoint(order) && ArgmaxOrder(cs, ranked)
    ensures var r := Rank(Term(top, order), ranked); multiset(r) == multiset(cs) && InOrder(top, order, ranked, r)
  {
    var sel := Term(top, order);
    OrderedUntruncated(order);
    RankSorted(sel, ranked);
    var r := Rank(sel, ranked);
    forall i, j | 0 <= i < j < |r| ensures Precedes(top, order, ranked, r[i], r[j]) {
      TermMeans(top, order, cs, ranked, r[i], r[j]);
    }
  }

  /** No other permutation of the candidates is in that order. */
  lemma TemplateUnique(top: Option<int>, order: Groups, cs: seq<Candidate>, ranked: seq<Candidate>, s: seq<Candidate>)
    requires Disjoint(order) && ArgmaxOrder(cs, ranked)
    requires multiset(s) == multiset(cs) && InOrder(top, order, ranked, s)
    ensures s == Rank(Term(top, order), ranked)
  {
    var sel := Term(top, order);
    OrderedUntruncated(order);
    RankSorted(sel, ranked);
    forall i, j | 0 <= i < j < |s| ensures Before(sel, ranked, s[i], s[j]) {
      TermMeans(top, order, cs, ranked, s[i], s[j]);
    }
    SortedUnique(sel, ranked, s, Rank(sel, ranked));
  }

  lemma Flat4(order: Groups)
    requires |order| == 4
    ensures Flat(order) == order[0] + order[1] + order[2] + order[3]
  {
    assert order[..3][..2] == order[..2] && order[..2][..1] == order[..1] && order[..1][..0] == [];
    assert Flat(order[..1]) == order[0];
    assert Flat(order[..2]) == order[0] + order[1];
    assert Flat(order[..3]) == order[0] + order[1] + order[2];
  }

  lemma DefaultGroupsDisjoint()
    ensures Disjoint(DEFAULT_PROVIDER_ORDER)
  {
    Flat4(DEFAULT_PROVIDER_ORDER);
    assert Flat(DEFAULT_PROVIDER_ORDER) ==
      ["openai_codex", "antseed", "bedrock", "bedrock_market", "openrouter", "openrouter_market"];
    FlatDistinct(DEFAULT_PROVIDER_ORDER);
  }

  /** Where the templates put each provider. */
  lemma DefaultGroupOf(provider: string)
    ensures GroupOf(DEFAULT_PROVIDER_ORDER, provider) ==
      if provider == "openai_codex" then 0
      else if provider == "antseed" then 1
      else if provider == "bedrock" || provider == "bedrock_market" then 2
      else if provider == "openrouter" || provider == "openrouter_market" then 3
      else 4
  {
    var order := DEFAULT_PROVIDER_ORDER;
    assert order[0] == ["openai_codex"] && order[1] == ["antseed"] && order[2] == ["bedrock", "bedrock_market"]
        && order[3] == ["openrouter", "openrouter_market"];
  }

  lemma AgentGroupOf(provider: string)
    ensures GroupOf(AGENT_PROVIDER_ORDER, provider) ==
      if provider == "openai_codex" then 0
      else if provider in ["openai", "anthropic", "gemini", "bedrock", "bedrock_market"] then 1
      else if provider == "openrouter" || provider == "openrouter_market" then 2
      else if provider == "antseed" then 3
      else 4
  {
    var order := AGENT_PROVIDER_ORDER;
    assert order[0] == ["openai_codex"] && order[1] == ["openai", "anthropic", "gemini", "bedrock", "bedrock_market"]
        && order[2] == ["openrouter", "openrouter_market"] && order[3] == ["antseed"];
  }

  lemma AgentGroupsDisjoint()
    ensures Disjoint(AGENT_PROVIDER_ORDER)
  {
    Flat4(AGENT_PROVIDER_ORDER);
    assert Flat(AGENT_PROVIDER_ORDER) == ["openai_codex", "openai", "anthropic", "gemini", "bedrock", "bedrock_market",
                                          "openrouter", "openrouter_market", "antseed"];
    FlatDistinct(AGENT_PROVIDER_ORDER);
  }

  /**
   The default template: a permutation of the candidates is its result if and only if it is ordered by
   (breaker open, outside the top five, provider group, descending score).
   */
  lemma DefaultRanks(cs: seq<Candidate>, ranked: seq<Candidate>, s: seq<Candidate>)
    requires ArgmaxOrder(cs, ranked)
    ensures s == Rank(DefaultTerm(), ranked) <==>
            multiset(s) == multiset(cs) && InOrder(Some(5), DEFAULT_PROVIDER_ORDER, ranked, s)
  {
    DefaultGroupsDisjoint();
    assert Term(Some(5), DEFAULT_PROVIDER_ORDER) == DefaultTerm();
    TemplateSorted(Some(5), DEFAULT_PROVIDER_ORDER, cs, ranked);
    if multiset(s) == multiset(cs) && InOrder(Some(5), DEFAULT_PROVIDER_ORDER, ranked, s) {
      TemplateUnique(Some(5), DEFAULT_PROVIDER_ORDER, cs, ranked, s);
    }
  }

  /** r is in order, and every candidate it leaves out comes after every one it keeps. */
  ghost predicate FirstOf(top: Option<int>, order: Groups, ranked: seq<Candidate>, cs: seq<Candidate>,
                          r: seq<Candidate>) {
    && InOrder(top, order, ranked, r) && multiset(r) <= multiset(cs)
    && forall x, i :: x in multiset(cs) - multiset(r) && 0 <= i < |r| ==> Precedes(top, order, ranked, r[i], x)
  }

  lemma CutMultiset(cs: seq<Candidate>, s: seq<Candidate>, k: nat)
    requires multiset(cs) == multiset(s) && k <= |s|
    ensures multiset(s[..k]) <= multiset(cs) && multiset(cs) - multiset(s[..k]) == multiset(s[k..]) && |cs| == |s|
  {
    assert s == s[..k] + s[k..];
    assert |multiset(cs)| == |cs| && |multiset(s)| == |s|;
  }

  lemma TailElement(s: seq<Candidate>, k: nat, x: Candidate) returns (j: nat)
    requires k <= |s| && x in multiset(s[k..])
    ensures k <= j < |s| && s[j] == x
  {
    var i :| 0 <= i < |s[k..]| && s[k..][i] == x;
    j := k + i;
  }

  lemma CutInOrder(top: Option<int>, order: Groups, ranked: seq<Candidate>, cs: seq<Candidate>, s: seq<Candidate>,
                   k: nat)
    requires InOrder(top, order, ranked, s) && k <= |s| && multiset(cs) == multiset(s)
    ensures FirstOf(top, order, ranked, cs, s[..k])
  {
    CutMultiset(cs, s, k);
    var r := s[..k];
    forall i, j | 0 <= i < j < |r| ensures Precedes(top, order, ranked, r[i], r[j]) {
      assert Precedes(top, order, ranked, s[i], s[j]);
    }
    forall x, i | x in multiset(cs) - multiset(r) && 0 <= i < |r| ensures Precedes(top, order, ranked, r[i], x) {
      var j := TailElement(s, k, x);
      assert Precedes(top, order, ranked, s[i], s[j]);
    }
  }

  /** `top_k` around a template keeps the first k. */
  lemma TopRanks(order: Groups, k: nat, cs: seq<Candidate>, ranked: seq<Candidate>)
    requires Disjoint(order) && ArgmaxOrder(cs, ranked)
    ensures var r := Rank(TopK(k, HealthyFirst(Ordered(order, Argmax))), ranked);
      |r| == (if |cs| <= k then |cs| else k) && FirstOf(None, order, ranked, cs, r)
  {
    TemplateSorted(None, order, cs, ranked);
    var s := Rank(Term(None, order), ranked);
    CutMultiset(cs, s, 0);
    var n := if |cs| <= k then |cs| else k;
    CutInOrder(None, order, ranked, cs, s, n);
    assert s[..|s|] == s;
    assert Rank(TopK(k, HealthyFirst(Ordered(order, Argmax))), ranked) == s[..n];
  }

  /**
   The agent template keeps the first eight: those kept are in order, and every candidate that is left out
   comes after every one that is kept.
   */
  lemma AgentRanks(cs: seq<Candidate>, ranked: seq<Candidate>)
    requires ArgmaxOrder(cs, ranked)
    ensures var r := Rank(AgentTerm(), ranked);
      |r| == (if |cs| <= 8 then |cs| else 8) && FirstOf(None, AGENT_PROVIDER_ORDER, ranked, cs, r)
  {
    AgentGroupsDisjoint();
    TopRanks(AGENT_PROVIDER_ORDER, AGENT_TOP_K, cs, ranked);
  }

  /** With a provider in two groups the chain no longer compares group numbers: b wins over a, both in group 0. */
  lemma OverlapBreaksOrder()
    ensures var a, b := Candidate("1", "a", false, 1, 2.0), Candidate("2", "b", false, 1, 1.0);
      var order := [["a", "b"], ["b"]];
      && GroupOf(order, "a") == GroupOf(order, "b") && Rank(Ordered(order, Argmax), [a, b]) == [b, a]
  {
    var a, b := Candidate("1", "a", false, 1, 2.0), Candidate("2", "b", false, 1, 1.0);
    var order := [["a", "b"], ["b"]];
    assert "b" in order[0] && order[1..] == [["b"]] && order[1..][1..] == [];
    KeepPair(a, b, GroupPred(["b"]));
    assert Rank(Ordered(order[1..], Argmax), [a, b]) == [b, a];
    KeepPair(b, a, GroupPred(["a", "b"]));
  }

  lemma KeepPair(x: Candidate, y: Candidate, p: Pred)
    ensures forall w ::
      Keep([x, y], p, w) == (if Holds(p, x) == w then [x] else []) + (if Holds(p, y) == w then [y] else [])
  {
    assert [x, y][..1] == [x] && [x][..0] == [];
    forall w ensures Keep([x], p, w) == if Holds(p, x) == w then [x] else [] {
      assert Keep([x][..0], p, w) == [];
    }
  }

  // ---- reading a provider order ----

  /** A provider entry: a string, or something else. */
  datatype Entry = Name(text: string) | Other

  /** One element of the array: a group, or a single entry standing for a group of one. */
  datatype RawGroup = Many(entries: seq<Entry>) | Single(entry: Entry)

  datatype RawOrder = Absent | NotArray | Array(groups: seq<RawGroup>)

  datatype OrderError =
    | NotANonEmptyArray
    | EmptyGroup(index: nat)
    | EmptyProvider(index: nat)
    | DuplicateProvider(name: string)

  datatype Parsed = Accepted(order: Groups) | Refused(error: OrderError)

  function EntriesOf(g: RawGroup): seq<Entry> { if g.Many? then g.entries else [g.entry] }

  function NameOf(e: Entry): string { if e.Name? then Strip(e.text) else "" }

  function NamesOf(g: RawGroup): seq<string> {
    seq(|EntriesOf(g)|, i requires 0 <= i < |EntriesOf(g)| => NameOf(EntriesOf(g)[i]))
  }

  function AllNames(groups: seq<RawGroup>): Groups {
    seq(|groups|, i requires 0 <= i < |groups| => NamesOf(groups[i]))
  }

  /** Every group has a provider, none is empty and none is named twice. */
  ghost predicate GoodOrder(order: Groups) {
    && Distinct(Flat(order))
    && forall g :: 0 <= g < |order| ==> order[g] != [] && "" !in order[g]
  }

  /** What is wrong with the first bad group. */
  ghost predicate Faulty(names: Groups, g: nat, error: OrderError)
    requires g < |names|
  {
    && GoodOrder(names[..g]) && !GoodOrder(names[..g + 1])
    && match error
       case NotANonEmptyArray => false
       case EmptyGroup(i) => i == g && names[g] == []
       case EmptyProvider(i) => i == g && "" in names[g]
       case DuplicateProvider(p) => p != "" && p in names[g] && !Distinct(Flat(names[..g]) + names[g])
  }

  /** One group, after the groups that hold the providers in `seen`. */
  method ParseGroup(ghost front: seq<string>, ghost names: seq<string>, seen0: set<string>, entries: seq<Entry>,
                    index: nat)
    returns (group: seq<string>, seen: set<string>, error: Option<OrderError>)
    requires Distinct(front) && (forall p :: p in seen0 <==> p in front)
    requires |names| == |entries| && forall i :: 0 <= i < |names| ==> names[i] == NameOf(entries[i])
    ensures error.None? <==> "" !in names && Distinct(front + names)
    ensures error.None? ==> group == names && forall p :: p in seen <==> p in front + names
    ensures (match error
             case Some(EmptyProvider(i)) => i == index && "" in names
             case Some(DuplicateProvider(p)) => p != "" && p in names && !Distinct(front + names)
             case Some(_) => false
             case None => true)
  {
    group, seen, error := [], seen0, None;
    for k := 0 to |entries|
      invariant group == names[..k] && "" !in group && Distinct(front + group)
      invariant forall p :: p in seen <==> p in front + group
    {
      var provider := NameOf(entries[k]);
      assert names[k] == provider && names[..k + 1] == group + [provider];
      if provider == "" { return group, seen, Some(EmptyProvider(index)); }
      if provider in seen {
        RepeatedName(front, names, k);
        return group, seen, Some(DuplicateProvider(provider));
      }
      assert front + (group + [provider]) == (front + group) + [provider];
      seen := seen + {provider};
      group := group + [provider];
    }
    assert names[..|names|] == names;
  }

  /** `_parse_provider_order`: the names as given if they are good, otherwise what is wrong with the first bad group. */
  method ParseProviderOrder(value: RawOrder) returns (r: Parsed)
    ensures value.Absent? ==> r == Accepted(DEFAULT_PROVIDER_ORDER)
    ensures value.NotArray? || value == Array([]) ==> r == Refused(NotANonEmptyArray)
    ensures value.Array? && value.groups != [] && GoodOrder(AllNames(value.groups)) ==>
      r == Accepted(AllNames(value.groups))
    ensures value.Array? && value.groups != [] && !GoodOrder(AllNames(value.groups)) ==>
      r.Refused? && exists g :: 0 <= g < |value.groups| && Faulty(AllNames(value.groups), g, r.error)
  {
    if value.Absent? { return Accepted(DEFAULT_PROVIDER_ORDER); }
    if value.NotArray? || value.groups == [] { return Refused(NotANonEmptyArray); }
    ghost var names := AllNames(value.groups);
    var groups: Groups := [];
    var seen: set<string> := {};
    for index := 0 to |value.groups|
      invariant groups == names[..index] && GoodOrder(groups)
      invariant forall p :: p in seen <==> p in Flat(groups)
    {
      var entries := EntriesOf(value.groups[index]);
      NextGroup(names, index);
      if entries == [] {
        assert Faulty(names, index, EmptyGroup(index));
        return Refused(EmptyGroup(index));
      }
      var group, error;
      group, seen, error := ParseGroup(Flat(groups), names[index], seen, entries, index);
      if error.Some? {
        assert Faulty(names, index, error.value);
        return Refused(error.value);
      }
      groups := groups + [group];
    }
    assert names[..|names|] == names;
    r := Accepted(groups);
  }

  /** Adding a group to good groups, and what that says about the whole order. */
  lemma NextGroup(names: Groups, g: nat)
    requires g < |names| && GoodOrder(names[..g])
    ensures names[..g + 1] == names[..g] + [names[g]] && Flat(names[..g + 1]) == Flat(names[..g]) + names[g]
    ensures GoodOrder(names[..g + 1]) <==> names[g] != [] && "" !in names[g] && Distinct(Flat(names[..g]) + names[g])
    ensures !GoodOrder(names[..g + 1]) ==> !GoodOrder(names)
  {
    assert names[..g + 1] == names[..g] + [names[g]];
    FlatNext(names[..g], names[g]);
    assert forall i :: 0 <= i < g ==> names[..g + 1][i] == names[..g][i];
    assert names[..g + 1][g] == names[g];
    if !GoodOrder(names[..g + 1]) { BadPrefix(names, g); }
  }

  lemma FlatNext(groups: Groups, group: seq<string>)
    ensures Flat(groups + [group]) == Flat(groups) + group
  {
    assert (groups + [group])[..|groups|] == groups;
  }

  lemma RepeatedName(front: seq<string>, group: seq<string>, k: nat)
    requires k < |group| && group[k] in front + group[..k]
    ensures !Distinct(front + group)
  {
    var i :| 0 <= i < |front| + k && (front + group[..k])[i] == group[k];
    assert (front + group)[i] == (front + group)[|front| + k];
  }

  /** A prefix that is not good spoils the whole order. */
  lemma BadPrefix(names: Groups, g: nat)
    requires g < |names| && !GoodOrder(names[..g + 1])
    ensures !GoodOrder(names)
  {
    if Distinct(Flat(names)) {
      FlatPrefix(names, g + 1);
    }
  }

  lemma {:induction false} FlatPrefix(names: Groups, g: nat)
    requires g <= |names| && Distinct(Flat(names))
    ensures Distinct(Flat(names[..g]))
    decreases |names|
  {
    if g == |names| {
      assert names[..g] == names;
    } else {
      var n := |names| - 1;
      var front := Flat(names[..n]);
      assert forall i :: 0 <= i < |front| ==> front[i] == Flat(names)[i];
      FlatPrefix(names[..n], g);
      assert names[..n][..g] == names[..g];
    }
  }

  /** Whatever order is accepted, its groups are disjoint, so the templates rank by group number. */
  lemma AcceptedRanks(order: Groups, cs: seq<Candidate>, ranked: seq<Candidate>, s: seq<Candidate>)
    requires GoodOrder(order) && ArgmaxOrder(cs, ranked)
    ensures s == Rank(HealthyFirst(Ordered(order, Argmax)), ranked) <==>
            multiset(s) == multiset(cs) && InOrder(None, order, ranked, s)
  {
    FlatDistinct(order);
    assert Term(None, order) == HealthyFirst(Ordered(order, Argmax));
    TemplateSorted(None, order, cs, ranked);
    if multiset(s) == multiset(cs) && InOrder(None, order, ranked, s) {
      TemplateUnique(None, order, cs, ranked, s);
    }
  }
}
