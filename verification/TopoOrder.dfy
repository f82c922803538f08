/**
 The schedule of a flow (flow_runner.py, `topo_order`): Kahn's algorithm with a sorted ready list over
 the pull edges `inputs`. Duplicate edges are allowed.
 */
module TopoOrder {
  import opened Common
  import opened NodeIds

  /** The node names in dictionary order, and the inputs of each node. */
  datatype Graph = Graph(ids: seq<Id>, inputs: map<Id, seq<Id>>)

  /** What admission guarantees: dictionary keys are distinct and every input names a node. */
  ghost predicate WellFormed(g: Graph) {
    && Distinct(g.ids)
    && (forall n :: n in g.ids <==> n in g.inputs)
    && (forall n, i :: n in g.inputs && 0 <= i < |g.inputs[n]| ==> g.inputs[n][i] in g.inputs)
  }

  // ---- what the schedule is: always the least ready node ----

  ghost predicate IsReady(g: Graph, done: set<Id>, n: Id) {
    n in g.inputs && n !in done && forall i :: 0 <= i < |g.inputs[n]| ==> g.inputs[n][i] in done
  }

  ghost function Ready(g: Graph, done: set<Id>): set<Id> {
    set n | n in g.inputs && IsReady(g, done, n)
  }

  ghost function Least(s: set<Id>): (x: Id)
    requires s != {}
    ensures IsLeast(s, x)
  {
    LeastExists(s);
    var x :| IsLeast(s, x);
    x
  }

  ghost function Greedy(g: Graph, done: set<Id>): seq<Id>
    decreases g.inputs.Keys - done
  {
    if Ready(g, done) == {} then [] else
      var x := Least(Ready(g, done));
      [x] + Greedy(g, done + {x})
  }

  ghost function Schedule(g: Graph): seq<Id> { Greedy(g, {}) }

  function Elements(s: seq<Id>): set<Id> { set x | x in s }

  // ---- the algorithm ----

  /** How often x occurs in s. */
  function Count(s: seq<Id>, x: Id): nat {
    if s == [] then 0 else Count(s[..|s| - 1], x) + if s[|s| - 1] == x then 1 else 0
  }

  lemma CountPrefix(s: seq<Id>, i: nat, x: Id)
    requires i < |s|
    ensures Count(s[..i + 1], x) == Count(s[..i], x) + if s[i] == x then 1 else 0
  {
    assert s[..i + 1][..i] == s[..i];
  }

  lemma CountAppend(s: seq<Id>, y: Id, x: Id)
    ensures Count(s + [y], x) == Count(s, x) + if y == x then 1 else 0
  {
    assert (s + [y])[..|s|] == s;
  }

  lemma {:induction false} CountMember(s: seq<Id>, x: Id)
    ensures Count(s, x) > 0 <==> x in s
  {
    if s == [] {
    } else {
      CountMember(s[..|s| - 1], x);
      assert s == s[..|s| - 1] + [s[|s| - 1]];
    }
  }

  lemma {:induction false} CountMonotone(s: seq<Id>, i: nat, x: Id)
    requires i <= |s|
    ensures Count(s[..i], x) <= Count(s, x)
    decreases |s| - i
  {
    if i < |s| {
      CountPrefix(s, i, x);
      CountMonotone(s, i + 1, x);
    } else {
      assert s[..i] == s;
    }
  }

  /** Input entries of a node that are not done yet; a duplicated edge counts as often as it occurs. */
  ghost function Open(ins: seq<Id>, done: set<Id>): nat {
    if ins == [] then 0 else Open(ins[..|ins| - 1], done) + if ins[|ins| - 1] in done then 0 else 1
  }

  lemma {:induction false} OpenAfter(ins: seq<Id>, done: set<Id>, x: Id)
    requires x !in done
    ensures Open(ins, done) == Open(ins, done + {x}) + Count(ins, x)
  {
    if ins == [] {
    } else {
      OpenAfter(ins[..|ins| - 1], done, x);
    }
  }

  lemma {:induction false} OpenNothing(ins: seq<Id>)
    ensures Open(ins, {}) == |ins|
  {
    if ins == [] {
    } else {
      OpenNothing(ins[..|ins| - 1]);
    }
  }

  lemma {:induction false} OpenZero(ins: seq<Id>, done: set<Id>)
    ensures Open(ins, done) == 0 <==> forall i :: 0 <= i < |ins| ==> ins[i] in done
  {
    if ins == [] {
    } else {
      OpenZero(ins[..|ins| - 1], done);
    }
  }

  /** `indeg` counts input entries and `succ` lists each edge backwards, for the nodes in `seen`. */
  ghost predicate EdgesOf(g: Graph, seen: set<Id>, indeg: map<Id, int>, succ: map<Id, seq<Id>>) {
    && indeg.Keys == g.inputs.Keys && succ.Keys == g.inputs.Keys
    && (forall n :: n in g.inputs ==> indeg[n] == if n in seen then |g.inputs[n]| else 0)
    && SuccOf(g, seen, succ)
  }

  ghost predicate SuccOf(g: Graph, seen: set<Id>, succ: map<Id, seq<Id>>) {
    forall a, b {:trigger Count(succ[a], b)} ::
      a in succ ==> Count(succ[a], b) == if b in seen && b in g.inputs then Count(g.inputs[b], a) else 0
  }

  /** `succ` is `succ0` with one entry nid for every entry of ins. */
  ghost predicate SuccGrown(succ0: map<Id, seq<Id>>, succ: map<Id, seq<Id>>, ins: seq<Id>, nid: Id) {
    && succ.Keys == succ0.Keys
    && forall a, b {:trigger Count(succ[a], b)} ::
         a in succ ==> Count(succ[a], b) == Count(succ0[a], b) + if b == nid then Count(ins, a) else 0
  }

  lemma SuccStart(succ0: map<Id, seq<Id>>, nid: Id)
    ensures SuccGrown(succ0, succ0, [], nid)
  {
    forall a ensures Count([], a) == 0 {}
  }

  lemma SuccGrows(succ0: map<Id, seq<Id>>, succ: map<Id, seq<Id>>, ins: seq<Id>, i: nat, nid: Id)
    requires i < |ins| && ins[i] in succ && SuccGrown(succ0, succ, ins[..i], nid)
    ensures SuccGrown(succ0, succ[ins[i] := succ[ins[i]] + [nid]], ins[..i + 1], nid)
  {
    var pre := ins[i];
    forall a, b | a in succ
      ensures Count(succ[pre := succ[pre] + [nid]][a], b) ==
        Count(succ0[a], b) + if b == nid then Count(ins[..i + 1], a) else 0
    {
      CountPrefix(ins, i, a);
      CountAppend(succ[pre], nid, b);
    }
  }

  method AddEdges(g: Graph, nid: Id, ghost seen: set<Id>, indeg0: map<Id, int>, succ0: map<Id, seq<Id>>)
    returns (indeg: map<Id, int>, succ: map<Id, seq<Id>>)
    requires WellFormed(g) && nid in g.inputs && nid !in seen && EdgesOf(g, seen, indeg0, succ0)
    ensures EdgesOf(g, seen + {nid}, indeg, succ)
  {
    var ins := g.inputs[nid];
    indeg, succ := indeg0, succ0;
    assert ins[..0] == [];
    SuccStart(succ0, nid);
    var i := 0;
    while i < |ins|
      invariant 0 <= i <= |ins|
      invariant indeg == indeg0[nid := i]
      invariant SuccGrown(succ0, succ, ins[..i], nid)
    {
      SuccGrows(succ0, succ, ins, i, nid);
      indeg := indeg[nid := indeg[nid] + 1];
      succ := succ[ins[i] := succ[ins[i]] + [nid]];
      i := i + 1;
    }
    assert ins[..i] == ins;
  }

  lemma NextId(g: Graph, k: nat)
    requires WellFormed(g) && k < |g.ids|
    ensures g.ids[k] in g.inputs && g.ids[k] !in Elements(g.ids[..k])
    ensures Elements(g.ids[..k + 1]) == Elements(g.ids[..k]) + {g.ids[k]}
  {
    assert g.ids[k] in g.ids;
    assert g.ids[..k + 1] == g.ids[..k] + [g.ids[k]];
  }

  lemma NoEdgesYet(g: Graph, indeg: map<Id, int>, succ: map<Id, seq<Id>>)
    requires indeg == map n | n in g.inputs :: 0
    requires succ == map n | n in g.inputs :: []
    ensures EdgesOf(g, {}, indeg, succ)
  {
    forall a, b | a in succ ensures Count(succ[a], b) == 0 {
      assert succ[a] == [];
    }
  }

  lemma AllIds(g: Graph)
    requires WellFormed(g)
    ensures Elements(g.ids) == g.inputs.Keys
  {
  }

  method Edges(g: Graph) returns (indeg: map<Id, int>, succ: map<Id, seq<Id>>)
    requires WellFormed(g)
    ensures EdgesOf(g, g.inputs.Keys, indeg, succ)
  {
    indeg := map n | n in g.inputs :: 0;
    succ := map n | n in g.inputs :: [];
    NoEdgesYet(g, indeg, succ);
    assert Elements(g.ids[..0]) == {};
    var k := 0;
    while k < |g.ids|
      invariant 0 <= k <= |g.ids|
      invariant EdgesOf(g, Elements(g.ids[..k]), indeg, succ)
    {
      NextId(g, k);
      indeg, succ := AddEdges(g, g.ids[k], Elements(g.ids[..k]), indeg, succ);
      k := k + 1;
    }
    assert g.ids[..k] == g.ids;
    AllIds(g);
  }

  /** A node is done: lower its successors; those that reach zero become ready, each listed once. */
  method Relax(succs: seq<Id>, indeg0: map<Id, int>) returns (indeg: map<Id, int>, newly: seq<Id>)
    requires forall b :: b in succs ==> b in indeg0
    requires forall b :: b in indeg0 ==> indeg0[b] >= Count(succs, b)
    ensures indeg.Keys == indeg0.Keys
    ensures forall b :: b in indeg0 ==> indeg[b] == indeg0[b] - Count(succs, b)
    ensures Distinct(newly)
    ensures forall b :: b in newly <==> b in indeg0 && Count(succs, b) > 0 && indeg0[b] == Count(succs, b)
  {
    indeg, newly := indeg0, [];
    var i := 0;
    while i < |succs|
      invariant 0 <= i <= |succs|
      invariant indeg.Keys == indeg0.Keys && Distinct(newly)
      invariant forall b :: b in indeg0 ==> indeg[b] == indeg0[b] - Count(succs[..i], b)
      invariant forall b :: b in newly <==> b in indeg0 && Count(succs[..i], b) > 0 && indeg0[b] == Count(succs[..i], b)
    {
      var b := succs[i];
      forall c ensures Count(succs[..i + 1], c) == Count(succs[..i], c) + if c == b then 1 else 0 {
        CountPrefix(succs, i, c);
      }
      CountMonotone(succs, i + 1, b);
      indeg := indeg[b := indeg[b] - 1];
      if indeg[b] == 0 {
        assert b !in newly;
        newly := newly + [b];
      }
      i := i + 1;
    }
    assert succs[..i] == succs;
  }

  /** The state of the scheduler between two nodes. */
  ghost predicate Scheduling(g: Graph, order: seq<Id>, indeg: map<Id, int>, queue: seq<Id>) {
    var done := Elements(order);
    && indeg.Keys == g.inputs.Keys
    && (forall n :: n in g.inputs ==> indeg[n] == Open(g.inputs[n], done))
    && IsQueue(g, done, queue)
    && Closed(g, done)
    && order + Greedy(g, done) == Schedule(g)
  }

  /** The ready nodes, sorted, each once. */
  ghost predicate IsQueue(g: Graph, done: set<Id>, queue: seq<Id>) {
    SortedIds(queue) && Distinct(queue) && forall n :: n in queue <==> IsReady(g, done, n)
  }

  ghost predicate Closed(g: Graph, done: set<Id>) {
    forall n, i :: n in done && n in g.inputs && 0 <= i < |g.inputs[n]| ==> g.inputs[n][i] in done
  }

  lemma QueueHeadIsLeast(g: Graph, order: seq<Id>, queue: seq<Id>)
    requires IsQueue(g, Elements(order), queue) && queue != []
    requires order + Greedy(g, Elements(order)) == Schedule(g)
    ensures IsReady(g, Elements(order), queue[0])
    ensures (order + [queue[0]]) + Greedy(g, Elements(order + [queue[0]])) == Schedule(g)
  {
    var done, x := Elements(order), queue[0];
    assert x in queue && x in Ready(g, done);
    forall y | y in Ready(g, done) ensures Le(x, y) {
      assert y in queue;
      var k :| 0 <= k < |queue| && queue[k] == y;
    }
    LeastUnique(Ready(g, done), x, Least(Ready(g, done)));
    assert Elements(order + [x]) == done + {x};
    assert (order + [x]) + Greedy(g, done + {x}) == order + ([x] + Greedy(g, done + {x}));
  }

  /** Which nodes become ready when x is done: exactly those whose open entries were all x. */
  lemma ReadyAfter(g: Graph, done: set<Id>, x: Id, n: Id)
    requires n in g.inputs && IsReady(g, done, x) && Closed(g, done)
    ensures IsReady(g, done + {x}, n) <==>
      (n != x && IsReady(g, done, n)) || (Count(g.inputs[n], x) > 0 && Open(g.inputs[n], done) == Count(g.inputs[n], x))
  {
    var ins := g.inputs[n];
    OpenAfter(ins, done, x);
    OpenZero(ins, done);
    OpenZero(ins, done + {x});
    CountMember(ins, x);
  }

  lemma SortedQueue(queue: seq<Id>, newly: seq<Id>)
    requires Distinct(queue) && Distinct(newly) && forall n :: n in queue ==> n !in newly
    ensures SortedIds(Sorted(queue + newly)) && Distinct(Sorted(queue + newly))
    ensures forall n :: n in Sorted(queue + newly) <==> n in queue || n in newly
  {
    var all := queue + newly;
    assert Distinct(all) by { DistinctConcat(queue, newly); }
    SortedSorts(all);
    SortedDistinct(all);
    forall n ensures n in Sorted(all) <==> n in queue || n in newly { SortedMember(all, n); }
  }

  lemma DistinctConcat(a: seq<Id>, b: seq<Id>)
    requires Distinct(a) && Distinct(b) && forall n :: n in a ==> n !in b
    ensures Distinct(a + b)
  {
    forall i, j | 0 <= i < j < |a + b| ensures (a + b)[i] != (a + b)[j] {
      if i < |a| <= j { assert a[i] in a && b[j - |a|] in b; }
    }
  }

  lemma SortedMember(s: seq<Id>, n: Id)
    ensures n in Sorted(s) <==> n in s
  {
    assert n in multiset(Sorted(s)) <==> n in multiset(s);
  }

  lemma SortedDistinct(s: seq<Id>)
    requires Distinct(s)
    ensures Distinct(Sorted(s))
  {
    DistinctCounts(s);
    CountsDistinct(Sorted(s));
  }

  lemma {:induction false} DistinctCounts(s: seq<Id>)
    requires Distinct(s)
    ensures forall x :: multiset(s)[x] <= 1
  {
    if s == [] {
    } else {
      DistinctCounts(s[1..]);
      assert s == [s[0]] + s[1..];
      assert s[0] !in s[1..];
    }
  }

  lemma CountsDistinct(s: seq<Id>)
    requires forall x :: multiset(s)[x] <= 1
    ensures Distinct(s)
  {
    forall i, j | 0 <= i < j < |s| ensures s[i] != s[j] {
      var a, b := s[..j], s[j..];
      assert s == a + b && multiset(s)[s[i]] == multiset(a)[s[i]] + multiset(b)[s[i]];
      assert a[i] in a && b[0] in b;
    }
  }

  /** `topo_order`. */
  method TopologicalOrder(g: Graph) returns (order: seq<Id>)
    requires WellFormed(g)
    ensures order == Schedule(g)
  {
    var indeg, succ := Edges(g);
    var roots := Roots(g, indeg);
    var queue := Sorted(roots);
    order := [];
    StartScheduling(g, indeg, roots);
    while queue != []
      invariant Scheduling(g, order, indeg, queue)
      invariant succ.Keys == g.inputs.Keys && SuccOf(g, g.inputs.Keys, succ)
      decreases g.inputs.Keys - Elements(order)
    {
      var nid := queue[0];
      RelaxReady(g, order, indeg, queue, succ);
      var indeg', newly := Relax(succ[nid], indeg);
      Continue(g, order, indeg, queue, succ[nid], indeg', newly);
      order := order + [nid];
      queue := queue[1..];
      if newly != [] {
        queue := Sorted(queue + newly);
      }
      indeg := indeg';
    }
    NothingReady(g, order, indeg);
  }

  lemma NothingReady(g: Graph, order: seq<Id>, indeg: map<Id, int>)
    requires Scheduling(g, order, indeg, [])
    ensures order == Schedule(g)
  {
    forall n ensures n !in Ready(g, Elements(order)) {
      assert n in [] <==> IsReady(g, Elements(order), n);
    }
    assert Ready(g, Elements(order)) == {};
    assert order + [] == order;
  }

  method Roots(g: Graph, indeg: map<Id, int>) returns (roots: seq<Id>)
    requires WellFormed(g) && indeg.Keys == g.inputs.Keys
    ensures Distinct(roots) && forall n :: n in roots <==> n in g.inputs && indeg[n] == 0
  {
    roots := [];
    var k := 0;
    while k < |g.ids|
      invariant 0 <= k <= |g.ids| && Distinct(roots)
      invariant forall n :: n in roots <==> n in g.ids[..k] && indeg[n] == 0
    {
      assert g.ids[..k + 1] == g.ids[..k] + [g.ids[k]];
      assert g.ids[k] !in g.ids[..k];
      if indeg[g.ids[k]] == 0 {
        roots := roots + [g.ids[k]];
      }
      k := k + 1;
    }
    assert g.ids[..k] == g.ids;
  }

  lemma StartScheduling(g: Graph, indeg: map<Id, int>, roots: seq<Id>)
    requires WellFormed(g) && indeg.Keys == g.inputs.Keys && Distinct(roots)
    requires forall n :: n in g.inputs ==> indeg[n] == |g.inputs[n]|
    requires forall n :: n in roots <==> n in g.inputs && indeg[n] == 0
    ensures Scheduling(g, [], indeg, Sorted(roots))
  {
    assert roots + [] == roots;
    SortedQueue(roots, []);
    assert Elements([]) == {};
    forall n | n in g.inputs ensures Open(g.inputs[n], {}) == |g.inputs[n]| { OpenNothing(g.inputs[n]); }
    assert [] + Greedy(g, {}) == Schedule(g);
  }

  lemma RelaxReady(g: Graph, order: seq<Id>, indeg: map<Id, int>, queue: seq<Id>, succ: map<Id, seq<Id>>)
    requires WellFormed(g) && Scheduling(g, order, indeg, queue) && queue != []
    requires succ.Keys == g.inputs.Keys && SuccOf(g, g.inputs.Keys, succ)
    ensures queue[0] in succ
    ensures forall b :: b in succ[queue[0]] ==> b in indeg
    ensures forall b :: b in indeg ==> Count(succ[queue[0]], b) == Count(g.inputs[b], queue[0])
    ensures forall b :: b in indeg ==> indeg[b] >= Count(succ[queue[0]], b)
  {
    QueueHeadIsLeast(g, order, queue);
    var nid := queue[0];
    forall b ensures Count(succ[nid], b) == if b in g.inputs then Count(g.inputs[b], nid) else 0 {}
    forall b | b in succ[nid] ensures b in indeg { CountMember(succ[nid], b); }
    forall b | b in indeg ensures indeg[b] >= Count(g.inputs[b], nid) { OpenAfter(g.inputs[b], Elements(order), nid); }
  }

  lemma Continue(g: Graph, order: seq<Id>, indeg: map<Id, int>, queue: seq<Id>, succs: seq<Id>, indeg': map<Id, int>,
                 newly: seq<Id>)
    requires Scheduling(g, order, indeg, queue) && queue != []
    requires forall b :: b in indeg ==> Count(succs, b) == Count(g.inputs[b], queue[0])
    requires indeg'.Keys == indeg.Keys && Distinct(newly)
    requires forall b :: b in indeg ==> indeg'[b] == indeg[b] - Count(succs, b)
    requires forall b :: b in newly <==> b in indeg && Count(succs, b) > 0 && indeg[b] == Count(succs, b)
    ensures Scheduling(g, order + [queue[0]], indeg', if newly != [] then Sorted(queue[1..] + newly) else queue[1..])
    ensures g.inputs.Keys - Elements(order + [queue[0]]) < g.inputs.Keys - Elements(order)
  {
    var x, done := queue[0], Elements(order);
    QueueHeadIsLeast(g, order, queue);
    assert Elements(order + [x]) == done + {x};
    forall n | n in g.inputs ensures indeg'[n] == Open(g.inputs[n], done + {x}) { OpenAfter(g.inputs[n], done, x); }
    NextQueue(g, done, indeg, queue, succs, newly);
    assert x in g.inputs.Keys - done && x !in g.inputs.Keys - (done + {x});
  }

  lemma NextQueue(g: Graph, done: set<Id>, indeg: map<Id, int>, queue: seq<Id>, succs: seq<Id>, newly: seq<Id>)
    requires indeg.Keys == g.inputs.Keys && forall n :: n in g.inputs ==> indeg[n] == Open(g.inputs[n], done)
    requires IsQueue(g, done, queue) && Closed(g, done) && queue != [] && IsReady(g, done, queue[0])
    requires forall b :: b in indeg ==> Count(succs, b) == Count(g.inputs[b], queue[0])
    requires Distinct(newly)
    requires forall b :: b in newly <==> b in indeg && Count(succs, b) > 0 && indeg[b] == Count(succs, b)
    ensures IsQueue(g, done + {queue[0]}, if newly != [] then Sorted(queue[1..] + newly) else queue[1..])
  {
    var x, rest := queue[0], queue[1..];
    forall n ensures n in rest || n in newly <==> IsReady(g, done + {x}, n) {
      assert n in rest <==> n in queue && n != x;
      if n in g.inputs { ReadyAfter(g, done, x, n); }
    }
    forall n | n in rest ensures n !in newly {
      assert n in queue;
      OpenZero(g.inputs[n], done);
    }
    SortedQueue(rest, newly);
  }

  // ---- what the schedule promises ----

  /** Every node comes after its inputs; nothing is listed twice. */
  ghost predicate InOrder(g: Graph, order: seq<Id>) {
    && Distinct(order)
    && (forall k :: 0 <= k < |order| ==> order[k] in g.inputs)
    && (forall k, i :: 0 <= k < |order| && order[k] in g.inputs && 0 <= i < |g.inputs[order[k]]|
         ==> g.inputs[order[k]][i] in order[..k])
  }

  ghost predicate IsTopological(g: Graph, order: seq<Id>) {
    InOrder(g, order) && forall n :: n in g.inputs ==> n in order
  }

  lemma {:induction false} GreedyFrom(g: Graph, prefix: seq<Id>)
    requires InOrder(g, prefix)
    ensures InOrder(g, prefix + Greedy(g, Elements(prefix)))
    ensures Ready(g, Elements(prefix + Greedy(g, Elements(prefix)))) == {}
    decreases g.inputs.Keys - Elements(prefix)
  {
    var done := Elements(prefix);
    if Ready(g, done) == {} {
      assert prefix + Greedy(g, done) == prefix;
    } else {
      var x := Least(Ready(g, done));
      var longer := prefix + [x];
      assert Elements(longer) == done + {x};
      assert prefix + Greedy(g, done) == longer + Greedy(g, done + {x});
      ExtendOrder(g, prefix, x);
      assert x in g.inputs.Keys - done && x !in g.inputs.Keys - (done + {x});
      GreedyFrom(g, longer);
    }
  }

  lemma ExtendOrder(g: Graph, prefix: seq<Id>, x: Id)
    requires InOrder(g, prefix) && IsReady(g, Elements(prefix), x)
    ensures InOrder(g, prefix + [x])
  {
    var longer := prefix + [x];
    forall k, i | 0 <= k < |longer| && longer[k] in g.inputs && 0 <= i < |g.inputs[longer[k]]|
      ensures g.inputs[longer[k]][i] in longer[..k]
    {
      if k < |prefix| {
        assert longer[..k] == prefix[..k];
        assert g.inputs[prefix[k]][i] in prefix[..k];
      } else {
        assert longer[..k] == prefix;
      }
    }
  }

  lemma ScheduleInOrder(g: Graph)
    ensures InOrder(g, Schedule(g))
    ensures Ready(g, Elements(Schedule(g))) == {}
  {
    GreedyFrom(g, []);
    assert Elements([]) == {};
    assert [] + Schedule(g) == Schedule(g);
  }

  // ---- it is the least of all topological orders ----

  /** The schedule is a prefix of itself: after the first i nodes the greedy choice goes on as from there. */
  lemma {:induction false} GreedySuffix(g: Graph, done: set<Id>, i: nat)
    requires i <= |Greedy(g, done)|
    ensures Greedy(g, done)[i..] == Greedy(g, done + Elements(Greedy(g, done)[..i]))
    decreases i
  {
    var s := Greedy(g, done);
    if i == 0 {
      assert done + Elements(s[..0]) == done;
    } else {
      var rest := Greedy(g, done + {s[0]});
      assert s == [s[0]] + rest;
      GreedySuffix(g, done + {s[0]}, i - 1);
      assert s[..i] == [s[0]] + rest[..i - 1] && s[i..] == rest[i - 1..];
      assert done + {s[0]} + Elements(rest[..i - 1]) == done + Elements(s[..i]);
    }
  }

  /** If any topological order exists, the schedule lists every node. */
  lemma ScheduleIsComplete(g: Graph, t: seq<Id>)
    requires IsTopological(g, t)
    ensures IsTopological(g, Schedule(g))
  {
    ScheduleInOrder(g);
    forall k | 0 <= k < |t| ensures t[k] in Schedule(g) { EveryNodeScheduled(g, t, k); }
  }

  lemma {:induction false} EveryNodeScheduled(g: Graph, t: seq<Id>, k: nat)
    requires IsTopological(g, t) && k < |t|
    requires Ready(g, Elements(Schedule(g))) == {}
    ensures t[k] in Schedule(g)
  {
    var done := Elements(Schedule(g));
    forall i | 0 <= i < |g.inputs[t[k]]| ensures g.inputs[t[k]][i] in done {
      assert g.inputs[t[k]][i] in t[..k];
      var m :| 0 <= m < k && t[..k][m] == g.inputs[t[k]][i];
      EveryNodeScheduled(g, t, m);
    }
    assert t[k] !in Ready(g, done);
  }

  /**
   The schedule of an acyclic graph is the lexicographically least of all its topological orders: any other
   one has a greater node where they first differ.
   */
  lemma LeastTopologicalOrder(g: Graph, t: seq<Id>)
    requires IsTopological(g, t)
    ensures IsTopological(g, Schedule(g))
    ensures |t| == |Schedule(g)|
    ensures t == Schedule(g) || exists i :: 0 <= i < |t| && t[..i] == Schedule(g)[..i] && Lt(Schedule(g)[i], t[i])
  {
    ScheduleIsComplete(g, t);
    var s := Schedule(g);
    SameLength(g, s, t);
    if t != s {
      var i := FirstDifference(s, t);
      var done := Elements(s[..i]);
      GreedySuffix(g, {}, i);
      assert {} + done == done;
      assert s[i..] == Greedy(g, done) && s[i..] != [];
      assert s[i] == s[i..][0] == Least(Ready(g, done));
      assert IsReady(g, done, t[i]);
      assert Le(s[i], t[i]);
    }
  }

  lemma SameLength(g: Graph, s: seq<Id>, t: seq<Id>)
    requires IsTopological(g, s) && IsTopological(g, t)
    ensures |s| == |t| == |g.inputs|
  {
    DistinctSize(s);
    DistinctSize(t);
    assert Elements(s) == g.inputs.Keys == Elements(t);
  }

  lemma {:induction false} DistinctSize(s: seq<Id>)
    requires Distinct(s)
    ensures |Elements(s)| == |s|
  {
    if s == [] {
    } else {
      var rest := s[..|s| - 1];
      DistinctSize(rest);
      assert s == rest + [s[|s| - 1]];
      assert Elements(s) == Elements(rest) + {s[|s| - 1]};
    }
  }

  lemma {:induction false} FirstDifference(s: seq<Id>, t: seq<Id>) returns (i: nat)
    requires |s| == |t| && s != t
    ensures i < |s| && s[..i] == t[..i] && s[i] != t[i]
  {
    if s[0] != t[0] {
      i := 0;
    } else {
      assert s == [s[0]] + s[1..] && t == [t[0]] + t[1..];
      var k := FirstDifference(s[1..], t[1..]);
      i := k + 1;
      assert s[..i] == [s[0]] + s[1..][..k] && t[..i] == [t[0]] + t[1..][..k];
    }
  }

  // ---- on any graph: exactly the nodes without a cyclic ancestor ----

  /** A chain of pull edges: each node is an input of the next. */
  ghost predicate Path(g: Graph, p: seq<Id>) {
    && |p| >= 1 && (forall i :: 0 <= i < |p| ==> p[i] in g.inputs)
    && (forall i :: 0 <= i < |p| - 1 ==> p[i] in g.inputs[p[i + 1]])
  }

  /** c lies on a cycle and reaches n (perhaps n itself). */
  ghost predicate CyclicVia(g: Graph, n: Id, cycle: seq<Id>, path: seq<Id>) {
    && Path(g, cycle) && |cycle| >= 2 && cycle[0] == cycle[|cycle| - 1]
    && Path(g, path) && path[0] == cycle[0] && path[|path| - 1] == n
  }

  ghost predicate HasCyclicAncestor(g: Graph, n: Id) {
    exists cycle, path :: CyclicVia(g, n, cycle, path)
  }

  /** Along a path that ends at a scheduled node, everything is scheduled, step by step earlier. */
  lemma {:induction false} PathStart(g: Graph, order: seq<Id>, p: seq<Id>, k: nat) returns (j: nat)
    requires InOrder(g, order) && Path(g, p) && k < |order| && order[k] == p[|p| - 1]
    ensures j < |order| && order[j] == p[0] && j + |p| - 1 <= k
    decreases |p|
  {
    if |p| == 1 {
      j := k;
    } else {
      var n := |p| - 2;
      assert p[n] in g.inputs[p[n + 1]];
      var i :| 0 <= i < |g.inputs[order[k]]| && g.inputs[order[k]][i] == p[n];
      assert p[n] in order[..k];
      var m :| 0 <= m < k && order[..k][m] == p[n];
      j := PathStart(g, order, p[..|p| - 1], m);
    }
  }

  lemma ScheduledHasNoCycle(g: Graph, n: Id, cycle: seq<Id>, path: seq<Id>)
    requires n in Schedule(g)
    ensures !CyclicVia(g, n, cycle, path)
  {
    if CyclicVia(g, n, cycle, path) {
      ScheduleInOrder(g);
      var k :| 0 <= k < |Schedule(g)| && Schedule(g)[k] == n;
      var a := PathStart(g, Schedule(g), path, k);
      var b := PathStart(g, Schedule(g), cycle, a);
    }
  }

  /** Walking backwards from an unscheduled node never has to leave the unscheduled nodes. */
  lemma {:induction false} BackwardWalk(g: Graph, done: set<Id>, n: Id, len: nat) returns (p: seq<Id>)
    requires WellFormed(g) && Ready(g, done) == {} && n in g.inputs && n !in done
    ensures Path(g, p) && |p| == len + 1 && p[len] == n && forall i :: 0 <= i < |p| ==> p[i] !in done
    decreases len
  {
    p := [n];
    if len == 0 {
    } else {
      assert n !in Ready(g, done);
      var i :| 0 <= i < |g.inputs[n]| && g.inputs[n][i] !in done;
      var q := BackwardWalk(g, done, g.inputs[n][i], len - 1);
      p := q + [n];
    }
  }

  lemma {:induction false} Pigeonhole(p: seq<Id>, s: set<Id>) returns (i: nat, j: nat)
    requires |p| > |s| && forall k :: 0 <= k < |p| ==> p[k] in s
    ensures i < j < |p| && p[i] == p[j]
    decreases |p|
  {
    var last := |p| - 1;
    if k :| 0 <= k < last && p[k] == p[last] {
      i, j := k, last;
    } else {
      i, j := Pigeonhole(p[..last], s - {p[last]});
    }
  }

  lemma UnscheduledHasCycle(g: Graph, n: Id)
    requires WellFormed(g) && n in g.inputs && n !in Schedule(g)
    ensures HasCyclicAncestor(g, n)
  {
    ScheduleInOrder(g);
    var p := BackwardWalk(g, Elements(Schedule(g)), n, |g.inputs|);
    var i, j := Pigeonhole(p, g.inputs.Keys);
    assert CyclicVia(g, n, p[i..j + 1], p[i..]);
  }

  /** On any graph the schedule lists, once each and after its inputs, exactly the nodes with no cyclic ancestor. */
  lemma ScheduledIff(g: Graph, n: Id)
    requires WellFormed(g)
    ensures InOrder(g, Schedule(g))
    ensures n in Schedule(g) <==> n in g.inputs && !HasCyclicAncestor(g, n)
  {
    ScheduleInOrder(g);
    if n in Schedule(g) {
      var k :| 0 <= k < |Schedule(g)| && Schedule(g)[k] == n;
      forall cycle, path ensures !CyclicVia(g, n, cycle, path) { ScheduledHasNoCycle(g, n, cycle, path); }
    } else if n in g.inputs {
      UnscheduledHasCycle(g, n);
    }
  }
}
