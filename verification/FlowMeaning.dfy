/**
 What a flow means: every node has a value that depends on its inputs' values only, found by recursion over
 the graph. Running the flow in any topological order computes exactly these values.
 */
module FlowMeaning {
  import opened Common
  import opened NodeIds
  import opened TopoOrder
  import opened FlowData
  import opened FlowRunner

  /** Inputs rank below the nodes that use them; an acyclic graph has such a ranking. */
  ghost predicate Ranked(flow: Flow, rank: map<Id, nat>) {
    && rank.Keys == flow.nodes.Keys
    && (forall n :: n in flow.nodes ==> Runnable(flow.nodes[n]))
    && forall n, i :: n in flow.nodes && 0 <= i < |flow.nodes[n].inputs| ==>
         flow.nodes[n].inputs[i] in flow.nodes && rank[flow.nodes[n].inputs[i]] < rank[n]
  }

  /** The value of a node, None if it or something it depends on fails. */
  ghost function Meaning(flow: Flow, w: World, start: map<Id, Out>, rank: map<Id, nat>, nid: Id): Option<Out>
    requires Ranked(flow, rank) && nid in flow.nodes
    decreases rank[nid], 1, 0
  {
    var node := flow.nodes[nid];
    if node.kind == Input then Some(OutOf(start, nid))
    else if node.kind == Output then Meaning(flow, w, start, rank, node.inputs[0])
    else
      var parts := Meanings(flow, w, start, rank, nid, |node.inputs|);
      if parts.None? then None else
        var a := NodeStep(w, nid, node, parts.value);
        if a.ok then Some(a.out) else None
  }

  /** The values of the first k inputs of a node, if they all have one. */
  ghost function Meanings(flow: Flow, w: World, start: map<Id, Out>, rank: map<Id, nat>, nid: Id,
                          k: nat): (r: Option<seq<Out>>)
    requires Ranked(flow, rank) && nid in flow.nodes && k <= |flow.nodes[nid].inputs|
    ensures r.Some? ==> |r.value| == k
    decreases rank[nid], 0, k
  {
    if k == 0 then Some([]) else
      var before := Meanings(flow, w, start, rank, nid, k - 1);
      var last := Meaning(flow, w, start, rank, flow.nodes[nid].inputs[k - 1]);
      if before.Some? && last.Some? then Some(before.value + [last.value]) else None
  }

  /** The meaning does not depend on the ranking. */
  lemma {:induction false} RankFree(flow: Flow, w: World, start: map<Id, Out>, r1: map<Id, nat>, r2: map<Id, nat>,
                                    nid: Id)
    requires Ranked(flow, r1) && Ranked(flow, r2) && nid in flow.nodes
    ensures Meaning(flow, w, start, r1, nid) == Meaning(flow, w, start, r2, nid)
    decreases r1[nid], 1, 0
  {
    var node := flow.nodes[nid];
    if node.kind == Output {
      RankFree(flow, w, start, r1, r2, node.inputs[0]);
    } else if node.kind != Input {
      RankFreeInputs(flow, w, start, r1, r2, nid, |node.inputs|);
    }
  }

  lemma {:induction false} RankFreeInputs(flow: Flow, w: World, start: map<Id, Out>, r1: map<Id, nat>,
                                          r2: map<Id, nat>, nid: Id, k: nat)
    requires Ranked(flow, r1) && Ranked(flow, r2) && nid in flow.nodes && k <= |flow.nodes[nid].inputs|
    ensures Meanings(flow, w, start, r1, nid, k) == Meanings(flow, w, start, r2, nid, k)
    decreases r1[nid], 0, k
  {
    if k == 0 {
    } else {
      RankFreeInputs(flow, w, start, r1, r2, nid, k - 1);
      RankFree(flow, w, start, r1, r2, flow.nodes[nid].inputs[k - 1]);
    }
  }

  // ---- the run against the meaning ----

  ghost predicate HasValue(flow: Flow, w: World, start: map<Id, Out>, rank: map<Id, nat>, nid: Id, v: Out)
    requires Ranked(flow, rank)
  {
    nid in flow.nodes && Meaning(flow, w, start, rank, nid) == Some(v)
  }

  /** The first k nodes of the order all have a value, and `out` holds it. */
  ghost predicate Agrees(flow: Flow, w: World, start: map<Id, Out>, rank: map<Id, nat>, order: seq<Id>, k: nat,
                         out: map<Id, Out>)
    requires Ranked(flow, rank) && k <= |order|
  {
    && (forall j :: 0 <= j < k ==> HasValue(flow, w, start, rank, order[j], OutOf(out, order[j])))
    && (forall n :: n !in order[..k] ==> OutOf(out, n) == OutOf(start, n))
  }

  /** The nodes that leave a trace entry, in order. */
  function TracedNodes(flow: Flow, order: seq<Id>): seq<Id> {
    if order == [] then [] else
      var last := order[|order| - 1];
      TracedNodes(flow, order[..|order| - 1]) + if last in flow.nodes && Traced(flow.nodes[last]) then [last] else []
  }

  function EntryNodes(trace: seq<Entry>): seq<Id> {
    if trace == [] then [] else EntryNodes(trace[..|trace| - 1]) + [trace[|trace| - 1].node]
  }

  /** Which state the run is in after k nodes, in terms of the meaning. */
  ghost predicate Explains(flow: Flow, w: World, start: map<Id, Out>, rank: map<Id, nat>, order: seq<Id>, k: nat,
                           s: State)
    requires Ranked(flow, rank) && k <= |order|
  {
    match s
    case Running(out, trace) =>
      Agrees(flow, w, start, rank, order, k, out) && EntryNodes(trace) == TracedNodes(flow, order[..k])
    case Stopped(node, error, trace) =>
      exists j :: 0 <= j < k && FirstFailure(flow, w, start, rank, order, j) && order[j] == node
        && EntryNodes(trace) == TracedNodes(flow, order[..j + 1]) && FailsFor(flow, w, start, rank, node, error)
  }

  /** The inputs of the node have values, and it fails on them with this error. */
  ghost predicate FailsFor(flow: Flow, w: World, start: map<Id, Out>, rank: map<Id, nat>, nid: Id, error: string)
    requires Ranked(flow, rank)
  {
    && nid in flow.nodes && Traced(flow.nodes[nid])
    && var parts := Meanings(flow, w, start, rank, nid, |flow.nodes[nid].inputs|);
       && parts.Some?
       && var a := NodeStep(w, nid, flow.nodes[nid], parts.value); !a.ok && a.error == error
  }

  /** order[j] has no value although everything before it has. */
  ghost predicate FirstFailure(flow: Flow, w: World, start: map<Id, Out>, rank: map<Id, nat>, order: seq<Id>, j: nat)
    requires Ranked(flow, rank)
  {
    && j < |order| && (forall i :: 0 <= i <= j ==> order[i] in flow.nodes)
    && Meaning(flow, w, start, rank, order[j]).None?
    && forall i :: 0 <= i < j ==> Meaning(flow, w, start, rank, order[i]).Some?
  }

  lemma AgreedValue(flow: Flow, w: World, start: map<Id, Out>, rank: map<Id, nat>, order: seq<Id>, k: nat,
                    out: map<Id, Out>, n: Id)
    requires Ranked(flow, rank) && k <= |order| && Agrees(flow, w, start, rank, order, k, out) && n in order[..k]
    ensures HasValue(flow, w, start, rank, n, OutOf(out, n))
  {
    var j :| 0 <= j < k && order[..k][j] == n;
    assert HasValue(flow, w, start, rank, order[j], OutOf(out, order[j]));
  }

  lemma PartsNext(out: map<Id, Out>, inputs: seq<Id>, m: nat)
    requires m < |inputs|
    ensures PartsOf(out, inputs[..m + 1]) == PartsOf(out, inputs[..m]) + [OutOf(out, inputs[m])]
  {
  }

  lemma {:induction false} PartsAreMeanings(flow: Flow, w: World, start: map<Id, Out>, rank: map<Id, nat>,
                                            order: seq<Id>, k: nat,
                                            out: map<Id, Out>, nid: Id, m: nat)
    requires Ranked(flow, rank) && k <= |order| && Agrees(flow, w, start, rank, order, k, out)
    requires nid in flow.nodes && m <= |flow.nodes[nid].inputs|
    requires forall i :: 0 <= i < m ==> flow.nodes[nid].inputs[i] in order[..k]
    ensures Meanings(flow, w, start, rank, nid, m) == Some(PartsOf(out, flow.nodes[nid].inputs[..m]))
  {
    var inputs := flow.nodes[nid].inputs;
    if m == 0 {
      assert PartsOf(out, inputs[..0]) == [];
    } else {
      PartsAreMeanings(flow, w, start, rank, order, k, out, nid, m - 1);
      AgreedValue(flow, w, start, rank, order, k, out, inputs[m - 1]);
      PartsNext(out, inputs, m - 1);
    }
  }

  /** The next node computes its meaning from what has been computed. */
  lemma NextNodeMeaning(flow: Flow, w: World, start: map<Id, Out>, rank: map<Id, nat>, order: seq<Id>, k: nat,
                        out: map<Id, Out>)
    requires Ranked(flow, rank) && InOrder(GraphOf(flow), order) && k < |order|
    requires Agrees(flow, w, start, rank, order, k, out)
    ensures order[k] in flow.nodes
    ensures var node := flow.nodes[order[k]];
      Meaning(flow, w, start, rank, order[k]) ==
        if node.kind == Input then Some(OutOf(start, order[k]))
        else if node.kind == Output then Some(OutOf(out, node.inputs[0]))
        else var a := NodeStep(w, order[k], node, PartsOf(out, node.inputs)); if a.ok then Some(a.out) else None
    ensures var inputs := flow.nodes[order[k]].inputs;
      Meanings(flow, w, start, rank, order[k], |inputs|) == Some(PartsOf(out, inputs))
  {
    var nid := order[k];
    var inputs := flow.nodes[nid].inputs;
    forall i | 0 <= i < |inputs| ensures inputs[i] in order[..k] {
      assert GraphOf(flow).inputs[nid][i] in order[..k];
    }
    PartsAreMeanings(flow, w, start, rank, order, k, out, nid, |inputs|);
    assert inputs[..|inputs|] == inputs;
    if flow.nodes[nid].kind == Output {
      AgreedValue(flow, w, start, rank, order, k, out, inputs[0]);
    }
  }

  lemma AgreesNext(flow: Flow, w: World, start: map<Id, Out>, rank: map<Id, nat>, order: seq<Id>, k: nat,
                   out: map<Id, Out>, out': map<Id, Out>)
    requires Ranked(flow, rank) && Distinct(order) && k < |order| && Agrees(flow, w, start, rank, order, k, out)
    requires forall n :: n != order[k] ==> OutOf(out', n) == OutOf(out, n)
    requires HasValue(flow, w, start, rank, order[k], OutOf(out', order[k]))
    ensures Agrees(flow, w, start, rank, order, k + 1, out')
  {
    forall j | 0 <= j < k ensures HasValue(flow, w, start, rank, order[j], OutOf(out', order[j])) {
      assert order[j] != order[k];
      assert HasValue(flow, w, start, rank, order[j], OutOf(out, order[j]));
    }
    forall n | n !in order[..k + 1] ensures OutOf(out', n) == OutOf(start, n) {
      assert order[..k + 1][k] == order[k];
      assert n !in order[..k] by {
        assert order[..k + 1] == order[..k] + [order[k]];
      }
    }
  }

  lemma TraceNext(flow: Flow, order: seq<Id>, k: nat, trace: seq<Entry>, e: Entry)
    requires k < |order| && order[k] in flow.nodes && EntryNodes(trace) == TracedNodes(flow, order[..k])
    ensures Traced(flow.nodes[order[k]]) && e.node == order[k] ==>
      EntryNodes(trace + [e]) == TracedNodes(flow, order[..k + 1])
    ensures !Traced(flow.nodes[order[k]]) ==> EntryNodes(trace) == TracedNodes(flow, order[..k + 1])
  {
    assert order[..k + 1][..k] == order[..k] && order[..k + 1][k] == order[k];
    assert (trace + [e])[..|trace|] == trace;
  }

  /** The node fails: everything before it has a value. */
  lemma FailureExplained(flow: Flow, w: World, start: map<Id, Out>, rank: map<Id, nat>, order: seq<Id>, k: nat,
                         out: map<Id, Out>)
    requires Ranked(flow, rank) && InOrder(GraphOf(flow), order) && k < |order| && order[k] in flow.nodes
    requires Agrees(flow, w, start, rank, order, k, out) && Meaning(flow, w, start, rank, order[k]).None?
    ensures FirstFailure(flow, w, start, rank, order, k)
  {
    forall i | 0 <= i < k ensures order[i] in flow.nodes && Meaning(flow, w, start, rank, order[i]).Some? {
      assert HasValue(flow, w, start, rank, order[i], OutOf(out, order[i]));
    }
  }

  lemma StepExplained(flow: Flow, w: World, start: map<Id, Out>, rank: map<Id, nat>, order: seq<Id>, k: nat, s: State)
    requires Ranked(flow, rank) && InOrder(GraphOf(flow), order) && k < |order|
    requires s.Running? && Explains(flow, w, start, rank, order, k, s)
    ensures order[k] in flow.nodes
    ensures Explains(flow, w, start, rank, order, k + 1, RunOne(w, s, order[k], flow.nodes[order[k]]))
  {
    var nid := order[k];
    NextNodeMeaning(flow, w, start, rank, order, k, s.out);
    var node := flow.nodes[nid];
    var s' := RunOne(w, s, nid, node);
    var parts := PartsOf(s.out, node.inputs);
    if !Traced(node) {
      TraceNext(flow, order, k, s.trace, Entry(nid, node.inputs, false, false));
    } else {
      var a := NodeStep(w, nid, node, parts);
      TraceNext(flow, order, k, s.trace, Entry(nid, node.inputs, a.skipped, a.fallback));
      if !a.ok { FailureExplained(flow, w, start, rank, order, k, s.out); }
    }
    if s'.Running? {
      assert nid !in order[..k];
      AgreesNext(flow, w, start, rank, order, k, s.out, s'.out);
    }
  }

  lemma StoppedExplained(flow: Flow, w: World, start: map<Id, Out>, rank: map<Id, nat>, order: seq<Id>, k: nat,
                         s: State)
    requires Ranked(flow, rank) && k < |order|
    requires s.Stopped? && Explains(flow, w, start, rank, order, k, s)
    ensures Explains(flow, w, start, rank, order, k + 1, s)
  {
  }

  lemma ExplainsNext(flow: Flow, w: World, start: map<Id, Out>, rank: map<Id, nat>, order: seq<Id>, k: nat, s: State,
                     s': State)
    requires Ranked(flow, rank) && InOrder(GraphOf(flow), order) && k < |order|
    requires Explains(flow, w, start, rank, order, k, s)
    requires order[k] in flow.nodes && s' == RunOne(w, s, order[k], flow.nodes[order[k]])
    ensures Explains(flow, w, start, rank, order, k + 1, s')
  {
    if s.Running? {
      StepExplained(flow, w, start, rank, order, k, s);
    } else {
      StoppedExplained(flow, w, start, rank, order, k, s);
    }
  }

  lemma NothingRunYet(flow: Flow, w: World, start: map<Id, Out>, rank: map<Id, nat>, order: seq<Id>)
    requires Ranked(flow, rank)
    ensures Explains(flow, w, start, rank, order, 0, Running(start, []))
  {
    assert order[..0] == [];
  }

  ghost predicate ExplainedAt(flow: Flow, w: World, start: map<Id, Out>, rank: map<Id, nat>, order: seq<Id>, k: nat)
    requires Ranked(flow, rank) && k <= |order| && NodesRunnable(flow, order)
  {
    Explains(flow, w, start, rank, order, k, RunTo(flow, w, start, order, k))
  }

  lemma OneMoreExplained(flow: Flow, w: World, start: map<Id, Out>, rank: map<Id, nat>, order: seq<Id>, k: nat)
    requires Ranked(flow, rank) && InOrder(GraphOf(flow), order) && k < |order| && NodesRunnable(flow, order)
    requires ExplainedAt(flow, w, start, rank, order, k)
    ensures ExplainedAt(flow, w, start, rank, order, k + 1)
  {
    RunNext(flow, w, start, order, k);
    ExplainsNext(flow, w, start, rank, order, k, RunTo(flow, w, start, order, k), RunTo(flow, w, start, order, k + 1));
  }

  lemma RunExplained(flow: Flow, w: World, start: map<Id, Out>, rank: map<Id, nat>, order: seq<Id>, k: nat)
    requires Ranked(flow, rank) && InOrder(GraphOf(flow), order) && k <= |order| && NodesRunnable(flow, order)
    ensures ExplainedAt(flow, w, start, rank, order, k)
  {
    NothingRunYet(flow, w, start, rank, order);
    var i := 0;
    while i < k
      invariant 0 <= i <= k
      invariant ExplainedAt(flow, w, start, rank, order, i)
    {
      OneMoreExplained(flow, w, start, rank, order, i);
      i := i + 1;
    }
  }

  lemma {:induction false} EndpointIsNode(ids: seq<Id>, nodes: map<Id, Node>, kind: Kind)
    ensures var e := LastOf(ids, nodes, kind); e.Some? ==>
      e.value in nodes && e.value in ids && nodes[e.value].kind == kind
  {
    if ids == [] {
    } else {
      EndpointIsNode(ids[..|ids| - 1], nodes, kind);
    }
  }

  /** Of several nodes of a kind the last in dictionary order is the endpoint. */
  lemma {:induction false} EndpointIsLast(ids: seq<Id>, nodes: map<Id, Node>, kind: Kind, k: nat)
    requires k < |ids| && ids[k] in nodes && nodes[ids[k]].kind == kind
    requires forall j :: k < j < |ids| ==> !(ids[j] in nodes && nodes[ids[j]].kind == kind)
    ensures LastOf(ids, nodes, kind) == Some(ids[k])
    decreases |ids|
  {
    if k < |ids| - 1 { EndpointIsLast(ids[..|ids| - 1], nodes, kind, k); }
  }

  /** Does every node of the flow have a value. */
  ghost predicate AllSucceed(flow: Flow, w: World, start: map<Id, Out>, rank: map<Id, nat>)
    requires Ranked(flow, rank)
  {
    forall n :: n in flow.nodes ==> Meaning(flow, w, start, rank, n).Some?
  }

  /**
   In whatever topological order the nodes run: the run completes if and only if every node has a value, and
   then its result is the meaning of the output node; otherwise it names the first node of the order that
   fails, with its error. The trace lists, once each and in order, the nodes that ran.
   */
  lemma {:induction false} RunMeansFlow(flow: Flow, w: World, text: string, data: Option<Json>, rank: map<Id, nat>,
                                        order: seq<Id>)
    requires Admitted(flow) && Ranked(flow, rank) && IsTopological(GraphOf(flow), order) && InputFits(w, data)
    ensures var start, sink := Start(flow, w, text, data), Endpoint(flow, Output).value;
      && sink in flow.nodes
      && match RunAll(flow, w, text, data, order)
         case Completed(out, trace) =>
           && AllSucceed(flow, w, start, rank) && Meaning(flow, w, start, rank, sink) == Some(out)
           && EntryNodes(trace) == TracedNodes(flow, order)
         case Failed(node, error, trace) =>
           && !AllSucceed(flow, w, start, rank) && FailsFor(flow, w, start, rank, node, error)
           && exists j :: 0 <= j < |order| && order[j] == node && FirstFailure(flow, w, start, rank, order, j)
                && EntryNodes(trace) == TracedNodes(flow, order[..j + 1])
         case Rejected => false
  {
    var start := Start(flow, w, text, data);
    AdmittedRuns(flow, order);
    EndpointIsNode(flow.ids, flow.nodes, Input);
    EndpointIsNode(flow.ids, flow.nodes, Output);
    var s := RunTo(flow, w, start, order, |order|);
    RunExplained(flow, w, start, rank, order, |order|);
    assert order[..|order|] == order;
    if s.Running? {
      EveryoneSucceeds(flow, w, start, rank, order, s.out);
    } else {
      var j :| 0 <= j < |order| && FirstFailure(flow, w, start, rank, order, j) && order[j] == s.node
        && EntryNodes(s.trace) == TracedNodes(flow, order[..j + 1]) && FailsFor(flow, w, start, rank, s.node, s.error);
      assert Meaning(flow, w, start, rank, order[j]).None?;
    }
  }

  lemma EveryoneSucceeds(flow: Flow, w: World, start: map<Id, Out>, rank: map<Id, nat>, order: seq<Id>,
                         out: map<Id, Out>)
    requires Ranked(flow, rank) && IsTopological(GraphOf(flow), order)
    requires Agrees(flow, w, start, rank, order, |order|, out)
    ensures forall n :: n in flow.nodes ==> Meaning(flow, w, start, rank, n) == Some(OutOf(out, n))
  {
    forall n | n in flow.nodes ensures Meaning(flow, w, start, rank, n) == Some(OutOf(out, n)) {
      assert n in GraphOf(flow).inputs;
      var j :| 0 <= j < |order| && order[j] == n;
      assert HasValue(flow, w, start, rank, order[j], OutOf(out, order[j]));
    }
  }

  /** An entry shows the graph: the node's inputs, and only a flag that the node asks for. */
  ghost predicate ShowsNode(flow: Flow, e: Entry) {
    && e.node in flow.nodes && e.inputs == flow.nodes[e.node].inputs
    && (e.skipped ==> flow.nodes[e.node].skipEmpty) && (e.fallback ==> flow.nodes[e.node].onErrorInput)
  }

  ghost predicate AllShown(flow: Flow, trace: seq<Entry>) {
    forall i :: 0 <= i < |trace| ==> ShowsNode(flow, trace[i])
  }

  lemma OneShown(flow: Flow, w: World, s: State, nid: Id)
    requires nid in flow.nodes && Runnable(flow.nodes[nid]) && AllShown(flow, s.trace)
    ensures AllShown(flow, RunOne(w, s, nid, flow.nodes[nid]).trace)
  {
    var node := flow.nodes[nid];
    if s.Running? && Traced(node) {
      FallbackPromise(w, nid, node, PartsOf(s.out, node.inputs));
      SkipPromise(w, nid, node, PartsOf(s.out, node.inputs));
    }
  }

  lemma {:induction false} RunShown(flow: Flow, w: World, start: map<Id, Out>, order: seq<Id>, k: nat)
    requires NodesRunnable(flow, order) && k <= |order|
    ensures AllShown(flow, RunTo(flow, w, start, order, k).trace)
  {
    if k == 0 {
    } else {
      RunShown(flow, w, start, order, k - 1);
      OneShown(flow, w, RunTo(flow, w, start, order, k - 1), order[k - 1]);
    }
  }

  /** The trace is a picture of the graph that ran, for completed and failed runs alike. */
  lemma TraceShowsGraph(flow: Flow, w: World, text: string, data: Option<Json>, order: seq<Id>)
    requires Admitted(flow) && InOrder(GraphOf(flow), order)
    ensures var r := RunAll(flow, w, text, data, order); !r.Rejected? ==> AllShown(flow, r.trace)
  {
    AdmittedRuns(flow, order);
    RunShown(flow, w, Start(flow, w, text, data), order, |order|);
  }

  /** A flow whose output takes up its input hands on what it was given: a text, or JSON with its encoding. */
  lemma PassThrough(flow: Flow, w: World, text: string, data: Option<Json>, rank: map<Id, nat>, order: seq<Id>,
                    sink: Id)
    requires Admitted(flow) && Ranked(flow, rank) && IsTopological(GraphOf(flow), order)
    requires data.Some? ==> Depth(data.value) <= 32 && Utf8Len(w.encode(data.value)) <= 1048576
    requires Endpoint(flow, Output) == Some(sink) && sink in flow.nodes
    requires flow.nodes[sink].inputs != [] && Endpoint(flow, Input) == Some(flow.nodes[sink].inputs[0])
    ensures match RunAll(flow, w, text, data, order)
      case Completed(out, _) => out == if data.Some? then Out(w.encode(data.value), data, []) else Out(text, None, [])
      case Failed(_, _, _) => !AllSucceed(flow, w, Start(flow, w, text, data), rank)
      case Rejected => false
  {
    EndpointIsNode(flow.ids, flow.nodes, Input);
    EndpointIsNode(flow.ids, flow.nodes, Output);
    RunMeansFlow(flow, w, text, data, rank, order);
    var start := Start(flow, w, text, data);
    assert Meaning(flow, w, start, rank, sink) == Meaning(flow, w, start, rank, Endpoint(flow, Input).value);
  }

  /** The smallest flow there is: an input and an output. */
  const ECHO := Flow(["in", "out"], map["in" := Node(Input, [], "", false, false, false),
                                        "out" := Node(Output, ["in"], "", false, false, false)])

  lemma EchoAdmitted()
    ensures Admitted(ECHO) && InOrder(GraphOf(ECHO), ["in", "out"])
    ensures Endpoint(ECHO, Input) == Some("in") && Endpoint(ECHO, Output) == Some("out")
  {
    var order := ["in", "out"];
    var g := GraphOf(ECHO);
    assert order[..1] == ["in"] && order[1] == "out" && g.inputs["out"] == ["in"];
    assert IsTopological(g, order);
    assert LastOf(order[..1], ECHO.nodes, Input) == Some("in");
  }

  /** It is admitted, and it hands on the text it is given. */
  lemma EchoRuns(w: World, text: string)
    ensures Admitted(ECHO) && InOrder(GraphOf(ECHO), ["in", "out"])
    ensures RunAll(ECHO, w, text, None, ["in", "out"]) == Completed(Out(text, None, []), [])
  {
    EchoAdmitted();
    var order := ["in", "out"];
    var start := Start(ECHO, w, text, None);
    AdmittedRuns(ECHO, order);
    assert RunTo(ECHO, w, start, order, 1) == Running(start, []);
    assert RunTo(ECHO, w, start, order, 2) == Running(start["out" := Out(text, None, [])], []);
  }

  /** Hence the result does not depend on the order. */
  lemma {:induction false} OrderDoesNotMatter(flow: Flow, w: World, text: string, data: Option<Json>,
                                              rank: map<Id, nat>,
                                             o1: seq<Id>, o2: seq<Id>)
    requires Admitted(flow) && Ranked(flow, rank) && InputFits(w, data)
    requires IsTopological(GraphOf(flow), o1) && IsTopological(GraphOf(flow), o2)
    ensures var r1, r2 := RunAll(flow, w, text, data, o1), RunAll(flow, w, text, data, o2);
      && (r1.Completed? <==> r2.Completed?)
      && (r1.Completed? && r2.Completed? ==> r1.out == r2.out)
  {
    RunMeansFlow(flow, w, text, data, rank, o1);
    RunMeansFlow(flow, w, text, data, rank, o2);
  }

  /** An admitted flow has a ranking: the position in any topological order. */
  lemma RankingExists(flow: Flow) returns (rank: map<Id, nat>)
    requires Admitted(flow)
    ensures Ranked(flow, rank)
  {
    var g := GraphOf(flow);
    var order :| IsTopological(g, order);
    rank := map n | n in flow.nodes :: Position(order, n);
    forall n, i | n in flow.nodes && 0 <= i < |flow.nodes[n].inputs|
      ensures flow.nodes[n].inputs[i] in flow.nodes && rank[flow.nodes[n].inputs[i]] < rank[n]
    {
      var k := Position(order, n);
      PositionFound(order, n);
      var pre := flow.nodes[n].inputs[i];
      assert g.inputs[n][i] == pre;
      assert pre in order[..k];
      PositionBefore(order, pre, k);
    }
  }

  function Position(order: seq<Id>, n: Id): nat {
    if order == [] || order[0] == n then 0 else 1 + Position(order[1..], n)
  }

  lemma {:induction false} PositionFound(order: seq<Id>, n: Id)
    requires n in order
    ensures Position(order, n) < |order| && order[Position(order, n)] == n
  {
    if order[0] != n { PositionFound(order[1..], n); }
  }

  lemma {:induction false} PositionBefore(order: seq<Id>, n: Id, k: nat)
    requires k <= |order| && n in order[..k]
    ensures Position(order, n) < k
  {
    if order[0] != n {
      assert order[..k] == [order[0]] + order[1..][..k - 1];
      PositionBefore(order[1..], n, k - 1);
    }
  }
}
