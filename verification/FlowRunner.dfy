/**
 Running a flow (flow_runner.py, `run_flow`, `assemble`, `_part_view`): the nodes of a graph in
 topological order, each fed with the outputs of its inputs. A node that fails ends the run.
 Model calls, JSON encoding and JSON parsing are parameters.
 */
module FlowRunner {
  import opened Common
  import opened NodeIds
  import opened TopoOrder
  import opened FlowData
  import Strings = Text

  datatype ToolCall = ToolCall(name: string, arguments: string)

  /** What a node hands downstream. */
  datatype Out = Out(text: string, data: Option<Json>, tools: seq<ToolCall>)

  const EMPTY := Out("", None, [])

  datatype Kind = Input | Output | Data(op: Operation) | Decision | Model

  datatype Node = Node(kind: Kind, inputs: seq<Id>, template: string, skipEmpty: bool, onErrorInput: bool,
                       jsonOutput: bool)

  /** The nodes of a flow, in dictionary order. */
  datatype Flow = Flow(ids: seq<Id>, nodes: map<Id, Node>)

  datatype Prompt = Text(text: string) | Value(value: Json) | Values(values: seq<Json>)

  /** What a model call returns; `Raised` is an exception `run_flow` catches. */
  datatype Reply =
    | Replied(ok: bool, text: string, data: Option<Json>, tools: seq<ToolCall>, cutOff: bool, error: string)
    | Raised(message: string)

  /** The outside world: model calls, `encode`, and `json.loads` with unique keys. */
  datatype World = World(call: (Id, Prompt) -> Reply, encode: Json -> string, parse: string -> Option<Json>)

  function GraphOf(flow: Flow): Graph {
    Graph(flow.ids, map n | n in flow.nodes :: flow.nodes[n].inputs)
  }

  /** What admission guarantees. */
  ghost predicate Admitted(flow: Flow) {
    && WellFormed(GraphOf(flow))
    && (exists t :: IsTopological(GraphOf(flow), t))
    && (forall n :: n in flow.nodes && flow.nodes[n].kind != Input ==> flow.nodes[n].inputs != [])
    && (forall n :: n in flow.nodes && flow.nodes[n].kind.Data? ==>
          Arity(flow.nodes[n].kind.op, |flow.nodes[n].inputs|))
    && Endpoint(flow, Input).Some? && Endpoint(flow, Output).Some?
  }

  /** `_endpoints`: the last node of a kind. */
  function LastOf(ids: seq<Id>, nodes: map<Id, Node>, kind: Kind): Option<Id> {
    if ids == [] then None else
      var last := ids[|ids| - 1];
      if last in nodes && nodes[last].kind == kind then Some(last) else LastOf(ids[..|ids| - 1], nodes, kind)
  }

  function Endpoint(flow: Flow, kind: Kind): Option<Id> { LastOf(flow.ids, flow.nodes, kind) }

  // ---- the prompt of a node ----

  function Decimal(n: nat): string {
    if n < 10 then [('0' as int + n) as char] else Decimal(n / 10) + [('0' as int + n % 10) as char]
  }

  function ToolLines(tools: seq<ToolCall>): seq<string> {
    seq(|tools|, i requires 0 <= i < |tools| => "- " + tools[i].name + "(" + tools[i].arguments + ")")
  }

  /** `_part_view`: the text of an input and the tool calls it proposed. */
  function PartView(w: World, part: Out): string {
    var text := if part.data.Some? then w.encode(part.data.value) else part.text;
    if part.tools == [] then text else
      var block := "[proposed tool calls]\n" + Strings.JoinWith("\n", ToolLines(part.tools));
      if text != "" then text + "\n\n" + block else block
  }

  function Views(w: World, parts: seq<Out>): seq<string> {
    seq(|parts|, i requires 0 <= i < |parts| => PartView(w, parts[i]))
  }

  predicate Digit(c: char) { '0' <= c <= '9' }

  predicate StartsWithDigit(s: string) { s != "" && Digit(s[0]) }

  /** How many digits a string starts with. */
  function DigitRun(s: string): (n: nat)
    ensures n <= |s| && AllDigits(s[..n]) && !StartsWithDigit(s[n..])
  {
    if !StartsWithDigit(s) then 0 else
      assert s[1..][DigitRun(s[1..])..] == s[1 + DigitRun(s[1..])..];
      assert forall i :: 0 < i <= DigitRun(s[1..]) ==> s[i] == s[1..][..DigitRun(s[1..])][i - 1];
      1 + DigitRun(s[1..])
  }

  predicate AllDigits(s: string) { forall i :: 0 <= i < |s| ==> Digit(s[i]) }

  function Number(s: string): nat
    requires AllDigits(s)
  {
    if s == "" then 0 else
      assert Digit(s[|s| - 1]);
      10 * Number(s[..|s| - 1]) + (s[|s| - 1] as int - '0' as int)
  }

  /** `$n` stands for the n-th view, or for nothing when there is no such view. */
  function Referenced(digits: string, views: seq<string>): string
    requires AllDigits(digits)
  {
    var n := Number(digits);
    if 0 < n <= |views| then views[n - 1] else ""
  }

  /** A template with its references filled in. */
  function Filled(template: string, views: seq<string>): string
    decreases |template|
  {
    if template == "" then "" else
      var rest := template[1..];
      var n := DigitRun(rest);
      if template[0] == '$' && n > 0 then Referenced(rest[..n], views) + Filled(rest[n..], views)
      else [template[0]] + Filled(rest, views)
  }

  function Sections(views: seq<string>): seq<string> {
    seq(|views|, i requires 0 <= i < |views| => "[input " + Decimal(i + 1) + "]\n" + views[i])
  }

  function Assemble(w: World, template: string, parts: seq<Out>): string {
    var views := Views(w, parts);
    if template != "" then Filled(template, views)
    else if |views| == 1 then views[0]
    else Strings.JoinWith("\n\n", Sections(views))
  }

  // ---- what the prompt says ----

  lemma Regroup(x: string, y: string, z: string)
    ensures x + (y + z) == (x + y) + z
  {
  }

  lemma {:induction false} DigitsExactly(digits: string, tail: string)
    requires AllDigits(digits) && !StartsWithDigit(tail)
    ensures DigitRun(digits + tail) == |digits|
  {
    if digits == "" {
      assert digits + tail == tail;
    } else {
      assert (digits + tail)[1..] == digits[1..] + tail;
      DigitsExactly(digits[1..], tail);
    }
  }

  /** The digits after a `$` are one reference. */
  lemma FilledReference(digits: string, tail: string, views: seq<string>)
    requires AllDigits(digits) && digits != "" && !StartsWithDigit(tail)
    ensures Filled("$" + (digits + tail), views) == Referenced(digits, views) + Filled(tail, views)
  {
    var t := "$" + (digits + tail);
    DigitsExactly(digits, tail);
    assert t[1..] == digits + tail && (digits + tail)[..|digits|] == digits && (digits + tail)[|digits|..] == tail;
  }

  /** Any other character stays. */
  lemma FilledChar(c: char, tail: string, views: seq<string>)
    requires c != '$' || !StartsWithDigit(tail)
    ensures Filled([c] + tail, views) == [c] + Filled(tail, views)
  {
    assert ([c] + tail)[1..] == tail;
  }

  lemma DigitsFirst(s: string) returns (digits: string, tail: string)
    requires StartsWithDigit(s)
    ensures s == digits + tail && AllDigits(digits) && digits != "" && !StartsWithDigit(tail) && |tail| < |s|
  {
    digits, tail := s[..DigitRun(s)], s[DigitRun(s)..];
  }

  lemma ReferenceFirst(digits: string, tail: string, b: string, views: seq<string>)
    requires AllDigits(digits) && digits != "" && !StartsWithDigit(tail) && !StartsWithDigit(tail + b)
    requires Filled(tail + b, views) == Filled(tail, views) + Filled(b, views)
    ensures Filled("$" + (digits + (tail + b)), views) == Filled("$" + (digits + tail), views) + Filled(b, views)
  {
    FilledReference(digits, tail, views);
    FilledReference(digits, tail + b, views);
    Regroup(Referenced(digits, views), Filled(tail, views), Filled(b, views));
  }

  lemma CharFirst(c: char, rest: string, b: string, views: seq<string>)
    requires !StartsWithDigit(b) && !(c == '$' && StartsWithDigit(rest))
    requires Filled(rest + b, views) == Filled(rest, views) + Filled(b, views)
    ensures Filled([c] + (rest + b), views) == Filled([c] + rest, views) + Filled(b, views)
  {
    FilledChar(c, rest, views);
    FilledChar(c, rest + b, views);
    Regroup([c], Filled(rest, views), Filled(b, views));
  }

  /** No reference reaches across a border after which no digit comes, so both sides are filled in by themselves. */
  lemma {:induction false} FilledSplits(a: string, b: string, views: seq<string>)
    requires !StartsWithDigit(b)
    ensures Filled(a + b, views) == Filled(a, views) + Filled(b, views)
    decreases |a|
  {
    if a == "" {
      assert a + b == b;
    } else {
      var c, rest := a[0], a[1..];
      assert a == [c] + rest && a + b == [c] + (rest + b);
      if c == '$' && StartsWithDigit(rest) {
        var digits, tail := DigitsFirst(rest);
        FilledSplits(tail, b, views);
        assert tail == "" ==> tail + b == b;
        ReferenceFirst(digits, tail, b, views);
        Regroup(digits, tail, b);
      } else {
        FilledSplits(rest, b, views);
        CharFirst(c, rest, b, views);
      }
    }
  }

  /** Reading a decimal, with any zeros before it, gives the number back. */
  lemma {:induction false} NumberOfDecimal(zeros: string, n: nat)
    requires forall i :: 0 <= i < |zeros| ==> zeros[i] == '0'
    ensures AllDigits(zeros + Decimal(n)) && Number(zeros + Decimal(n)) == n
    decreases n, |zeros|
  {
    var s := zeros + Decimal(n);
    if n < 10 {
      assert s[..|s| - 1] == zeros;
      if zeros == "" {
      } else {
        var fewer := zeros[..|zeros| - 1];
        NumberOfDecimal(fewer, 0);
        assert zeros == fewer + Decimal(0);
      }
    } else {
      NumberOfDecimal(zeros, n / 10);
      assert s[..|s| - 1] == zeros + Decimal(n / 10);
    }
  }

  /** The usual notation: digits in order of weight, and no zero in front. */
  lemma DecimalNotation(n: nat, d: nat)
    requires d < 10
    ensures Decimal(d) == ["0123456789"[d]]
    ensures n > 0 ==> Decimal(10 * n + d) == Decimal(n) + ["0123456789"[d]]
  {
    assert forall k :: 0 <= k < 10 ==> ('0' as int + k) as char == "0123456789"[k];
  }

  /** The number n as a reference, perhaps with zeros in front. */
  ghost predicate IsReference(reference: string, zeros: string, n: nat) {
    (forall i :: 0 <= i < |zeros| ==> zeros[i] == '0') && reference == "$" + (zeros + Decimal(n))
  }

  lemma ReferenceIs(reference: string, zeros: string, n: nat, views: seq<string>)
    requires IsReference(reference, zeros, n)
    ensures Filled(reference, views) == if 1 <= n <= |views| then views[n - 1] else ""
  {
    var digits := zeros + Decimal(n);
    NumberOfDecimal(zeros, n);
    FilledReference(digits, "", views);
    assert digits + "" == digits && Referenced(digits, views) + "" == Referenced(digits, views);
  }

  /**
   A `$` with a number stands for the input of that number, counted from one, or for nothing when there is no such
   input; what comes before and after it is filled in by itself.
   */
  lemma TemplateMeans(before: string, reference: string, zeros: string, n: nat, after: string, views: seq<string>)
    requires IsReference(reference, zeros, n) && !StartsWithDigit(after)
    ensures Filled(before + reference + after, views) ==
      Filled(before, views) + (if 1 <= n <= |views| then views[n - 1] else "") + Filled(after, views)
  {
    ReferenceIs(reference, zeros, n, views);
    assert !StartsWithDigit(reference);
    FilledSplits(before + reference, after, views);
    FilledSplits(before, reference, views);
  }

  /** Text without references stays as it is; so does a `$` that no digit follows. */
  lemma {:induction false} PlainTemplate(template: string, views: seq<string>)
    requires forall k :: 0 <= k < |template| - 1 ==> !(template[k] == '$' && Digit(template[k + 1]))
    ensures Filled(template, views) == template
    decreases |template|
  {
    if template == "" {
    } else {
      var rest := template[1..];
      forall k | 0 <= k < |rest| - 1 ensures !(rest[k] == '$' && Digit(rest[k + 1])) {
        assert rest[k] == template[k + 1] && rest[k + 1] == template[k + 1 + 1];
      }
      PlainTemplate(rest, views);
      assert StartsWithDigit(rest) ==> template[0] != '$' by {
        if rest != "" { assert template[0 + 1] == rest[0]; }
      }
    }
  }

  /**
   What an input shows downstream: its text, or its data encoded, and after a blank line the tool calls it
   proposed, one a line; whichever is missing is left out with the blank line.
   */
  lemma ViewShows(w: World, part: Out, lines: seq<string>)
    requires |lines| == |part.tools|
    requires forall i :: 0 <= i < |lines| ==>
      lines[i] == "- " + part.tools[i].name + "(" + part.tools[i].arguments + ")"
    ensures var text := if part.data.Some? then w.encode(part.data.value) else part.text;
      var calls := "[proposed tool calls]\n" + Strings.JoinWith("\n", lines);
      PartView(w, part) == Strings.JoinWith("\n\n",
        (if text == "" then [] else [text]) + (if part.tools == [] then [] else [calls]))
  {
    assert ToolLines(part.tools) == lines;
    var text := if part.data.Some? then w.encode(part.data.value) else part.text;
    var calls := "[proposed tool calls]\n" + Strings.JoinWith("\n", lines);
    Strings.JoinWithNext("\n\n", [text], calls);
    assert [] + [calls] == [calls] && [text] + [] == [text];
  }

  /** The views of the inputs, in input order. */
  ghost predicate ShowsInputs(w: World, parts: seq<Out>, views: seq<string>) {
    |views| == |parts| && forall i :: 0 <= i < |parts| ==> views[i] == PartView(w, parts[i])
  }

  /**
   The prompt: a template filled in with the views of the inputs; without a template one input passes through, and
   several become numbered sections in input order.
   */
  lemma PromptSays(w: World, template: string, parts: seq<Out>, views: seq<string>, sections: seq<string>)
    requires ShowsInputs(w, parts, views) && |sections| == |parts|
    requires forall i :: 0 <= i < |parts| ==> sections[i] == "[input " + Decimal(i + 1) + "]\n" + views[i]
    ensures Assemble(w, template, parts) ==
      if template != "" then Filled(template, views)
      else if |parts| == 1 then views[0]
      else Strings.JoinWith("\n\n", sections)
  {
    assert Views(w, parts) == views && Sections(views) == sections;
  }

  // ---- one node ----

  datatype Attempt = Attempt(ok: bool, out: Out, error: string, skipped: bool, fallback: bool)

  function ValueOf(part: Out): Json { if part.data.Some? then part.data.value else Str(part.text) }

  function ValuesOf(parts: seq<Out>): seq<Json> {
    seq(|parts|, i requires 0 <= i < |parts| => ValueOf(parts[i]))
  }

  predicate EmptyStructure(v: Json) { v == Arr([]) || v == Obj([]) }

  function Failure(error: string): Attempt { Attempt(false, EMPTY, error, false, false) }

  /** Before the checks on the result: skip, compute, or call the model. */
  ghost function Produce(w: World, nid: Id, node: Node, parts: seq<Out>): (Attempt, bool)
    requires parts != [] && (node.kind.Data? ==> Arity(node.kind.op, |parts|))
  {
    var values := ValuesOf(parts);
    if node.skipEmpty && EmptyStructure(values[0])
    then (Attempt(true, Out("", Some(values[0]), []), "", true, false), false)
    else if node.kind.Data? then
      match RunData(node.kind.op, values)
      case Ok(v) => (Attempt(true, Out("", Some(v), []), "", false, false), false)
      case Err(_) => (Failure("ValueError"), false)
    else
      var prompt := if node.kind == Decision then (if |values| == 1 then Value(values[0]) else Values(values))
                    else Text(Assemble(w, node.template, parts));
      match w.call(nid, prompt)
      case Raised(message) => (Failure(message), false)
      case Replied(ok, text, data, tools, cutOff, error) =>
        (Attempt(ok, Out(text, data, tools), error, false, false), cutOff)
  }

  /** A node that asks for JSON must get complete JSON and no tool calls. */
  function DecodeOutput(w: World, node: Node, a: Attempt, cutOff: bool): Attempt {
    if a.ok && node.jsonOutput && !a.skipped then
      if a.out.tools != [] || cutOff then a.(ok := false, error := "ValueError")
      else
        var v := w.parse(a.out.text);
        if v.Some? && Bounded(v.value, w.encode)
        then a.(out := a.out.(data := v))
        else a.(ok := false, error := "ValueError")
    else a
  }

  function BoundOutput(w: World, a: Attempt): Attempt {
    if a.out.data.Some? then
      if Bounded(a.out.data.value, w.encode) then a.(out := a.out.(text := w.encode(a.out.data.value)))
      else a.(ok := false, error := "ValueError")
    else a
  }

  function FallBack(w: World, node: Node, a: Attempt, value: Json): Attempt {
    if !a.ok && node.onErrorInput
    then Attempt(true, Out(w.encode(value), Some(value), []), a.error, a.skipped, true)
    else a
  }

  ghost function NodeStep(w: World, nid: Id, node: Node, parts: seq<Out>): Attempt
    requires parts != [] && (node.kind.Data? ==> Arity(node.kind.op, |parts|))
  {
    var (produced, cutOff) := Produce(w, nid, node, parts);
    FallBack(w, node, BoundOutput(w, DecodeOutput(w, node, produced, cutOff)), ValueOf(parts[0]))
  }

  // ---- what a node promises ----

  /** Text and JSON of an output agree. */
  predicate Coherent(w: World, out: Out) { out.data.Some? ==> out.text == w.encode(out.data.value) }

  /** A node with a fallback never fails, and the fallback hands on its first input as it is. */
  lemma FallbackPromise(w: World, nid: Id, node: Node, parts: seq<Out>)
    requires parts != [] && (node.kind.Data? ==> Arity(node.kind.op, |parts|))
    ensures var a := NodeStep(w, nid, node, parts);
      && (node.onErrorInput ==> a.ok)
      && (a.fallback ==>
            var v := ValueOf(parts[0]); node.onErrorInput && a.ok && a.out == Out(w.encode(v), Some(v), []))
  {
  }

  /** The JSON of a node that succeeds is bounded, unless it fell back, and is what its text says. */
  lemma DataPromise(w: World, nid: Id, node: Node, parts: seq<Out>)
    requires parts != [] && (node.kind.Data? ==> Arity(node.kind.op, |parts|))
    ensures var a := NodeStep(w, nid, node, parts);
      && (a.ok ==> Coherent(w, a.out))
      && (a.ok && !a.fallback && a.out.data.Some? ==> Bounded(a.out.data.value, w.encode))
  {
  }

  /** A node that asks for JSON and succeeds by itself hands on JSON and no tool calls. */
  lemma JsonPromise(w: World, nid: Id, node: Node, parts: seq<Out>)
    requires parts != [] && (node.kind.Data? ==> Arity(node.kind.op, |parts|))
    ensures var a := NodeStep(w, nid, node, parts);
      node.jsonOutput && a.ok && !a.skipped && !a.fallback ==> a.out.data.Some? && a.out.tools == []
  {
  }

  /** A node is skipped exactly if it asks for that and its first input is empty; its output is then that input. */
  lemma SkipPromise(w: World, nid: Id, node: Node, parts: seq<Out>)
    requires parts != [] && (node.kind.Data? ==> Arity(node.kind.op, |parts|))
    ensures var a := NodeStep(w, nid, node, parts);
      && (a.skipped <==> node.skipEmpty && (ValueOf(parts[0]) == Arr([]) || ValueOf(parts[0]) == Obj([])))
      && (a.skipped && a.ok ==> a.out.data == Some(ValueOf(parts[0])) && a.out.tools == [])
  {
    assert ValuesOf(parts)[0] == ValueOf(parts[0]);
  }

  /** What a model is asked: the prompt of its template, or as a decision the data of its inputs, a text as a string. */
  ghost predicate Asks(w: World, node: Node, parts: seq<Out>, prompt: Prompt)
    requires parts != []
  {
    match node.kind
    case Model => prompt == Text(Assemble(w, node.template, parts))
    case Decision =>
      (if |parts| == 1 then prompt.Value? else prompt.Values? && |prompt.values| == |parts|)
      && forall i :: 0 <= i < |parts| ==>
           (if |parts| == 1 then prompt.value else prompt.values[i])
           == if parts[i].data.Some? then parts[i].data.value else Str(parts[i].text)
    case _ => false
  }

  /** A node that fails: its fallback, if it has one, otherwise the error. */
  ghost predicate FailsWith(w: World, node: Node, parts: seq<Out>, a: Attempt, error: string)
    requires parts != []
  {
    && a.error == error && a.fallback == a.ok == node.onErrorInput
    && (a.ok ==> var v := ValueOf(parts[0]); a.out == Out(w.encode(v), Some(v), []))
  }

  /** At most 32 levels deep and a mebibyte long. */
  ghost predicate Small(w: World, v: Json) { Depth(v) <= 32 && Utf8Len(w.encode(v)) <= 1048576 }

  /** A node that succeeds by itself with JSON: bounded, and the text its encoding; otherwise it fails. */
  ghost predicate HandsOn(w: World, node: Node, parts: seq<Out>, a: Attempt, v: Json, tools: seq<ToolCall>)
    requires parts != []
  {
    if Small(w, v)
    then a.ok && !a.fallback && a.out == Out(w.encode(v), Some(v), tools)
    else FailsWith(w, node, parts, a, "ValueError")
  }

  /** What a node hands on for a reply: text and tool calls as they are, JSON as its encoding. */
  ghost predicate Answers(w: World, node: Node, parts: seq<Out>, a: Attempt, reply: Reply)
    requires parts != []
  {
    match reply
    case Raised(message) => FailsWith(w, node, parts, a, message)
    case Replied(false, _, data, _, _, error) =>
      FailsWith(w, node, parts, a, if data.None? || Small(w, data.value) then error else "ValueError")
    case Replied(true, text, data, tools, cutOff, error) =>
      if node.jsonOutput then
        if tools == [] && !cutOff && w.parse(text).Some? then HandsOn(w, node, parts, a, w.parse(text).value, [])
        else FailsWith(w, node, parts, a, "ValueError")
      else if data.Some? then HandsOn(w, node, parts, a, data.value, tools)
      else a.ok && !a.fallback && a.out == Out(text, None, tools)
  }

  /** A model or decision node that is not skipped asks for what `Asks` says and hands on what it is answered. */
  lemma ReplyHandedOn(w: World, nid: Id, node: Node, parts: seq<Out>, prompt: Prompt)
    requires parts != [] && Asks(w, node, parts, prompt)
    requires !(node.skipEmpty && (ValueOf(parts[0]) == Arr([]) || ValueOf(parts[0]) == Obj([])))
    ensures Answers(w, node, parts, NodeStep(w, nid, node, parts), w.call(nid, prompt))
  {
    PromptIs(w, nid, node, parts, prompt);
    if w.call(nid, prompt).Replied? { ReplyMeans(w, node, parts, w.call(nid, prompt)); }
  }

  /** A data node that is not skipped hands on the result of its operation. */
  lemma DataHandedOn(w: World, nid: Id, node: Node, parts: seq<Out>, values: seq<Json>)
    requires parts != [] && node.kind.Data? && Arity(node.kind.op, |parts|) && !node.jsonOutput
    requires |values| == |parts|
    requires forall i :: 0 <= i < |parts| ==>
      values[i] == if parts[i].data.Some? then parts[i].data.value else Str(parts[i].text)
    requires !(node.skipEmpty && (values[0] == Arr([]) || values[0] == Obj([])))
    ensures match RunData(node.kind.op, values)
      case Ok(v) => HandsOn(w, node, parts, NodeStep(w, nid, node, parts), v, [])
      case Err(_) => FailsWith(w, node, parts, NodeStep(w, nid, node, parts), "ValueError")
  {
    assert ValuesOf(parts) == values;
  }

  lemma PromptIs(w: World, nid: Id, node: Node, parts: seq<Out>, prompt: Prompt)
    requires parts != [] && Asks(w, node, parts, prompt) && !(node.skipEmpty && EmptyStructure(ValueOf(parts[0])))
    ensures Produce(w, nid, node, parts) ==
      match w.call(nid, prompt)
      case Raised(message) => (Failure(message), false)
      case Replied(ok, text, data, tools, cutOff, error) =>
        (Attempt(ok, Out(text, data, tools), error, false, false), cutOff)
  {
    var values := ValuesOf(parts);
    assert values[0] == ValueOf(parts[0]);
    if node.kind == Decision {
      assert prompt == if |values| == 1 then Value(values[0]) else Values(values);
    }
  }

  lemma ReplyMeans(w: World, node: Node, parts: seq<Out>, r: Reply)
    requires parts != [] && r.Replied?
    ensures var p := Attempt(r.ok, Out(r.text, r.data, r.tools), r.error, false, false);
      var a := FallBack(w, node, BoundOutput(w, DecodeOutput(w, node, p, r.cutOff)), ValueOf(parts[0]));
      Answers(w, node, parts, a, r)
  {
  }

  // ---- the run ----

  /** One entry of the trace. */
  datatype Entry = Entry(node: Id, inputs: seq<Id>, skipped: bool, fallback: bool)

  datatype FlowResult =
    | Rejected                                         // the flow input is not bounded JSON
    | Completed(out: Out, trace: seq<Entry>)
    | Failed(node: Id, error: string, trace: seq<Entry>)

  datatype State = Running(out: map<Id, Out>, trace: seq<Entry>) | Stopped(node: Id, error: string, trace: seq<Entry>)

  function OutOf(out: map<Id, Out>, nid: Id): Out { if nid in out then out[nid] else EMPTY }

  function PartsOf(out: map<Id, Out>, inputs: seq<Id>): seq<Out> {
    seq(|inputs|, i requires 0 <= i < |inputs| => OutOf(out, inputs[i]))
  }

  /** Does the node appear in the trace. */
  predicate Traced(node: Node) { node.kind != Input && node.kind != Output }

  ghost predicate Runnable(node: Node) {
    node.kind != Input ==> node.inputs != [] && (node.kind.Data? ==> Arity(node.kind.op, |node.inputs|))
  }

  ghost function RunOne(w: World, s: State, nid: Id, node: Node): State
    requires Runnable(node)
  {
    if s.Stopped? || node.kind == Input then s
    else if node.kind == Output then s.(out := s.out[nid := OutOf(s.out, node.inputs[0])])
    else
      var a := NodeStep(w, nid, node, PartsOf(s.out, node.inputs));
      var trace := s.trace + [Entry(nid, node.inputs, a.skipped, a.fallback)];
      if a.ok then Running(s.out[nid := a.out], trace) else Stopped(nid, a.error, trace)
  }

  ghost predicate NodesRunnable(flow: Flow, order: seq<Id>) {
    forall k :: 0 <= k < |order| ==> order[k] in flow.nodes && Runnable(flow.nodes[order[k]])
  }

  /** The state after the first k nodes of an order. */
  ghost function RunTo(flow: Flow, w: World, start: map<Id, Out>, order: seq<Id>, k: nat): State
    requires NodesRunnable(flow, order) && k <= |order|
  {
    if k == 0 then Running(start, [])
    else RunOne(w, RunTo(flow, w, start, order, k - 1), order[k - 1], flow.nodes[order[k - 1]])
  }

  ghost function ResultOf(flow: Flow, s: State): FlowResult
    requires Endpoint(flow, Output).Some?
  {
    match s
    case Running(out, trace) => Completed(OutOf(out, Endpoint(flow, Output).value), trace)
    case Stopped(node, error, trace) => Failed(node, error, trace)
  }

  /** The output of the input node: the caller's text, or its bounded JSON. */
  function InputOut(w: World, text: string, data: Option<Json>): Out {
    if data.Some? then Out(w.encode(data.value), data, []) else Out(text, None, [])
  }

  method Step(w: World, nid: Id, node: Node, parts: seq<Out>) returns (a: Attempt)
    requires parts != [] && (node.kind.Data? ==> Arity(node.kind.op, |parts|))
    ensures a == NodeStep(w, nid, node, parts)
  {
    var values := ValuesOf(parts);
    var cutOff := false;
    if node.skipEmpty && EmptyStructure(values[0]) {
      a := Attempt(true, Out("", Some(values[0]), []), "", true, false);
    } else if node.kind.Data? {
      var r := FlowData.Run(node.kind.op, values);
      a := if r.Ok? then Attempt(true, Out("", Some(r.value), []), "", false, false) else Failure("ValueError");
    } else {
      var prompt := if node.kind == Decision then (if |values| == 1 then Value(values[0]) else Values(values))
                    else Text(Assemble(w, node.template, parts));
      match w.call(nid, prompt) {
        case Raised(message) => a := Failure(message);
        case Replied(ok, text, data, tools, cut, error) =>
          a := Attempt(ok, Out(text, data, tools), error, false, false);
          cutOff := cut;
      }
    }
    a := FallBack(w, node, BoundOutput(w, DecodeOutput(w, node, a, cutOff)), values[0]);
  }

  lemma AdmittedRuns(flow: Flow, order: seq<Id>)
    requires Admitted(flow) && InOrder(GraphOf(flow), order)
    ensures NodesRunnable(flow, order)
  {
  }

  ghost function Start(flow: Flow, w: World, text: string, data: Option<Json>): map<Id, Out>
    requires Endpoint(flow, Input).Some?
  {
    map[Endpoint(flow, Input).value := InputOut(w, text, data)]
  }

  predicate InputFits(w: World, data: Option<Json>) { data.Some? ==> Bounded(data.value, w.encode) }

  /** The result of running the nodes in a given order. */
  ghost function RunAll(flow: Flow, w: World, text: string, data: Option<Json>, order: seq<Id>): FlowResult
    requires Admitted(flow) && InOrder(GraphOf(flow), order)
  {
    AdmittedRuns(flow, order);
    if InputFits(w, data) then ResultOf(flow, RunTo(flow, w, Start(flow, w, text, data), order, |order|)) else Rejected
  }

  /** One turn of the scheduling loop. */
  method RunNode(w: World, out0: map<Id, Out>, trace0: seq<Entry>, nid: Id, node: Node)
    returns (out: map<Id, Out>, trace: seq<Entry>, failure: Option<string>)
    requires Runnable(node)
    ensures RunOne(w, Running(out0, trace0), nid, node)
      == if failure.None? then Running(out, trace) else Stopped(nid, failure.value, trace)
  {
    out, trace, failure := out0, trace0, None;
    if node.kind == Input {
    } else if node.kind == Output {
      out := out[nid := OutOf(out, node.inputs[0])];
    } else {
      var a := Step(w, nid, node, PartsOf(out, node.inputs));
      trace := trace + [Entry(nid, node.inputs, a.skipped, a.fallback)];
      if a.ok {
        out := out[nid := a.out];
      } else {
        failure := Some(a.error);
      }
    }
  }

  /** `run_flow`: the nodes in scheduled order, stopping at the first failure. */
  method RunFlow(flow: Flow, w: World, text: string, data: Option<Json>) returns (r: FlowResult)
    requires Admitted(flow)
    ensures InOrder(GraphOf(flow), Schedule(GraphOf(flow)))
    ensures r == RunAll(flow, w, text, data, Schedule(GraphOf(flow)))
  {
    ScheduleInOrder(GraphOf(flow));
    if !InputFits(w, data) { return Rejected; }
    var src, sink := Endpoint(flow, Input), Endpoint(flow, Output);
    var out := map[src.value := InputOut(w, text, data)];
    ghost var start := out;
    var trace := [];
    var order := TopologicalOrder(GraphOf(flow));
    AdmittedRuns(flow, order);
    var k := 0;
    while k < |order|
      invariant 0 <= k <= |order|
      invariant RunTo(flow, w, start, order, k) == Running(out, trace)
    {
      var failure;
      RunNext(flow, w, start, order, k);
      out, trace, failure := RunNode(w, out, trace, order[k], flow.nodes[order[k]]);
      if failure.Some? {
        StoppedStays(flow, w, start, order, k + 1, |order|);
        return Failed(order[k], failure.value, trace);
      }
      k := k + 1;
    }
    r := Completed(OutOf(out, sink.value), trace);
  }

  lemma RunNext(flow: Flow, w: World, start: map<Id, Out>, order: seq<Id>, k: nat)
    requires NodesRunnable(flow, order) && k < |order|
    ensures RunTo(flow, w, start, order, k + 1) ==
      RunOne(w, RunTo(flow, w, start, order, k), order[k], flow.nodes[order[k]])
  {
  }

  lemma {:induction false} StoppedStays(flow: Flow, w: World, start: map<Id, Out>, order: seq<Id>, k: nat, n: nat)
    requires NodesRunnable(flow, order) && k <= n <= |order| && RunTo(flow, w, start, order, k).Stopped?
    ensures RunTo(flow, w, start, order, n) == RunTo(flow, w, start, order, k)
    decreases n
  {
    if k == n {
    } else {
      StoppedStays(flow, w, start, order, k, n - 1);
    }
  }

  ghost predicate AllCoherent(w: World, out: map<Id, Out>) {
    forall n :: n in out ==> Coherent(w, out[n])
  }

  lemma OneIsCoherent(w: World, s: State, nid: Id, node: Node)
    requires Runnable(node) && s.Running? && AllCoherent(w, s.out)
    ensures RunOne(w, s, nid, node).Running? ==> AllCoherent(w, RunOne(w, s, nid, node).out)
  {
    if node.kind != Input && node.kind != Output {
      DataPromise(w, nid, node, PartsOf(s.out, node.inputs));
    }
  }

  /** After any number of nodes, the text of every output that carries JSON is that JSON, encoded. */
  lemma {:induction false} RunIsCoherent(flow: Flow, w: World, start: map<Id, Out>, order: seq<Id>, k: nat, s: State)
    requires NodesRunnable(flow, order) && k <= |order| && AllCoherent(w, start)
    requires s == RunTo(flow, w, start, order, k)
    ensures s.Running? ==> AllCoherent(w, s.out)
    decreases k
  {
    if k == 0 {
    } else {
      var before := RunTo(flow, w, start, order, k - 1);
      RunIsCoherent(flow, w, start, order, k - 1, before);
      RunNext(flow, w, start, order, k - 1);
      if before.Running? {
        OneIsCoherent(w, before, order[k - 1], flow.nodes[order[k - 1]]);
      }
    }
  }

  /** So a completed flow whose result carries JSON returns its encoding as text. */
  lemma ResultIsCoherent(flow: Flow, w: World, text: string, data: Option<Json>, order: seq<Id>)
    requires Admitted(flow) && InOrder(GraphOf(flow), order)
    ensures var r := RunAll(flow, w, text, data, order); r.Completed? ==> Coherent(w, r.out)
  {
    AdmittedRuns(flow, order);
    var start := Start(flow, w, text, data);
    var s := RunTo(flow, w, start, order, |order|);
    RunIsCoherent(flow, w, start, order, |order|, s);
    assert s.Running? ==> Coherent(w, OutOf(s.out, Endpoint(flow, Output).value));
  }
}
