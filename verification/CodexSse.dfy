/**
 Folding a Codex event stream into one reply (codex_backend.py, `aggregate_codex_sse`): text deltas and the
 argument streams of several function calls arrive interleaved and are taken apart by item id. Decoding one
 data line is a parameter.
 */
module CodexSse {
  import opened Common
  import opened Text

  type Id = Option<string>

  /** A decoded data line, or what stands for a line that carries nothing. */
  datatype Event<U> =
    | TextDelta(delta: string)
    | Added(id: Id, callId: string, name: Option<string>)
    | ArgumentsDelta(id: Id, delta: string)
    | ArgumentsDone(id: Id, arguments: Option<string>)
    | Completed(usage: Option<U>, incomplete: bool)
    | Failed(message: string)
    | Stop
    | Nothing

  datatype ToolCall = ToolCall(id: Id, name: Option<string>, arguments: string)

  datatype Finish = Stopped | Length | ToolCalls

  datatype Reply<U> =
    | Error(message: string)
    | Answer(text: string, calls: seq<ToolCall>, finish: Finish, usage: Option<U>)

  const DATA := "data:"

  /** Lines that are not data lines, and payloads that are not JSON, carry nothing. */
  function EventOf<U>(line: string, decode: string -> Event<U>): Event<U> {
    var l := Strip(line);
    if !(DATA <= l) then Nothing else
      var payload := Strip(l[|DATA|..]);
      if payload == "[DONE]" then Stop else decode(payload)
  }

  /** The events of a stream, up to the first `[DONE]`. */
  function EventsOf<U>(lines: seq<string>, decode: string -> Event<U>): seq<Event<U>> {
    if lines == [] then [] else
      var e := EventOf(lines[0], decode);
      if e.Stop? then [] else [e] + EventsOf(lines[1..], decode)
  }

  lemma {:induction false} EventsAre<U>(lines: seq<string>, decode: string -> Event<U>)
    ensures var es := EventsOf(lines, decode);
      && |es| <= |lines| && (forall i :: 0 <= i < |es| ==> es[i] == EventOf(lines[i], decode) && !es[i].Stop?)
      && (|es| < |lines| ==> EventOf(lines[|es|], decode).Stop?)
  {
    if lines != [] && !EventOf(lines[0], decode).Stop? { EventsAre(lines[1..], decode); }
  }

  /** A data line carries what follows `data:`, white space around it ignored; `[DONE]` ends the stream. */
  lemma DataLine<U>(before: string, gap: string, payload: string, after: string, decode: string -> Event<U>)
    requires AllSpace(before) && AllSpace(gap) && AllSpace(after) && Bare(payload)
    ensures EventOf(before + ("data:" + gap + payload) + after, decode) ==
      if payload == "[DONE]" then Stop else decode(payload)
  {
    var core := "data:" + gap + payload;
    assert DATA + gap == "data:" + gap;
    if payload == "" {
      assert before + core + after == before + "data:" + (gap + after);
      StripIs(before, "data:", gap + after);
      assert "data:"[|DATA|..] == "";
    } else {
      StripIs(before, core, after);
      assert core[|DATA|..] == gap + payload + "";
      StripIs(gap, payload, "");
    }
  }

  /** Any other line carries nothing. */
  lemma OtherLine<U>(before: string, core: string, after: string, decode: string -> Event<U>)
    requires AllSpace(before) && AllSpace(after) && Bare(core) && !("data:" <= core)
    ensures EventOf(before + core + after, decode) == Nothing
  {
    StripIs(before, core, after);
  }

  // ---- the meaning of a stream, item by item ----

  function TextOf<U>(es: seq<Event<U>>): string {
    if es == [] then "" else
      var e := es[|es| - 1];
      TextOf(es[..|es| - 1]) + if e.TextDelta? then e.delta else ""
  }

  /** The items in the order they were added. */
  function ItemsOf<U>(es: seq<Event<U>>): seq<Id> {
    if es == [] then [] else
      var e := es[|es| - 1];
      ItemsOf(es[..|es| - 1]) + if e.Added? then [e.id] else []
  }

  datatype Call = Call(callId: Id, name: Option<string>, args: string, done: Option<string>)

  /** How one event changes the call of one item. */
  function CallNext<U>(call: Option<Call>, e: Event<U>, id: Id): Option<Call> {
    if e.Added? && e.id == id then Some(Call(if e.callId != "" then Some(e.callId) else id, e.name, "", None))
    else if e.ArgumentsDelta? && e.id == id && call.Some? then Some(call.value.(args := call.value.args + e.delta))
    else if e.ArgumentsDone? && e.id == id && call.Some? && e.arguments.Some?
    then Some(call.value.(done := e.arguments))
    else call
  }

  function CallOf<U>(es: seq<Event<U>>, id: Id): Option<Call> {
    if es == [] then None else CallNext(CallOf(es[..|es| - 1], id), es[|es| - 1], id)
  }

  function Finished(id: Id, call: Option<Call>): ToolCall {
    if call.None? then ToolCall(id, None, "{}") else
      var args := if call.value.done.Some? then call.value.done.value else call.value.args;
      ToolCall(call.value.callId, call.value.name, if args == "" then "{}" else args)
  }

  function LastUsage<U>(es: seq<Event<U>>): Option<U> {
    if es == [] then None else
      var e := es[|es| - 1];
      if e.Completed? && e.usage.Some? then e.usage else LastUsage(es[..|es| - 1])
  }

  function LastFailure<U>(es: seq<Event<U>>): Option<string> {
    if es == [] then None else
      var e := es[|es| - 1];
      if e.Failed? then Some(e.message) else LastFailure(es[..|es| - 1])
  }

  ghost predicate CutShort<U>(es: seq<Event<U>>) {
    exists i :: 0 <= i < |es| && es[i].Completed? && es[i].incomplete
  }

  function CallsOf<U>(es: seq<Event<U>>): seq<ToolCall> {
    var items := ItemsOf(es);
    seq(|items|, i requires 0 <= i < |items| => Finished(items[i], CallOf(es, items[i])))
  }

  ghost function Meaning<U>(es: seq<Event<U>>): Reply<U> {
    if LastFailure(es).Some? then Error(LastFailure(es).value) else
      Answer(TextOf(es), CallsOf(es),
             if ItemsOf(es) != [] then ToolCalls else if CutShort(es) then Length else Stopped, LastUsage(es))
  }

  // ---- the fold ----

  /** What the fold keeps about one item. */
  datatype Entry = Entry(callId: Id, name: Option<string>, args: seq<string>, done: Option<string>)

  function Collected(fcalls: map<Id, Entry>, id: Id): Option<Call> {
    if id !in fcalls then None
    else Some(Call(fcalls[id].callId, fcalls[id].name, Join(fcalls[id].args), fcalls[id].done))
  }

  /** `fcalls` holds the call of every item. */
  ghost predicate Holds<U>(fcalls: map<Id, Entry>, es: seq<Event<U>>) {
    forall id :: Collected(fcalls, id) == CallOf(es, id)
  }

  lemma CallOfNext<U>(es: seq<Event<U>>, e: Event<U>, id: Id)
    ensures CallOf(es + [e], id) == CallNext(CallOf(es, id), e, id)
  {
    assert (es + [e])[..|es|] == es;
  }

  lemma CollectedAfter<U>(fcalls0: map<Id, Entry>, fcalls: map<Id, Entry>, e: Event<U>, at: Id, entry: Entry)
    requires fcalls == fcalls0[at := entry] && (e.Added? || e.ArgumentsDelta? || e.ArgumentsDone?) && e.id == at
    requires Collected(fcalls, at) == CallNext(Collected(fcalls0, at), e, at)
    ensures forall id :: Collected(fcalls, id) == CallNext(Collected(fcalls0, id), e, id)
  {
    forall id ensures Collected(fcalls, id) == CallNext(Collected(fcalls0, id), e, id) {
      if id != at { assert Collected(fcalls, id) == Collected(fcalls0, id); }
    }
  }

  lemma JoinEmpty(parts: seq<string>)
    ensures Join(parts) + "" == Join(parts) && Join([]) == ""
  {
  }

  /** The turn of the loop that keeps track of function calls. */
  method AddEvent<U>(fcalls0: map<Id, Entry>, e: Event<U>) returns (fcalls: map<Id, Entry>)
    ensures forall id :: Collected(fcalls, id) == CallNext(Collected(fcalls0, id), e, id)
  {
    fcalls := fcalls0;
    match e {
      case Added(id, callId, name) =>
        var entry := Entry(if callId != "" then Some(callId) else id, name, [], None);
        fcalls := fcalls[id := entry];
        JoinEmpty([]);
        CollectedAfter(fcalls0, fcalls, e, id, entry);
      case ArgumentsDelta(id, delta) =>
        if id in fcalls {
          var c := fcalls[id];
          if delta != "" {
            JoinNext(c.args, delta);
            fcalls := fcalls[id := c.(args := c.args + [delta])];
            CollectedAfter(fcalls0, fcalls, e, id, c.(args := c.args + [delta]));
          } else {
            JoinEmpty(c.args);
          }
        }
      case ArgumentsDone(id, arguments) =>
        if id in fcalls && arguments.Some? {
          var c := fcalls[id];
          fcalls := fcalls[id := c.(done := arguments)];
          CollectedAfter(fcalls0, fcalls, e, id, c.(done := arguments));
        }
      case _ =>
    }
  }

  lemma StillHolds<U>(fcalls0: map<Id, Entry>, fcalls: map<Id, Entry>, es: seq<Event<U>>, e: Event<U>)
    requires Holds(fcalls0, es) && forall id :: Collected(fcalls, id) == CallNext(Collected(fcalls0, id), e, id)
    ensures Holds(fcalls, es + [e])
  {
    forall id ensures Collected(fcalls, id) == CallOf(es + [e], id) {
      assert Collected(fcalls0, id) == CallOf(es, id);
      CallOfNext(es, e, id);
    }
  }

  lemma OneMore<U>(es: seq<Event<U>>, e: Event<U>)
    ensures TextOf(es + [e]) == TextOf(es) + if e.TextDelta? then e.delta else ""
    ensures ItemsOf(es + [e]) == ItemsOf(es) + if e.Added? then [e.id] else []
    ensures LastUsage(es + [e]) == if e.Completed? && e.usage.Some? then e.usage else LastUsage(es)
    ensures LastFailure(es + [e]) == if e.Failed? then Some(e.message) else LastFailure(es)
  {
    assert (es + [e])[..|es|] == es;
  }

  lemma CutShortNext<U>(es: seq<Event<U>>, e: Event<U>)
    ensures CutShort(es + [e]) <==> CutShort(es) || (e.Completed? && e.incomplete)
  {
    if CutShort(es) {
      var i :| 0 <= i < |es| && es[i].Completed? && es[i].incomplete;
      assert (es + [e])[i] == es[i];
    }
    if e.Completed? && e.incomplete { assert (es + [e])[|es|] == e; }
  }

  /** Every added item has an entry. */
  lemma {:induction false} ItemsHaveCalls<U>(es: seq<Event<U>>, id: Id)
    ensures id in ItemsOf(es) <==> CallOf(es, id).Some?
  {
    if es == [] {
    } else {
      ItemsHaveCalls(es[..|es| - 1], id);
    }
  }

  method CollectCalls<U>(fcalls: map<Id, Entry>, order: seq<Id>, ghost es: seq<Event<U>>) returns (calls: seq<ToolCall>)
    requires Holds(fcalls, es) && order == ItemsOf(es)
    ensures calls == CallsOf(es)
  {
    calls := [];
    for i := 0 to |order|
      invariant |calls| == i && forall j :: 0 <= j < i ==> calls[j] == Finished(order[j], CallOf(es, order[j]))
    {
      ItemsHaveCalls(es, order[i]);
      assert Collected(fcalls, order[i]) == CallOf(es, order[i]);
      var c := fcalls[order[i]];
      var args := if c.done.Some? then c.done.value else Join(c.args);
      calls := calls + [ToolCall(c.callId, c.name, if args != "" then args else "{}")];
    }
  }

  /** The variables of the loop, apart from `fcalls`, after some events. */
  ghost predicate Folded<U>(parts: seq<string>, finish: Finish, usage: Option<U>, err: Option<string>, order: seq<Id>,
                            es: seq<Event<U>>) {
    && Join(parts) == TextOf(es) && usage == LastUsage(es) && err == LastFailure(es) && order == ItemsOf(es)
    && finish == if CutShort(es) then Length else Stopped
  }

  lemma FoldedNext<U>(parts: seq<string>, finish: Finish, usage: Option<U>, err: Option<string>, order: seq<Id>,
                      parts': seq<string>, finish': Finish, usage': Option<U>, err': Option<string>, order': seq<Id>,
                      es: seq<Event<U>>, e: Event<U>)
    requires Folded(parts, finish, usage, err, order, es)
    requires Join(parts') == Join(parts) + if e.TextDelta? then e.delta else ""
    requires finish' == if e.Completed? && e.incomplete then Length else finish
    requires usage' == if e.Completed? && e.usage.Some? then e.usage else usage
    requires err' == if e.Failed? then Some(e.message) else err
    requires order' == order + if e.Added? then [e.id] else []
    ensures Folded(parts', finish', usage', err', order', es + [e])
  {
    OneMore(es, e);
    CutShortNext(es, e);
  }

  /** `aggregate_codex_sse`. */
  method Aggregate<U>(lines: seq<string>, decode: string -> Event<U>) returns (r: Reply<U>)
    ensures r == Meaning(EventsOf(lines, decode))
  {
    var parts: seq<string> := [];
    var finish: Finish := Stopped;
    var usage: Option<U> := None;
    var err: Option<string> := None;
    var fcalls: map<Id, Entry> := map[];
    var order: seq<Id> := [];
    ghost var all := EventsOf(lines, decode);
    ghost var es: seq<Event<U>> := [];
    EventsAre(lines, decode);
    var k := 0;
    while k < |lines|
      invariant 0 <= k <= |lines| && k <= |all| && es == all[..k]
      invariant Folded(parts, finish, usage, err, order, es)
      invariant Holds(fcalls, es)
    {
      var e := EventOf(lines[k], decode);
      if e.Stop? { break; }
      ghost var fcalls0, parts0, finish0, usage0, err0, order0 := fcalls, parts, finish, usage, err, order;
      fcalls := AddEvent(fcalls, e);
      StillHolds(fcalls0, fcalls, es, e);
      JoinEmpty(parts);
      match e {
        case TextDelta(delta) =>
          if delta != "" {
            JoinNext(parts, delta);
            parts := parts + [delta];
          }
        case Added(id, _, _) => order := order + [id];
        case Completed(u, incomplete) =>
          if u.Some? { usage := u; }
          if incomplete { finish := Length; }
        case Failed(message) => err := Some(message);
        case _ =>
      }
      FoldedNext(parts0, finish0, usage0, err0, order0, parts, finish, usage, err, order, es, e);
      assert all[..k + 1] == es + [e];
      es := es + [e];
      k := k + 1;
    }
    assert es == all;
    if err.Some? { return Error(err.value); }
    var calls := CollectCalls(fcalls, order, es);
    if order != [] { finish := ToolCalls; }
    r := Answer(Join(parts), calls, finish, usage);
  }

  // ---- interleaving does not matter ----

  /** The events that carry an item's id, in order. */
  function Own<U>(es: seq<Event<U>>, id: Id): seq<Event<U>> {
    if es == [] then [] else
      var e := es[|es| - 1];
      Own(es[..|es| - 1], id) + if (e.Added? || e.ArgumentsDelta? || e.ArgumentsDone?) && e.id == id then [e] else []
  }

  function Texts<U>(es: seq<Event<U>>): seq<Event<U>> {
    if es == [] then [] else Texts(es[..|es| - 1]) + if es[|es| - 1].TextDelta? then [es[|es| - 1]] else []
  }

  /** A call is a function of its own events alone. */
  lemma {:induction false} CallOfOwn<U>(es: seq<Event<U>>, id: Id)
    ensures CallOf(es, id) == CallOf(Own(es, id), id)
  {
    if es == [] {
    } else {
      var before := es[..|es| - 1];
      CallOfOwn(before, id);
      CallOfNext(Own(before, id), es[|es| - 1], id);
      assert Own(before, id) + [] == Own(before, id);
    }
  }

  lemma {:induction false} TextOfTexts<U>(es: seq<Event<U>>)
    ensures TextOf(es) == TextOf(Texts(es))
  {
    if es == [] {
    } else {
      var before := es[..|es| - 1];
      TextOfTexts(before);
      OneMore(Texts(before), es[|es| - 1]);
      assert Texts(before) + [] == Texts(before);
      assert TextOf(before) + "" == TextOf(before);
    }
  }

  /** Two interleavings of the same text stream and the same item streams give the same reply text and calls. */
  lemma {:induction false} InterleavingIrrelevant<U(!new)>(es: seq<Event<U>>, fs: seq<Event<U>>)
    requires Texts(es) == Texts(fs) && ItemsOf(es) == ItemsOf(fs)
    requires forall id :: Own(es, id) == Own(fs, id)
    ensures TextOf(es) == TextOf(fs) && CallsOf(es) == CallsOf(fs)
  {
    TextOfTexts(es);
    TextOfTexts(fs);
    forall id ensures CallOf(es, id) == CallOf(fs, id) {
      CallOfOwn(es, id);
      CallOfOwn(fs, id);
    }
  }

  // What is collected from a stream is what is collected from its parts, in order.

  lemma {:induction false} OwnSplits<U>(a: seq<Event<U>>, b: seq<Event<U>>, id: Id)
    ensures Own(a + b, id) == Own(a, id) + Own(b, id)
    decreases |b|
  {
    if b == [] {
      assert a + b == a;
    } else {
      var n := |b| - 1;
      assert (a + b)[..|a + b| - 1] == a + b[..n] && (a + b)[|a + b| - 1] == b[n];
      OwnSplits(a, b[..n], id);
    }
  }

  lemma {:induction false} TextsSplit<U>(a: seq<Event<U>>, b: seq<Event<U>>)
    ensures Texts(a + b) == Texts(a) + Texts(b)
    decreases |b|
  {
    if b == [] {
      assert a + b == a;
    } else {
      var n := |b| - 1;
      assert (a + b)[..|a + b| - 1] == a + b[..n] && (a + b)[|a + b| - 1] == b[n];
      TextsSplit(a, b[..n]);
    }
  }

  lemma {:induction false} ItemsSplit<U>(a: seq<Event<U>>, b: seq<Event<U>>)
    ensures ItemsOf(a + b) == ItemsOf(a) + ItemsOf(b)
    decreases |b|
  {
    if b == [] {
      assert a + b == a;
    } else {
      var n := |b| - 1;
      assert (a + b)[..|a + b| - 1] == a + b[..n] && (a + b)[|a + b| - 1] == b[n];
      ItemsSplit(a, b[..n]);
    }
  }

  lemma {:induction false} TextSplits<U>(a: seq<Event<U>>, b: seq<Event<U>>)
    ensures TextOf(a + b) == TextOf(a) + TextOf(b)
    decreases |b|
  {
    if b == [] {
      assert a + b == a;
    } else {
      var front, last := b[..|b| - 1], b[|b| - 1];
      TextSplits(a, front);
      assert a + b == (a + front) + [last] && b == front + [last];
      OneMore(a + front, last);
      OneMore(front, last);
      Assoc(TextOf(a), TextOf(front), if last.TextDelta? then last.delta else "");
    }
  }

  lemma Assoc(x: string, y: string, z: string)
    ensures (x + y) + z == x + (y + z)
  {
  }

  /** The text is that of the deltas, in order. */
  lemma TextOfOne<U>(e: Event<U>)
    ensures TextOf([e]) == if e.TextDelta? then e.delta else ""
  {
    assert [e][..0] == [];
  }

  /** Two events of which one is no text, one adds no item, and that are not about one item. */
  ghost predicate Separate<U>(e: Event<U>, f: Event<U>) {
    && !(e.TextDelta? && f.TextDelta?) && !(e.Added? && f.Added?)
    && ((e.Added? || e.ArgumentsDelta? || e.ArgumentsDone?) && (f.Added? || f.ArgumentsDelta? || f.ArgumentsDone?)
        ==> e.id != f.id)
  }

  lemma OneOfThemEmpty<U>(e: Event<U>, f: Event<U>, id: Id)
    requires Separate(e, f)
    ensures Own([e], id) == [] || Own([f], id) == []
    ensures Texts([e]) == [] || Texts([f]) == []
    ensures ItemsOf([e]) == [] || ItemsOf([f]) == []
  {
    assert [e][..0] == [] && [f][..0] == [];
  }

  lemma Exchange<T>(x: seq<T>, y: seq<T>, z: seq<T>, u: seq<T>)
    requires y == [] || z == []
    ensures x + y + z + u == x + z + y + u
  {
    if y == [] {
      assert x + y == x && x + z + y == x + z;
    } else {
      assert x + z == x && x + y + z == x + y;
    }
  }

  lemma OwnParts<U>(a: seq<Event<U>>, e: Event<U>, f: Event<U>, b: seq<Event<U>>, id: Id)
    ensures Own(a + [e] + [f] + b, id) == Own(a, id) + Own([e], id) + Own([f], id) + Own(b, id)
  {
    OwnSplits(a, [e], id);
    OwnSplits(a + [e], [f], id);
    OwnSplits(a + [e] + [f], b, id);
  }

  lemma TextsParts<U>(a: seq<Event<U>>, e: Event<U>, f: Event<U>, b: seq<Event<U>>)
    ensures Texts(a + [e] + [f] + b) == Texts(a) + Texts([e]) + Texts([f]) + Texts(b)
  {
    TextsSplit(a, [e]);
    TextsSplit(a + [e], [f]);
    TextsSplit(a + [e] + [f], b);
  }

  lemma ItemsParts<U>(a: seq<Event<U>>, e: Event<U>, f: Event<U>, b: seq<Event<U>>)
    ensures ItemsOf(a + [e] + [f] + b) == ItemsOf(a) + ItemsOf([e]) + ItemsOf([f]) + ItemsOf(b)
  {
    ItemsSplit(a, [e]);
    ItemsSplit(a + [e], [f]);
    ItemsSplit(a + [e] + [f], b);
  }

  /** Neighbours of separate streams can come in either order. */
  lemma NeighboursCommute<U(!new)>(a: seq<Event<U>>, e: Event<U>, f: Event<U>, b: seq<Event<U>>)
    requires Separate(e, f)
    ensures TextOf(a + [e] + [f] + b) == TextOf(a + [f] + [e] + b)
    ensures CallsOf(a + [e] + [f] + b) == CallsOf(a + [f] + [e] + b)
  {
    var es, fs := a + [e] + [f] + b, a + [f] + [e] + b;
    forall id ensures Own(es, id) == Own(fs, id) {
      OwnParts(a, e, f, b, id);
      OwnParts(a, f, e, b, id);
      OneOfThemEmpty(e, f, id);
      Exchange(Own(a, id), Own([e], id), Own([f], id), Own(b, id));
    }
    OneOfThemEmpty(e, f, None);
    TextsParts(a, e, f, b);
    TextsParts(a, f, e, b);
    Exchange(Texts(a), Texts([e]), Texts([f]), Texts(b));
    ItemsParts(a, e, f, b);
    ItemsParts(a, f, e, b);
    Exchange(ItemsOf(a), ItemsOf([e]), ItemsOf([f]), ItemsOf(b));
    InterleavingIrrelevant(es, fs);
  }

  /** The concatenation of the argument deltas among some events. */
  function Deltas<U>(es: seq<Event<U>>): string {
    if es == [] then "" else
      var e := es[|es| - 1];
      Deltas(es[..|es| - 1]) + if e.ArgumentsDelta? then e.delta else ""
  }

  /** The last complete argument string among some events. */
  function LastDone<U>(es: seq<Event<U>>): Option<string> {
    if es == [] then None else
      var e := es[|es| - 1];
      if e.ArgumentsDone? && e.arguments.Some? then e.arguments else LastDone(es[..|es| - 1])
  }

  /** An item's events: its `added` event and then argument events. */
  ghost predicate CallStream<U>(own: seq<Event<U>>, id: Id, callId: string, name: Option<string>, rest: seq<Event<U>>) {
    && own == [Added(id, callId, name)] + rest
    && forall i :: 0 <= i < |rest| ==> (rest[i].ArgumentsDelta? || rest[i].ArgumentsDone?) && rest[i].id == id
  }

  lemma {:induction false} StreamCall<U>(own: seq<Event<U>>, id: Id, callId: string, name: Option<string>,
                                         rest: seq<Event<U>>)
    requires CallStream(own, id, callId, name, rest)
    ensures CallOf(own, id) == Some(Call(if callId != "" then Some(callId) else id, name, Deltas(rest), LastDone(rest)))
    decreases |rest|
  {
    if rest == [] {
      CallOfNext<U>([], Added(id, callId, name), id);
      assert own == [] + [Added(id, callId, name)];
    } else {
      var n := |rest| - 1;
      assert own[..n + 1] == [Added(id, callId, name)] + rest[..n];
      StreamCall(own[..n + 1], id, callId, name, rest[..n]);
      assert own == own[..n + 1] + [rest[n]];
      CallOfNext(own[..n + 1], rest[n], id);
      assert Deltas(rest[..n]) + "" == Deltas(rest[..n]);
    }
  }

  /**
   However the streams interleave, tool calls come in the order their items were added, each with the
   arguments of its own `done` event or else the concatenation of its own deltas, or {} if that is empty.
   */
  lemma {:induction false} ToolCallOfItem<U>(es: seq<Event<U>>, i: nat, callId: string, name: Option<string>,
                                             rest: seq<Event<U>>)
    requires LastFailure(es).None? && i < |ItemsOf(es)|
    requires CallStream(Own(es, ItemsOf(es)[i]), ItemsOf(es)[i], callId, name, rest)
    ensures var r := Meaning(es);
      && r.Answer? && r.finish == ToolCalls && |r.calls| == |ItemsOf(es)|
      && r.calls[i].id == (if callId != "" then Some(callId) else ItemsOf(es)[i]) && r.calls[i].name == name
      && var args := if LastDone(rest).Some? then LastDone(rest).value else Deltas(rest);
         r.calls[i].arguments == if args == "" then "{}" else args
  {
    var id := ItemsOf(es)[i];
    CallOfOwn(es, id);
    StreamCall(Own(es, id), id, callId, name, rest);
  }

  /** The reply is an error if and only if a failure event came before the end of the stream. */
  lemma {:induction false} ErrorIff<U>(es: seq<Event<U>>)
    ensures Meaning(es).Error? <==> exists i :: 0 <= i < |es| && es[i].Failed?
  {
    if es == [] {
    } else {
      var before := es[..|es| - 1];
      ErrorIff(before);
      assert forall i :: 0 <= i < |before| ==> before[i] == es[i];
    }
  }

  /** The usage is that of the last completion event that carries one. */
  lemma ReportedUsage<U>(es: seq<Event<U>>, i: nat)
    requires i < |es| && es[i].Completed? && es[i].usage.Some? && LastFailure(es).None?
    requires forall k :: i < k < |es| ==> !(es[k].Completed? && es[k].usage.Some?)
    ensures Meaning(es).usage == es[i].usage
  {
    UsageIsLast(es, i);
  }

  /** Tool calls decide the finish reason, then truncation. */
  lemma FinishReason<U>(es: seq<Event<U>>)
    requires LastFailure(es).None?
    ensures Meaning(es).finish == ToolCalls <==> exists k :: 0 <= k < |es| && es[k].Added?
    ensures Meaning(es).finish == Length <==>
      && (exists k :: 0 <= k < |es| && es[k].Completed? && es[k].incomplete)
      && (forall k :: 0 <= k < |es| ==> !es[k].Added?)
  {
    AnyAdded(es);
  }

  lemma {:induction false} UsageIsLast<U>(es: seq<Event<U>>, i: nat)
    requires i < |es| && es[i].Completed? && es[i].usage.Some?
    requires forall k :: i < k < |es| ==> !(es[k].Completed? && es[k].usage.Some?)
    ensures LastUsage(es) == es[i].usage
    decreases |es|
  {
    if i < |es| - 1 { UsageIsLast(es[..|es| - 1], i); }
  }

  lemma {:induction false} AnyAdded<U>(es: seq<Event<U>>)
    ensures ItemsOf(es) != [] <==> exists k :: 0 <= k < |es| && es[k].Added?
  {
    if es == [] {
    } else {
      var before := es[..|es| - 1];
      AnyAdded(before);
      assert forall k :: 0 <= k < |before| ==> before[k] == es[k];
    }
  }

  /** What follows `[DONE]` is not read. */
  lemma {:induction false} NothingAfterDone<U>(lines: seq<string>, more: seq<string>, decode: string -> Event<U>)
    requires exists i :: 0 <= i < |lines| && EventOf(lines[i], decode).Stop?
    ensures EventsOf(lines + more, decode) == EventsOf(lines, decode)
    decreases |lines|
  {
    assert (lines + more)[0] == lines[0];
    if !EventOf(lines[0], decode).Stop? {
      var i :| 0 <= i < |lines| && EventOf(lines[i], decode).Stop?;
      assert lines[1..][i - 1] == lines[i];
      assert (lines + more)[1..] == lines[1..] + more;
      NothingAfterDone(lines[1..], more, decode);
    }
  }
}
