/**
 Reading usage, x_router and error off the tail of a stream (auth_proxy.py, `_parse_stream_tail`): the data
 lines newest first, until usage and x_router are both found. `json` decodes one data line and is a
 parameter; lines are those of Python's `splitlines` on the UTF-8 text.
 */
module TailParse {
  import opened Common
  import opened SseTail

  /** The object-valued fields of a decoded line, or what has been found so far. */
  datatype Found<T> = Found(usage: Option<T>, xRouter: Option<T>, error: Option<T>)
  {
    predicate Enough() { usage.Some? && xRouter.Some? }
  }

  function At(s: Bytes, i: int): int { if 0 <= i < |s| then s[i] as int else -1 }

  /** Length of the line terminator at i, 0 if there is none: CR LF, one ASCII control, or U+0085, U+2028, U+2029. */
  function TermLen(s: Bytes, i: nat): (n: nat)
    ensures n > 0 ==> i + n <= |s|
  {
    var b := At(s, i);
    if b == 13 && At(s, i + 1) == 10 then 2
    else if b in {10, 11, 12, 13, 28, 29, 30} then 1
    else if b == 0xC2 && At(s, i + 1) == 0x85 then 2
    else if b == 0xE2 && At(s, i + 1) == 0x80 && At(s, i + 2) in {0xA8, 0xA9} then 3
    else 0
  }

  /** The end of the line that starts at i. */
  function LineEnd(s: Bytes, i: nat): (e: nat)
    requires i <= |s|
    ensures i <= e <= |s|
    ensures e < |s| ==> TermLen(s, e) > 0
    decreases |s| - i
  {
    if i == |s| || TermLen(s, i) > 0 then i else LineEnd(s, i + 1)
  }

  /** `splitlines`. */
  function Lines(s: Bytes): seq<Bytes>
    decreases |s|
  {
    if s == [] then [] else
      var e := LineEnd(s, 0);
      if e == |s| then [s] else [s[..e]] + Lines(s[e + TermLen(s, e)..])
  }

  function Strip(s: Bytes): Bytes
    decreases |s|
  {
    if s == [] then []
    else if AsciiSpace(s[0] as int) then Strip(s[1..])
    else if AsciiSpace(s[|s| - 1] as int) then Strip(s[..|s| - 1])
    else s
  }

  const DATA: Bytes := [100, 97, 116, 97, 58]
  const DONE: Bytes := [91, 68, 79, 78, 69, 93]

  /** What one line contributes; lines that are no JSON object contribute nothing. */
  function Payload<T>(line: Bytes, json: Bytes -> Option<Found<T>>): Option<Found<T>> {
    var l := Strip(line);
    if !(DATA <= l) then None else
      var data := Strip(l[|DATA|..]);
      if data == [] || data == DONE then None else json(data)
  }

  function Or<T>(a: Option<T>, b: Option<T>): Option<T> { if a.Some? then a else b }

  /** A newer find is kept, an older one only fills gaps. */
  function Merge<T>(found: Found<T>, older: Option<Found<T>>): Found<T> {
    if older.None? then found else
      Found(Or(found.usage, older.value.usage), Or(found.xRouter, older.value.xRouter),
            Or(found.error, older.value.error))
  }

  /** Scan lines from the last to the first, stopping as soon as usage and x_router are known. */
  function Scan<T>(lines: seq<Bytes>, found: Found<T>, json: Bytes -> Option<Found<T>>): Found<T> {
    if lines == [] || found.Enough() then found
    else Scan(lines[..|lines| - 1], Merge(found, Payload(lines[|lines| - 1], json)), json)
  }

  function Parsed<T>(tail: Bytes, json: Bytes -> Option<Found<T>>): Found<T> {
    Scan(Lines(tail), Found(None, None, None), json)
  }

  /** `_parse_stream_tail`. */
  method ParseStreamTail<T>(tail: Bytes, json: Bytes -> Option<Found<T>>) returns (out: Found<T>)
    ensures out == Parsed(tail, json)
  {
    var lines := Lines(tail);
    out := Found(None, None, None);
    var n := |lines|;
    assert lines[..n] == lines;
    while n > 0
      invariant 0 <= n <= |lines|
      invariant Scan(lines[..n], out, json) == Parsed(tail, json)
      invariant !out.Enough()
    {
      assert lines[..n][..n - 1] == lines[..n - 1];
      n := n - 1;
      var payload := Payload(lines[n], json);
      if payload.Some? {
        out := Found(Or(out.usage, payload.value.usage), Or(out.xRouter, payload.value.xRouter),
                     Or(out.error, payload.value.error));
        if out.usage.Some? && out.xRouter.Some? { break; }
      }
    }
  }

  // ---- lines and what they carry ----

  /** What ends a line: one of seven ASCII controls, CR LF, U+0085, or U+2028 and U+2029 in UTF-8. */
  ghost predicate IsTerminator(t: Bytes) {
    || t in {[10], [11], [12], [13], [28], [29], [30]}
    || t == [13, 10] || t == [0xC2, 0x85] || t == [0xE2, 0x80, 0xA8] || t == [0xE2, 0x80, 0xA9]
  }

  /** The n bytes at i are a terminator. */
  ghost predicate TermOf(s: Bytes, i: nat, n: nat) { i + n <= |s| && IsTerminator(s[i..i + n]) }

  ghost predicate TermAt(s: Bytes, i: nat) { TermOf(s, i, 1) || TermOf(s, i, 2) || TermOf(s, i, 3) }

  /** `TermLen` is the length of the longest terminator at i. */
  lemma TermLenIs(s: Bytes, i: nat)
    requires i <= |s|
    ensures TermLen(s, i) <= 3 && (TermLen(s, i) > 0 <==> TermAt(s, i))
    ensures TermOf(s, i, 1) ==> TermLen(s, i) >= 1
    ensures TermOf(s, i, 2) ==> TermLen(s, i) >= 2
    ensures TermOf(s, i, 3) ==> TermLen(s, i) >= 3
    ensures TermLen(s, i) > 0 ==> TermOf(s, i, TermLen(s, i))
  {
    if i + 1 <= |s| { assert s[i..i + 1] == [s[i]]; }
    if i + 2 <= |s| { assert s[i..i + 2] == [s[i], s[i + 1]]; }
    if i + 3 <= |s| { assert s[i..i + 3] == [s[i], s[i + 1], s[i + 2]]; }
  }

  /** No terminator starts at any of i, .., e - 1. */
  ghost predicate TermFree(s: Bytes, i: nat, e: nat)
    requires i <= e
    decreases e - i
  {
    i == e || (!TermAt(s, i) && TermFree(s, i + 1, e))
  }

  lemma {:induction false} LineEndsAt(s: Bytes, i: nat, e: nat)
    requires i <= e <= |s| && TermFree(s, i, e) && (e == |s| || TermAt(s, e))
    ensures LineEnd(s, i) == e
    decreases e - i
  {
    TermLenIs(s, i);
    if i < e { LineEndsAt(s, i + 1, e); }
  }

  /** The longest terminator at e is n bytes. */
  ghost predicate LongestTerm(s: Bytes, e: nat, n: nat) {
    1 <= n <= 3 && TermOf(s, e, n) && (n < 2 ==> !TermOf(s, e, 2)) && (n < 3 ==> !TermOf(s, e, 3))
  }

  lemma LongestTermLen(s: Bytes, e: nat, n: nat)
    requires e <= |s| && LongestTerm(s, e, n)
    ensures TermLen(s, e) == n && TermAt(s, e)
  {
    TermLenIs(s, e);
  }

  /** A line runs up to the first terminator; the longest one there is dropped, and the rest is split likewise. */
  lemma LinesAt(s: Bytes, e: nat, n: nat)
    requires e <= |s| && LongestTerm(s, e, n) && TermFree(s, 0, e)
    ensures Lines(s) == [s[..e]] + Lines(s[e + n..])
  {
    LongestTermLen(s, e, n);
    LineEndsAt(s, 0, e);
    FirstLine(s, e);
  }

  /** What is left without a terminator is the last line, if it is anything. */
  lemma LastLine(line: Bytes)
    requires TermFree(line, 0, |line|)
    ensures Lines(line) == if line == [] then [] else [line]
  {
    LineEndsAt(line, 0, |line|);
  }

  predicate AllSpace(s: Bytes) { forall i :: 0 <= i < |s| ==> AsciiSpace(s[i] as int) }

  /** Nothing to strip. */
  predicate Bare(s: Bytes) { s == [] || (!AsciiSpace(s[0] as int) && !AsciiSpace(s[|s| - 1] as int)) }

  lemma {:induction false} StripIs(pre: Bytes, core: Bytes, post: Bytes)
    requires AllSpace(pre) && AllSpace(post) && Bare(core)
    ensures Strip(pre + core + post) == core
    decreases |pre| + |post|
  {
    var s := pre + core + post;
    if pre != [] {
      assert s[1..] == pre[1..] + core + post;
      StripIs(pre[1..], core, post);
    } else if core == [] && post != [] {
      assert s[1..] == [] + [] + post[1..];
      StripIs([], [], post[1..]);
    } else if post != [] {
      assert s[..|s| - 1] == [] + core + post[..|post| - 1];
      StripIs([], core, post[..|post| - 1]);
    } else {
      assert s == core;
    }
  }

  /**
   A data line, `data:` in bytes, contributes what follows it, white space around that ignored; an empty one and
   the one that says `[DONE]` contribute nothing.
   */
  lemma DataLine<T>(before: Bytes, gap: Bytes, data: Bytes, after: Bytes, json: Bytes -> Option<Found<T>>)
    requires AllSpace(before) && AllSpace(gap) && AllSpace(after) && Bare(data)
    ensures Payload(before + ([100, 97, 116, 97, 58] + gap + data) + after, json) ==
      if data == [] || data == [91, 68, 79, 78, 69, 93] then None else json(data)
  {
    var core := DATA + gap + data;
    if data == [] {
      assert before + core + after == before + DATA + (gap + after);
      StripIs(before, DATA, gap + after);
      assert DATA[|DATA|..] == [];
    } else {
      StripIs(before, core, after);
      assert core[|DATA|..] == gap + data + [];
      StripIs(gap, data, []);
    }
  }

  /** Any other line contributes nothing. */
  lemma OtherLine<T>(before: Bytes, core: Bytes, after: Bytes, json: Bytes -> Option<Found<T>>)
    requires AllSpace(before) && AllSpace(after) && Bare(core) && !([100, 97, 116, 97, 58] <= core)
    ensures Payload(before + core + after, json) == None
  {
    StripIs(before, core, after);
  }

  // ---- lines of a stream that was cut after a line feed ----

  lemma TermLenLocal(p: Bytes, t: Bytes, i: nat)
    requires p != [] && p[|p| - 1] == LF && i < |p|
    ensures TermLen(p + t, i) == TermLen(p, i)
  {
    assert (p + t)[i] == p[i];
    assert i + 1 < |p| ==> (p + t)[i + 1] == p[i + 1];
    assert i + 2 < |p| ==> (p + t)[i + 2] == p[i + 2];
  }

  lemma {:induction false} LineEndLocal(p: Bytes, t: Bytes, i: nat)
    requires p != [] && p[|p| - 1] == LF && i < |p|
    ensures LineEnd(p + t, i) == LineEnd(p, i) < |p|
    decreases |p| - i
  {
    TermLenLocal(p, t, i);
    if i + 1 < |p| && TermLen(p, i) == 0 { LineEndLocal(p, t, i + 1); }
  }

  lemma Regroup(x: Bytes, a: seq<Bytes>, b: seq<Bytes>)
    ensures [x] + (a + b) == ([x] + a) + b
  {
  }

  lemma FirstLine(s: Bytes, e: nat)
    requires e == LineEnd(s, 0) < |s|
    ensures Lines(s) == [s[..e]] + Lines(s[e + TermLen(s, e)..])
  {
  }

  lemma SplitSlices(p: Bytes, t: Bytes, e: nat, n: nat)
    requires e <= |p| && n <= |p|
    ensures (p + t)[..e] == p[..e] && (p + t)[n..] == p[n..] + t
  {
  }

  lemma LastAfter(p: Bytes, n: nat)
    requires n <= |p| && p != [] && p[|p| - 1] == LF
    ensures p[n..] == [] || p[n..][|p[n..]| - 1] == LF
  {
  }

  lemma {:induction false} LinesSplit(p: Bytes, t: Bytes)
    requires p == [] || p[|p| - 1] == LF
    ensures Lines(p + t) == Lines(p) + Lines(t)
    decreases |p|
  {
    if p == [] {
      assert p + t == t;
    } else {
      LineEndLocal(p, t, 0);
      var e := LineEnd(p, 0);
      TermLenLocal(p, t, e);
      var n := e + TermLen(p, e);
      SplitSlices(p, t, e, n);
      LastAfter(p, n);
      FirstLine(p, e);
      FirstLine(p + t, e);
      LinesSplit(p[n..], t);
      Regroup(p[..e], Lines(p[n..]), Lines(t));
    }
  }

  lemma {:induction false} ScanSplit<T>(a: seq<Bytes>, b: seq<Bytes>, found: Found<T>, json: Bytes -> Option<Found<T>>)
    ensures Scan(a + b, found, json) == Scan(a, Scan(b, found, json), json)
    decreases |b|
  {
    if b == [] {
      assert a + b == a;
    } else if !found.Enough() {
      assert (a + b)[..|a + b| - 1] == a + b[..|b| - 1];
      ScanSplit(a, b[..|b| - 1], Merge(found, Payload(b[|b| - 1], json)), json);
    }
  }

  // ---- what is found ----

  /** Once a field is found it stays. */
  lemma {:induction false} ScanKeeps<T>(lines: seq<Bytes>, found: Found<T>, json: Bytes -> Option<Found<T>>)
    ensures var r := Scan(lines, found, json);
      && (found.usage.Some? ==> r.usage == found.usage) && (found.xRouter.Some? ==> r.xRouter == found.xRouter)
      && (found.error.Some? ==> r.error == found.error)
    decreases |lines|
  {
    if lines != [] && !found.Enough() {
      ScanKeeps(lines[..|lines| - 1], Merge(found, Payload(lines[|lines| - 1], json)), json);
    }
  }

  datatype Which = Usage | XRouter | Error

  function FieldOf<T>(f: Found<T>, which: Which): Option<T> {
    match which
    case Usage => f.usage
    case XRouter => f.xRouter
    case Error => f.error
  }

  /** The field in what a line contributes. */
  function InLine<T>(line: Bytes, which: Which, json: Bytes -> Option<Found<T>>): Option<T> {
    var p := Payload(line, json);
    if p.Some? then FieldOf(p.value, which) else None
  }

  /** The newest value of a field among some lines. */
  function Newest<T>(lines: seq<Bytes>, which: Which, json: Bytes -> Option<Found<T>>): Option<T> {
    if lines == [] then None else
      Or(InLine(lines[|lines| - 1], which, json), Newest(lines[..|lines| - 1], which, json))
  }

  /** Line i has the field, and no newer one. */
  ghost predicate HasNewest<T>(lines: seq<Bytes>, i: nat, which: Which, json: Bytes -> Option<Found<T>>) {
    && i < |lines| && InLine(lines[i], which, json).Some?
    && forall j :: i < j < |lines| ==> InLine(lines[j], which, json).None?
  }

  lemma {:induction false} NewestIs<T>(lines: seq<Bytes>, i: nat, which: Which, json: Bytes -> Option<Found<T>>)
    requires HasNewest(lines, i, which, json)
    ensures Newest(lines, which, json) == InLine(lines[i], which, json)
    decreases |lines|
  {
    if i < |lines| - 1 { NewestIs(lines[..|lines| - 1], i, which, json); }
  }

  lemma {:induction false} FindNewest<T>(lines: seq<Bytes>, which: Which,
                                         json: Bytes -> Option<Found<T>>) returns (i: nat)
    requires Newest(lines, which, json).Some?
    ensures HasNewest(lines, i, which, json)
    decreases |lines|
  {
    var n := |lines| - 1;
    if InLine(lines[n], which, json).Some? {
      i := n;
    } else {
      i := FindNewest(lines[..n], which, json);
      assert forall j :: i < j < n ==> lines[..n][j] == lines[j];
    }
  }

  lemma {:induction false} ScanFinds<T>(lines: seq<Bytes>, found: Found<T>, json: Bytes -> Option<Found<T>>)
    ensures var r := Scan(lines, found, json);
      && r.usage == Or(found.usage, Newest(lines, Usage, json))
      && r.xRouter == Or(found.xRouter, Newest(lines, XRouter, json))
    decreases |lines|
  {
    if lines != [] && !found.Enough() {
      var n := |lines| - 1;
      ScanFinds(lines[..n], Merge(found, Payload(lines[n], json)), json);
    }
  }

  /** What is reported: the newest usage and the newest x_router of all lines. */
  lemma NewestFound<T>(tail: Bytes, which: Which, i: nat, json: Bytes -> Option<Found<T>>)
    requires which != Error
    ensures var lines, r := Lines(tail), FieldOf(Parsed(tail, json), which);
      && (HasNewest(lines, i, which, json) ==> r == InLine(lines[i], which, json))
      && (r.Some? ==> exists k: nat :: HasNewest(lines, k, which, json))
  {
    var lines := Lines(tail);
    ScanFinds(lines, Found(None, None, None), json);
    if HasNewest(lines, i, which, json) { NewestIs(lines, i, which, json); }
    if Newest(lines, which, json).Some? {
      var k := FindNewest(lines, which, json);
    }
  }

  /** One more line in front. */
  lemma LastOf<T>(lines: seq<Bytes>, i: nat, which: Which, json: Bytes -> Option<Found<T>>)
    requires i < |lines| - 1
    ensures var n := |lines| - 1;
      Newest(lines[i + 1..], which, json) ==
        Or(InLine(lines[n], which, json), Newest(lines[..n][i + 1..], which, json))
  {
    var n := |lines| - 1;
    var rest := lines[i + 1..];
    assert rest[..|rest| - 1] == lines[..n][i + 1..] && rest[|rest| - 1] == lines[n];
  }

  lemma {:induction false} ScanError<T>(lines: seq<Bytes>, found: Found<T>, i: nat, json: Bytes -> Option<Found<T>>)
    requires HasNewest(lines, i, Error, json) && found.error.None? && !found.Enough()
    ensures Scan(lines, found, json).error ==
      if Or(found.usage, Newest(lines[i + 1..], Usage, json)).Some?
         && Or(found.xRouter, Newest(lines[i + 1..], XRouter, json)).Some?
      then None else InLine(lines[i], Error, json)
    decreases |lines|
  {
    var n := |lines| - 1;
    var next := Merge(found, Payload(lines[n], json));
    if i == n {
      ScanKeeps(lines[..n], next, json);
    } else {
      LastOf(lines, i, Usage, json);
      LastOf(lines, i, XRouter, json);
      assert InLine(lines[n], Error, json).None?;
      if !next.Enough() {
        assert HasNewest(lines[..n], i, Error, json);
        ScanError(lines[..n], next, i, json);
      }
    }
  }

  /** The newest error is reported unless usage and x_router are both in newer lines, where the search ends. */
  lemma ErrorFound<T>(tail: Bytes, i: nat, json: Bytes -> Option<Found<T>>)
    requires HasNewest(Lines(tail), i, Error, json)
    ensures var newer := Lines(tail)[i + 1..];
      Parsed(tail, json).error ==
        if Newest(newer, Usage, json).Some? && Newest(newer, XRouter, json).Some? then None
        else InLine(Lines(tail)[i], Error, json)
  {
    ScanError(Lines(tail), Found(None, None, None), i, json);
  }

  // ---- exactly when the tail is enough ----

  /** The line holds no field that is still missing. */
  ghost predicate AddsNothing<T>(line: Bytes, found: Found<T>, json: Bytes -> Option<Found<T>>) {
    Merge(found, Payload(line, json)) == found
  }

  ghost predicate AllAddNothing<T(!new)>(lines: seq<Bytes>, found: Found<T>, json: Bytes -> Option<Found<T>>) {
    forall i :: 0 <= i < |lines| ==> AddsNothing(lines[i], found, json)
  }

  lemma {:induction false} ScanUnchangedIff<T(!new)>(lines: seq<Bytes>, found: Found<T>,
                                                     json: Bytes -> Option<Found<T>>)
    requires !found.Enough()
    ensures Scan(lines, found, json) == found <==> AllAddNothing(lines, found, json)
    decreases |lines|
  {
    if lines == [] {
    } else {
      var n := |lines| - 1;
      ScanUnchangedIff(lines[..n], found, json);
      ScanKeeps(lines[..n], Merge(found, Payload(lines[n], json)), json);
    }
  }

  /**
   Dropping a prefix that ends with a line feed changes nothing if and only if usage and x_router are both in
   what is kept, or no dropped line holds a field that the kept part lacks.
   */
  lemma {:induction false} DroppedPrefixIff<T(!new)>(p: Bytes, t: Bytes, json: Bytes -> Option<Found<T>>)
    requires p == [] || p[|p| - 1] == LF
    ensures Parsed(p + t, json) == Parsed(t, json) <==>
      (Parsed(t, json).Enough() || AllAddNothing(Lines(p), Parsed(t, json), json))
  {
    LinesSplit(p, t);
    ScanSplit(Lines(p), Lines(t), Found(None, None, None), json);
    if !Parsed(t, json).Enough() {
      ScanUnchangedIff(Lines(p), Parsed(t, json), json);
    }
  }

  lemma LeadingLfHarmless<T(!new)>(t: Bytes, json: Bytes -> Option<Found<T>>)
    ensures Parsed([LF] + t, json) == Parsed(t, json)
  {
    var p: Bytes := [LF];
    assert LineEnd(p, 0) == 0 && TermLen(p, 0) == 1;
    assert Lines(p) == [[]] by { assert p[..0] == [] && p[1..] == []; }
    assert Payload([], json).None?;
    DroppedPrefixIff(p, t, json);
  }

  /** What a cut drops: it ends with a line feed. */
  lemma CutEndsLine(stream: Bytes)
    ensures var p := stream[..Cut(stream)]; stream == p + stream[Cut(stream)..] && (p == [] || p[|p| - 1] == LF)
  {
  }

  lemma BufferIsKept<T(!new)>(chunks: seq<Bytes>, json: Bytes -> Option<Found<T>>)
    requires BelowCap(Concat(chunks))
    ensures Parsed(Received(chunks), json) == Parsed(Concat(chunks)[Cut(Concat(chunks))..], json)
  {
    ChunkIndependence(chunks);
    LeadingLfHarmless(Concat(chunks)[Cut(Concat(chunks))..], json);
  }

  lemma KeptIff<T(!new)>(stream: Bytes, json: Bytes -> Option<Found<T>>)
    ensures var kept := Parsed(stream[Cut(stream)..], json);
      kept == Parsed(stream, json) <==> (kept.Enough() || AllAddNothing(Lines(stream[..Cut(stream)]), kept, json))
  {
    CutEndsLine(stream);
    DroppedPrefixIff(stream[..Cut(stream)], stream[Cut(stream)..], json);
  }

  /**
   End to end: for every way the stream arrived in chunks below the hard cap, parsing the buffer gives what
   parsing the whole stream gives, exactly under that condition on the lines the cut dropped.
   */
  lemma {:induction false} ParsedTailIff<T(!new)>(chunks: seq<Bytes>, json: Bytes -> Option<Found<T>>)
    requires BelowCap(Concat(chunks))
    ensures var stream := Concat(chunks);
      var kept := Parsed(stream[Cut(stream)..], json);
      && Parsed(Received(chunks), json) == kept
      && (kept == Parsed(stream, json) <==> (kept.Enough() || AllAddNothing(Lines(stream[..Cut(stream)]), kept, json)))
  {
    BufferIsKept(chunks, json);
    KeptIff(Concat(chunks), json);
  }

  /**
   In particular the last two complete events are enough: if what follows some blank line has at most two of
   them and holds both usage and x_router, the buffer says what the whole stream says.
   */
  lemma {:induction false} LastTwoEventsSuffice<T(!new)>(chunks: seq<Bytes>,
                                                         json: Bytes -> Option<Found<T>>, start: nat)
    requires BelowCap(Concat(chunks)) && start <= |Concat(chunks)|
    requires start == 0 || (start >= 2 && BlankAt(Concat(chunks), start - 2))
    requires Boundary(Concat(chunks)[start..], 3) < 0 && Parsed(Concat(chunks)[start..], json).Enough()
    ensures Parsed(Received(chunks), json) == Parsed(Concat(chunks), json) == Parsed(Concat(chunks)[start..], json)
  {
    var s := Concat(chunks);
    BufferIsKept(chunks, json);
    EnoughFrom(s, 0, start, json);
    assert s[0..] == s;
    CutNear(s, start);
    if Cut(s) <= start {
      EnoughFrom(s, Cut(s), start, json);
    } else {
      LeadingLfHarmless(s[Cut(s)..], json);
    }
  }

  /** The cut keeps what holds at most two complete events, but for a line feed of a longer blank gap. */
  lemma CutNear(s: Bytes, start: nat)
    requires start <= |s| && Boundary(s[start..], 3) < 0
    ensures Cut(s) > start ==> s[start..] == [LF] + s[Cut(s)..]
  {
    BoundarySuffix(s, start, 3);
    if Cut(s) > start {
      assert Cut(s) == start + 1 && s[start] == LF;
      assert s[start..] == [s[start]] + s[start + 1..];
    }
  }

  lemma EnoughFrom<T(!new)>(s: Bytes, i: nat, start: nat, json: Bytes -> Option<Found<T>>)
    requires i <= start <= |s| && (start == i || s[start - 1] == LF) && Parsed(s[start..], json).Enough()
    ensures Parsed(s[i..], json) == Parsed(s[start..], json)
  {
    assert s[i..] == s[i..start] + s[start..];
    DroppedPrefixIff(s[i..start], s[start..], json);
  }
}
