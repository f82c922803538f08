/**
 Data nodes of a flow (flow_data.py, `run`, `records`, `bounded`): bounded operations on JSON values.
 A Python dictionary is the sequence of its items in insertion order.
 */
module FlowData {
  import opened Common

  datatype Json =
    | Null
    | Bool(b: bool)
    | Num(n: real)
    | Str(s: string)
    | Arr(items: seq<Json>)
    | Obj(fields: seq<Field>)

  datatype Field = Field(key: string, value: Json)

  type Fields = seq<Field>

  const MAX_RECORDS: nat := 128
  const MAX_KEY_BYTES: nat := 128
  const MAX_BYTES: nat := 1048576
  const MAX_DEPTH: nat := 32

  datatype Error = ValueError | CallError(message: string)
  datatype Result<+T> = Ok(value: T) | Err(error: Error)

  function CharBytes(c: char): nat {
    if c as int < 0x80 then 1 else if c as int < 0x800 then 2 else if c as int < 0x10000 then 3 else 4
  }

  /** `len(s.encode())`. */
  function Utf8Len(s: string): nat {
    if s == "" then 0 else Utf8Len(s[..|s| - 1]) + CharBytes(s[|s| - 1])
  }

  function Keys(fields: Fields): set<string> { set f | f in fields :: f.key }

  ghost predicate DistinctKeys(fields: Fields) {
    forall i, j :: 0 <= i < j < |fields| ==> fields[i].key != fields[j].key
  }

  /** `fields.get(key)`, None when the key is absent. */
  function Get(fields: Fields, key: string): (r: Option<Json>)
    ensures r.None? <==> key !in Keys(fields)
    ensures r.Some? ==> Field(key, r.value) in fields
  {
    if fields == [] then None
    else if fields[0].key == key then Some(fields[0].value)
    else
      assert Keys(fields) == {fields[0].key} + Keys(fields[1..]) by { assert fields == [fields[0]] + fields[1..]; }
      Get(fields[1..], key)
  }

  predicate KeysFit(fields: Fields) {
    forall i :: 0 <= i < |fields| ==> 1 <= Utf8Len(fields[i].key) <= MAX_KEY_BYTES
  }

  predicate IsRecords(v: Json) {
    v.Obj? && |v.fields| <= MAX_RECORDS && KeysFit(v.fields)
  }

  function Depth(v: Json): nat {
    match v
    case Arr(items) => if items == [] then 0 else 1 + MaxDepth(items)
    case Obj(fields) => if fields == [] then 0 else 1 + MaxFieldDepth(fields)
    case _ => 0
  }

  function MaxDepth(items: seq<Json>): nat {
    if items == [] then 0 else
      var d, rest := Depth(items[0]), MaxDepth(items[1..]);
      if d > rest then d else rest
  }

  function MaxFieldDepth(fields: Fields): nat {
    if fields == [] then 0 else
      var d, rest := Depth(fields[0].value), MaxFieldDepth(fields[1..]);
      if d > rest then d else rest
  }

  /** `bounded`: nesting at most 32 deep and at most one mebibyte when encoded. */
  predicate Bounded(v: Json, encode: Json -> string) {
    Depth(v) <= MAX_DEPTH && Utf8Len(encode(v)) <= MAX_BYTES
  }

  /** Python `==` on scalars, where True == 1; structures compare as values. */
  function Scalar(v: Json): Json {
    match v
    case Bool(b) => Num(if b then 1.0 else 0.0)
    case _ => v
  }

  predicate Same(a: Json, b: Json) { Scalar(a) == Scalar(b) }

  datatype Operation =
    | Union
    | Project(path: seq<string>)
    | Select(field: string, equals: Json)
    | Overlay(maxBytes: Option<int>, minBytes: Option<int>, onlyShrink: bool)

  /** How many inputs admission demands of an operation. */
  predicate Arity(op: Operation, n: nat) {
    match op
    case Union => true
    case Project(_) => n >= 1
    case Select(_, _) => n >= 2
    case Overlay(_, _, _) => n >= 2
  }

  // ---- what the operations mean ----

  function Concat(parts: seq<Json>): Fields
    requires forall i :: 0 <= i < |parts| ==> parts[i].Obj?
  {
    if parts == [] then [] else Concat(parts[..|parts| - 1]) + parts[|parts| - 1].fields
  }

  /** No key is in two parts. */
  ghost predicate KeyDisjoint(parts: seq<Json>) {
    forall i, j :: 0 <= i < j < |parts| && parts[i].Obj? && parts[j].Obj? ==>
      Keys(parts[i].fields) !! Keys(parts[j].fields)
  }

  ghost predicate UnionDefined(parts: seq<Json>) {
    && (forall i :: 0 <= i < |parts| ==> IsRecords(parts[i]))
    && KeyDisjoint(parts) && |Concat(parts)| <= MAX_RECORDS
  }

  function Follow(v: Json, path: seq<string>): Result<Json> {
    if path == [] then Ok(v)
    else if !v.Obj? then Err(ValueError)
    else
      var next := Get(v.fields, path[0]);
      if next.None? then Err(ValueError) else Follow(next.value, path[1..])
  }

  /** Is the record kept: the other side has an object under its key whose field equals the wanted value. */
  predicate Selected(key: string, other: Fields, field: string, equals: Json) {
    var o := Get(other, key);
    && o.Some? && o.value.Obj?
    && var f := Get(o.value.fields, field);
       Same(if f.Some? then f.value else Null, equals)
  }

  function Filter(base: Fields, other: Fields, field: string, equals: Json): Fields {
    if base == [] then [] else
      var last := base[|base| - 1];
      Filter(base[..|base| - 1], other, field, equals) + if Selected(last.key, other, field, equals) then [last] else []
  }

  /** Is the replacement taken, under the node's byte limits. */
  predicate Accepts(op: Operation, old': Json, new': Json)
    requires op.Overlay?
  {
    && (op.maxBytes.Some? ==> new'.Str? && Utf8Len(new'.s) <= op.maxBytes.value)
    && (op.minBytes.Some? ==> new'.Str? && Utf8Len(new'.s) >= op.minBytes.value)
    && (op.onlyShrink ==> new'.Str? && old'.Str? && Utf8Len(new'.s) < Utf8Len(old'.s))
  }

  function Overlaid(op: Operation, f: Field, other: Fields): Field
    requires op.Overlay?
  {
    var r := Get(other, f.key);
    if r.Some? && Accepts(op, f.value, r.value) then Field(f.key, r.value) else f
  }

  function OverlayFields(op: Operation, base: Fields, other: Fields, removed: Fields): Fields
    requires op.Overlay?
  {
    if base == [] then [] else
      var last := base[|base| - 1];
      OverlayFields(op, base[..|base| - 1], other, removed)
      + if Get(removed, last.key).Some? then [] else [Overlaid(op, last, other)]
  }

  ghost function RunData(op: Operation, parts: seq<Json>): Result<Json>
    requires Arity(op, |parts|)
  {
    match op
    case Union => if UnionDefined(parts) then Ok(Obj(Concat(parts))) else Err(ValueError)
    case Project(path) => Follow(parts[0], path)
    case Select(field, equals) =>
      if IsRecords(parts[0]) && IsRecords(parts[1])
      then Ok(Obj(Filter(parts[0].fields, parts[1].fields, field, equals))) else Err(ValueError)
    case Overlay(_, _, _) =>
      var removed := if |parts| == 3 then parts[2] else Obj([]);
      if IsRecords(parts[0]) && IsRecords(parts[1]) && IsRecords(removed)
        && Keys(parts[1].fields) <= Keys(parts[0].fields) && Keys(removed.fields) <= Keys(parts[0].fields)
      then Ok(Obj(OverlayFields(op, parts[0].fields, parts[1].fields, removed.fields))) else Err(ValueError)
  }

  // ---- the operations as the code runs them ----

  lemma ConcatKeys(parts: seq<Json>)
    requires forall i :: 0 <= i < |parts| ==> parts[i].Obj?
    ensures forall k :: k in Keys(Concat(parts)) <==> exists i :: 0 <= i < |parts| && k in Keys(parts[i].fields)
  {
    if parts == [] {
    } else {
      var n := |parts| - 1;
      ConcatKeys(parts[..n]);
      forall k ensures k in Keys(Concat(parts)) <==> k in Keys(Concat(parts[..n])) || k in Keys(parts[n].fields) {
        KeysConcat(Concat(parts[..n]), parts[n].fields);
      }
    }
  }

  lemma KeysConcat(a: Fields, b: Fields)
    ensures Keys(a + b) == Keys(a) + Keys(b)
  {
    forall f | f in a ensures f.key in Keys(a + b) { assert f in a + b; }
    forall f | f in b ensures f.key in Keys(a + b) { assert f in a + b; }
  }

  /** One more part keeps the keys disjoint exactly if it shares none with what is already there. */
  lemma DisjointNext(parts: seq<Json>, k: nat)
    requires k < |parts| && (forall i :: 0 <= i <= k ==> parts[i].Obj?)
    requires KeyDisjoint(parts[..k])
    ensures KeyDisjoint(parts[..k + 1]) <==> Keys(Concat(parts[..k])) !! Keys(parts[k].fields)
  {
    var a, next := parts[..k], parts[k];
    ConcatKeys(a);
    assert parts[..k + 1] == a + [next];
    assert KeyDisjoint(a + [next]) <==> forall i :: 0 <= i < k ==> Keys(a[i].fields) !! Keys(next.fields) by {
      DisjointAppend(a, next);
    }
  }

  lemma DisjointAppend(a: seq<Json>, next: Json)
    requires KeyDisjoint(a) && next.Obj? && forall i :: 0 <= i < |a| ==> a[i].Obj?
    ensures KeyDisjoint(a + [next]) <==> forall i :: 0 <= i < |a| ==> Keys(a[i].fields) !! Keys(next.fields)
  {
    var b := a + [next];
    assert b[|a|] == next;
    assert forall i :: 0 <= i < |a| ==> b[i] == a[i];
  }

  method RunUnion(parts: seq<Json>) returns (r: Result<Json>)
    ensures r == RunData(Union, parts)
  {
    var result: Fields := [];
    var k := 0;
    while k < |parts|
      invariant 0 <= k <= |parts|
      invariant forall i :: 0 <= i < k ==> IsRecords(parts[i])
      invariant KeyDisjoint(parts[..k]) && result == Concat(parts[..k])
    {
      if !IsRecords(parts[k]) { return Err(ValueError); }
      DisjointNext(parts, k);
      assert parts[..k + 1][..k] == parts[..k];
      if !(Keys(result) !! Keys(parts[k].fields)) {
        assert !KeyDisjoint(parts) by {
          if KeyDisjoint(parts) { DisjointPrefix(parts, k + 1); }
        }
        return Err(ValueError);
      }
      result := result + parts[k].fields;
      k := k + 1;
    }
    assert parts[..k] == parts;
    ConcatFits(parts);
    r := if |result| <= MAX_RECORDS then Ok(Obj(result)) else Err(ValueError);
  }

  lemma DisjointPrefix(parts: seq<Json>, k: nat)
    requires KeyDisjoint(parts) && k <= |parts|
    ensures KeyDisjoint(parts[..k])
  {
  }

  lemma {:induction false} ConcatFits(parts: seq<Json>)
    requires forall i :: 0 <= i < |parts| ==> parts[i].Obj? && IsRecords(parts[i])
    ensures KeysFit(Concat(parts))
  {
    if parts == [] {
    } else {
      ConcatFits(parts[..|parts| - 1]);
    }
  }

  method RunProject(value0: Json, path: seq<string>) returns (r: Result<Json>)
    ensures r == Follow(value0, path)
  {
    var value := value0;
    var i := 0;
    while i < |path|
      invariant 0 <= i <= |path|
      invariant Follow(value, path[i..]) == Follow(value0, path)
    {
      if !value.Obj? { return Err(ValueError); }
      var next := Get(value.fields, path[i]);
      if next.None? { return Err(ValueError); }
      assert path[i..][1..] == path[i + 1..];
      value := next.value;
      i := i + 1;
    }
    r := Ok(value);
  }

  method RunOverlay(op: Operation, base: Fields, other: Fields, removed: Fields) returns (result: Fields)
    requires op.Overlay?
    ensures result == OverlayFields(op, base, other, removed)
  {
    result := [];
    var i := 0;
    while i < |base|
      invariant 0 <= i <= |base|
      invariant result == OverlayFields(op, base[..i], other, removed)
    {
      var key, value := base[i].key, base[i].value;
      assert base[..i + 1][..i] == base[..i];
      if Get(removed, key).None? {
        var replacement := Get(other, key);
        var accept := replacement.Some?;
        if accept && op.maxBytes.Some? {
          accept := replacement.value.Str? && Utf8Len(replacement.value.s) <= op.maxBytes.value;
        }
        if accept && op.minBytes.Some? {
          accept := replacement.value.Str? && Utf8Len(replacement.value.s) >= op.minBytes.value;
        }
        if accept && op.onlyShrink {
          accept := replacement.value.Str? && value.Str? && Utf8Len(replacement.value.s) < Utf8Len(value.s);
        }
        result := result + [Field(key, if accept then replacement.value else value)];
      }
      i := i + 1;
    }
    assert base[..i] == base;
  }

  method Run(op: Operation, parts: seq<Json>) returns (r: Result<Json>)
    requires Arity(op, |parts|)
    ensures r == RunData(op, parts)
  {
    match op {
      case Union => r := RunUnion(parts);
      case Project(path) => r := RunProject(parts[0], path);
      case Select(field, equals) =>
        if IsRecords(parts[0]) && IsRecords(parts[1]) {
          r := Ok(Obj(Filter(parts[0].fields, parts[1].fields, field, equals)));
        } else {
          r := Err(ValueError);
        }
      case Overlay(_, _, _) =>
        var removed := if |parts| == 3 then parts[2] else Obj([]);
        if !IsRecords(parts[0]) || !IsRecords(parts[1]) || !IsRecords(removed) { return Err(ValueError); }
        if !(Keys(parts[1].fields) <= Keys(parts[0].fields)) || !(Keys(removed.fields) <= Keys(parts[0].fields)) {
          return Err(ValueError);
        }
        var result := RunOverlay(op, parts[0].fields, parts[1].fields, removed.fields);
        r := Ok(Obj(result));
    }
  }

  // ---- what they promise ----

  /** A union holds exactly the parts' records: each key once, with the value of the one part that has it. */
  lemma {:induction false} UnionExact(parts: seq<Json>, key: string, v: Json)
    requires UnionDefined(parts) && forall i :: 0 <= i < |parts| ==> DistinctKeys(parts[i].fields)
    ensures DistinctKeys(Concat(parts))
    ensures Field(key, v) in Concat(parts) <==> exists i :: 0 <= i < |parts| && Field(key, v) in parts[i].fields
  {
    UnionDistinct(parts);
    ConcatMember(parts, Field(key, v));
  }

  lemma {:induction false} ConcatMember(parts: seq<Json>, f: Field)
    requires forall i :: 0 <= i < |parts| ==> parts[i].Obj?
    ensures f in Concat(parts) <==> exists i :: 0 <= i < |parts| && f in parts[i].fields
  {
    if parts == [] {
    } else {
      var n := |parts| - 1;
      ConcatMember(parts[..n], f);
      assert f in Concat(parts) <==> f in Concat(parts[..n]) || f in parts[n].fields;
    }
  }

  lemma {:induction false} UnionDistinct(parts: seq<Json>)
    requires forall i :: 0 <= i < |parts| ==> parts[i].Obj? && DistinctKeys(parts[i].fields)
    requires KeyDisjoint(parts)
    ensures DistinctKeys(Concat(parts))
  {
    if parts == [] {
    } else {
      var n := |parts| - 1;
      DisjointPrefix(parts, n);
      UnionDistinct(parts[..n]);
      DisjointNext(parts, n);
      assert parts[..n + 1] == parts;
      var a, b := Concat(parts[..n]), parts[n].fields;
      forall i, j | 0 <= i < |a| && 0 <= j < |b| ensures a[i].key != b[j].key {
        assert a[i].key in Keys(a) && b[j].key in Keys(b);
      }
    }
  }

  /** An overlay neither adds keys nor reorders: what is left is the base, minus the removed keys, in order. */
  lemma {:induction false} OverlayKeepsOrder(op: Operation, base: Fields, other: Fields, removed: Fields)
    requires op.Overlay?
    ensures Names(OverlayFields(op, base, other, removed)) == NamesWithout(base, Keys(removed))
  {
    if base == [] {
    } else {
      var n := |base| - 1;
      OverlayKeepsOrder(op, base[..n], other, removed);
      var before := OverlayFields(op, base[..n], other, removed);
      assert before + [] == before;
      if Get(removed, base[n].key).None? {
        NamesAppend(before, Overlaid(op, base[n], other));
      }
    }
  }

  function Names(fields: Fields): seq<string> {
    if fields == [] then [] else Names(fields[..|fields| - 1]) + [fields[|fields| - 1].key]
  }

  function NamesWithout(fields: Fields, removed: set<string>): seq<string> {
    if fields == [] then [] else
      var last := fields[|fields| - 1].key;
      NamesWithout(fields[..|fields| - 1], removed) + if last in removed then [] else [last]
  }

  lemma NamesAppend(fields: Fields, f: Field)
    ensures Names(fields + [f]) == Names(fields) + [f.key]
  {
    assert (fields + [f])[..|fields|] == fields;
  }

  /** Selecting keeps exactly the selected records of the base. */
  lemma {:induction false} SelectExact(base: Fields, other: Fields, field: string, equals: Json, f: Field)
    ensures f in Filter(base, other, field, equals) <==> f in base && Selected(f.key, other, field, equals)
  {
    if base == [] {
    } else {
      var n := |base| - 1;
      SelectExact(base[..n], other, field, equals, f);
      assert base == base[..n] + [base[n]];
    }
  }

  /** Each record of an overlay is a kept base record, replaced exactly if the replacement is accepted. */
  lemma {:induction false} OverlayExact(op: Operation, base: Fields, other: Fields, removed: Fields, f: Field)
    requires op.Overlay?
    ensures f in OverlayFields(op, base, other, removed)
      <==> exists b :: b in base && Get(removed, b.key).None? && f == Overlaid(op, b, other)
  {
    if base == [] {
    } else {
      var n := |base| - 1;
      OverlayExact(op, base[..n], other, removed, f);
      assert base == base[..n] + [base[n]];
      assert forall b :: b in base <==> b in base[..n] || b == base[n];
    }
  }

  // ---- what the small functions mean ----

  /** UTF-8: the parts add up, and a character takes one to four bytes by its code point. */
  lemma {:induction false} Utf8Concat(a: string, b: string)
    ensures Utf8Len(a + b) == Utf8Len(a) + Utf8Len(b)
  {
    if b == "" {
      assert a + b == a;
    } else {
      Utf8Concat(a, b[..|b| - 1]);
      assert (a + b)[..|a + b| - 1] == a + b[..|b| - 1];
    }
  }

  lemma Utf8Char(c: char)
    ensures Utf8Len([c]) == 1 + (if c as int > 0x7F then 1 else 0) + (if c as int > 0x7FF then 1 else 0)
                            + (if c as int > 0xFFFF then 1 else 0)
  {
    assert Utf8Len([c]) == Utf8Len([c][..0]) + CharBytes(c);
  }

  /** No value sits more than n levels below v. */
  ghost predicate NestedWithin(v: Json, n: int) {
    && 0 <= n
    && (v.Arr? ==> forall i :: 0 <= i < |v.items| ==> NestedWithin(v.items[i], n - 1))
    && (v.Obj? ==> forall i :: 0 <= i < |v.fields| ==> NestedWithin(v.fields[i].value, n - 1))
  }

  lemma {:induction false} MaxDepthIs(items: seq<Json>, n: int)
    requires items != []
    ensures MaxDepth(items) <= n <==> forall i :: 0 <= i < |items| ==> Depth(items[i]) <= n
  {
    if |items| == 1 {
      assert MaxDepth(items[1..]) == 0;
    } else {
      MaxDepthIs(items[1..], n);
      assert forall i :: 0 <= i < |items| - 1 ==> items[1..][i] == items[i + 1];
      assert items == [items[0]] + items[1..];
    }
  }

  lemma {:induction false} MaxFieldDepthIs(fields: Fields, n: int)
    requires fields != []
    ensures MaxFieldDepth(fields) <= n <==> forall i :: 0 <= i < |fields| ==> Depth(fields[i].value) <= n
  {
    if |fields| == 1 {
      assert MaxFieldDepth(fields[1..]) == 0;
    } else {
      MaxFieldDepthIs(fields[1..], n);
      assert forall i :: 0 <= i < |fields| - 1 ==> fields[1..][i] == fields[i + 1];
      assert fields == [fields[0]] + fields[1..];
    }
  }

  /** The depth that is bounded is the number of levels below the value. */
  lemma {:induction false} DepthIsNesting(v: Json, n: int)
    ensures Depth(v) <= n <==> NestedWithin(v, n)
    decreases v
  {
    match v
    case Arr(items) =>
      forall i | 0 <= i < |items| ensures Depth(items[i]) <= n - 1 <==> NestedWithin(items[i], n - 1) {
        DepthIsNesting(items[i], n - 1);
      }
      if items != [] { MaxDepthIs(items, n - 1); }
    case Obj(fields) =>
      forall i | 0 <= i < |fields| ensures Depth(fields[i].value) <= n - 1 <==> NestedWithin(fields[i].value, n - 1) {
        DepthIsNesting(fields[i].value, n - 1);
      }
      if fields != [] { MaxFieldDepthIs(fields, n - 1); }
    case _ =>
  }

  /** The value of a key, when no key is in it twice. */
  lemma {:induction false} GetIs(fields: Fields, key: string, v: Json)
    requires DistinctKeys(fields)
    ensures Get(fields, key) == Some(v) <==> Field(key, v) in fields
  {
    if Field(key, v) in fields {
      var i :| 0 <= i < |fields| && fields[i] == Field(key, v);
      assert fields[i] in fields && fields[i].key in Keys(fields);
      var w := Get(fields, key).value;
      var j :| 0 <= j < |fields| && fields[j] == Field(key, w);
    }
  }

  /** Values along a path: each is found in the one before under the next key. */
  ghost predicate Leads(chain: seq<Json>, path: seq<string>) {
    && |chain| == |path| + 1
    && forall i :: 0 <= i < |path| ==> chain[i].Obj? && Get(chain[i].fields, path[i]) == Some(chain[i + 1])
  }

  /** A projection finds a value if and only if the path leads to it from the first input. */
  lemma ProjectIff(parts: seq<Json>, path: seq<string>, r: Json)
    requires parts != []
    ensures RunData(Project(path), parts) == Ok(r) <==>
      exists chain :: Leads(chain, path) && chain[0] == parts[0] && chain[|path|] == r
  {
    if Follow(parts[0], path) == Ok(r) {
      var chain := PathOf(parts[0], path, r);
    }
    forall chain | Leads(chain, path) && chain[0] == parts[0] && chain[|path|] == r
      ensures Follow(parts[0], path) == Ok(r)
    {
      LeadsThere(chain, path);
    }
  }

  lemma {:induction false} PathOf(v: Json, path: seq<string>, r: Json) returns (chain: seq<Json>)
    requires Follow(v, path) == Ok(r)
    ensures Leads(chain, path) && chain[0] == v && chain[|path|] == r
    decreases |path|
  {
    if path == [] {
      chain := [v];
    } else {
      var rest := PathOf(Get(v.fields, path[0]).value, path[1..], r);
      chain := [v] + rest;
      forall i | 0 <= i < |path| ensures chain[i].Obj? && Get(chain[i].fields, path[i]) == Some(chain[i + 1]) {
        if i > 0 { assert chain[i] == rest[i - 1] && path[i] == path[1..][i - 1]; }
      }
    }
  }

  lemma {:induction false} LeadsThere(chain: seq<Json>, path: seq<string>)
    requires Leads(chain, path)
    ensures Follow(chain[0], path) == Ok(chain[|path|])
    decreases |path|
  {
    if path == [] {
    } else {
      var rest := chain[1..];
      forall i | 0 <= i < |path[1..]|
        ensures rest[i].Obj? && Get(rest[i].fields, path[1..][i]) == Some(rest[i + 1])
      {
        assert rest[i] == chain[i + 1] && path[1..][i] == path[i + 1];
      }
      LeadsThere(rest, path[1..]);
    }
  }

  /** Values are the same if they are equal, or if one is a truth value and the other its number. */
  lemma SameIff(a: Json, b: Json)
    ensures Same(a, b) <==> a == b || (a, b) == (Bool(true), Num(1.0)) || (a, b) == (Num(1.0), Bool(true))
                            || (a, b) == (Bool(false), Num(0.0)) || (a, b) == (Num(0.0), Bool(false))
  {
  }

  /** Records: an object of at most 128 keys of one to 128 bytes. */
  lemma RecordsIff(v: Json)
    ensures IsRecords(v) <==> v.Obj? && |v.fields| <= 128 && forall f :: f in v.fields ==> 1 <= Utf8Len(f.key) <= 128
  {
    if v.Obj? { assert forall i :: 0 <= i < |v.fields| ==> v.fields[i] in v.fields; }
  }

  /** A union is defined exactly for records that share no key and are at most 128 in all. */
  lemma UnionIff(parts: seq<Json>)
    ensures RunData(Union, parts).Ok? <==>
      && (forall i :: 0 <= i < |parts| ==> IsRecords(parts[i]))
      && (forall i, j, key :: 0 <= i < j < |parts| && key in Keys(parts[i].fields) ==> key !in Keys(parts[j].fields))
      && |Concat(parts)| <= 128
    ensures RunData(Union, parts).Ok? ==> RunData(Union, parts).value == Obj(Concat(parts))
  {
    if forall i :: 0 <= i < |parts| ==> IsRecords(parts[i]) {
      forall i, j | 0 <= i < j < |parts|
        ensures Keys(parts[i].fields) !! Keys(parts[j].fields)
          <==> forall key :: key in Keys(parts[i].fields) ==> key !in Keys(parts[j].fields)
      {
      }
    }
  }

  /** It lists the records in input order. */
  lemma {:induction false} UnionInOrder(a: seq<Json>, b: seq<Json>)
    requires (forall i :: 0 <= i < |a| ==> a[i].Obj?) && (forall i :: 0 <= i < |b| ==> b[i].Obj?)
    ensures Concat(a + b) == Concat(a) + Concat(b)
    decreases |b|
  {
    if b == [] {
      assert a + b == a;
    } else {
      var n := |b| - 1;
      assert a + b == (a + b[..n]) + [b[n]];
      UnionInOrder(a, b[..n]);
      ConcatNext(a + b[..n], b[n]);
    }
  }

  lemma ConcatNext(parts: seq<Json>, part: Json)
    requires part.Obj? && forall i :: 0 <= i < |parts| ==> parts[i].Obj?
    ensures Concat(parts + [part]) == Concat(parts) + part.fields
  {
    assert (parts + [part])[..|parts|] == parts;
  }

  /** A selection keeps the order. */
  lemma {:induction false} SelectInOrder(a: Fields, b: Fields, other: Fields, field: string, equals: Json)
    ensures Filter(a + b, other, field, equals) == Filter(a, other, field, equals) + Filter(b, other, field, equals)
    decreases |b|
  {
    if b == [] {
      assert a + b == a;
    } else {
      var n := |b| - 1;
      assert (a + b)[..|a + b| - 1] == a + b[..n];
      SelectInOrder(a, b[..n], other, field, equals);
    }
  }

  /**
   What a selection keeps, in order: the records of the base under whose key the other side has an object whose
   field is the wanted value; a missing field is null.
   */
  lemma SelectIff(parts: seq<Json>, field: string, equals: Json, f: Field)
    requires |parts| >= 2 && IsRecords(parts[0]) && IsRecords(parts[1]) && DistinctKeys(parts[1].fields)
    requires forall g :: g in parts[1].fields && g.value.Obj? ==> DistinctKeys(g.value.fields)
    ensures var r := RunData(Select(field, equals), parts);
      && r.Ok? && r.value.Obj?
      && (f in r.value.fields <==>
            && f in parts[0].fields
            && exists o :: Field(f.key, Obj(o)) in parts[1].fields
                 && ((exists v :: Field(field, v) in o && Same(v, equals))
                     || (field !in Keys(o) && Same(Null, equals))))
  {
    SelectedIff(parts[0].fields, parts[1].fields, field, equals, f);
  }

  lemma SelectedIff(base: Fields, other: Fields, field: string, equals: Json, f: Field)
    requires DistinctKeys(other) && forall g :: g in other && g.value.Obj? ==> DistinctKeys(g.value.fields)
    ensures f in Filter(base, other, field, equals) <==>
      && f in base
      && exists o :: Field(f.key, Obj(o)) in other
           && ((exists v :: Field(field, v) in o && Same(v, equals)) || (field !in Keys(o) && Same(Null, equals)))
  {
    SelectExact(base, other, field, equals, f);
    forall o | Field(f.key, Obj(o)) in other
      ensures Get(other, f.key) == Some(Obj(o)) && DistinctKeys(o)
    {
      GetIs(other, f.key, Obj(o));
      assert Field(f.key, Obj(o)).value.Obj?;
      forall v ensures Get(o, field) == Some(v) <==> Field(field, v) in o { GetIs(o, field, v); }
    }
    if Selected(f.key, other, field, equals) {
      var o := Get(other, f.key).value.fields;
      assert Field(f.key, Obj(o)) in other;
      forall v ensures Get(o, field) == Some(v) <==> Field(field, v) in o { GetIs(o, field, v); }
    }
    forall o, v | Field(f.key, Obj(o)) in other && Field(field, v) in o ensures Get(o, field) == Some(v) {
      GetIs(o, field, v);
    }
  }

  /** A string within the limits an overlay sets, if it sets any; shrinking is measured against the old string. */
  ghost predicate WithinLimits(op: Operation, old': Json, new': Json)
    requires op.Overlay?
  {
    && (op.maxBytes.Some? || op.minBytes.Some? || op.onlyShrink ==> new'.Str?)
    && (new'.Str? ==>
          && (op.maxBytes.Some? ==> op.maxBytes.value >= Utf8Len(new'.s))
          && (op.minBytes.Some? ==> op.minBytes.value <= Utf8Len(new'.s))
          && (op.onlyShrink ==> old'.Str? && Utf8Len(old'.s) > Utf8Len(new'.s)))
  }

  lemma OverlaidIff(op: Operation, base: Fields, other: Fields, removed: Fields, f: Field)
    requires op.Overlay? && DistinctKeys(other)
    ensures f in OverlayFields(op, base, other, removed) <==>
      && f.key !in Keys(removed)
      && exists b :: b in base && b.key == f.key &&
           ((f in other && WithinLimits(op, b.value, f.value))
            || (f == b && !exists n :: n in other && n.key == b.key && WithinLimits(op, b.value, n.value)))
  {
    OverlayExact(op, base, other, removed, f);
    forall b | b in base && b.key == f.key
      ensures f == Overlaid(op, b, other) <==>
        || (f in other && WithinLimits(op, b.value, f.value))
        || (f == b && !exists n :: n in other && n.key == b.key && WithinLimits(op, b.value, n.value))
    {
      forall n | n in other && n.key == b.key ensures Get(other, b.key) == Some(n.value) {
        GetIs(other, n.key, n.value);
      }
      if Get(other, b.key).Some? { assert Field(b.key, Get(other, b.key).value) in other; }
    }
  }

  /**
   What an overlay holds: of every base record that is not removed the replacement within the limits, or itself.
   It is defined for records, and only if the keys it would replace or remove are in the base.
   */
  lemma OverlayIff(op: Operation, parts: seq<Json>, removed: Json, f: Field)
    requires op.Overlay? && 2 <= |parts| <= 3 && removed == (if |parts| == 2 then Obj([]) else parts[2])
    requires parts[1].Obj? ==> DistinctKeys(parts[1].fields)
    ensures RunData(op, parts).Ok? <==>
      && IsRecords(parts[0]) && IsRecords(parts[1]) && IsRecords(removed)
      && forall key :: key in Keys(parts[1].fields) + Keys(removed.fields) ==> key in Keys(parts[0].fields)
    ensures var r := RunData(op, parts); r.Ok? ==>
      && r.value.Obj?
      && (f in r.value.fields <==>
            && f.key !in Keys(removed.fields)
            && exists b :: b in parts[0].fields && b.key == f.key &&
                 ((f in parts[1].fields && WithinLimits(op, b.value, f.value))
                  || (f == b && !exists n :: n in parts[1].fields && n.key == b.key
                                  && WithinLimits(op, b.value, n.value))))
  {
    if RunData(op, parts).Ok? { OverlaidIff(op, parts[0].fields, parts[1].fields, removed.fields, f); }
  }
}
