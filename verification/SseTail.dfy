/**
 The tail of a streamed response (auth_proxy.py, `_trim_sse_tail`): after every chunk the buffer is cut in
 place so that the last events stay whole. Events end with a blank line (two LF bytes).
 */
module SseTail {

  newtype byte = x: int | 0 <= x < 256

  type Bytes = seq<byte>

  const LF: byte := 10
  const HARD_CAP: nat := 4194304

  predicate BlankAt(s: Bytes, j: int) { 0 <= j && j + 2 <= |s| && s[j] == LF && s[j + 1] == LF }

  /** A blank line is two line feeds, byte ten. */
  lemma BlankIff(s: Bytes, j: int)
    ensures BlankAt(s, j) <==> 0 <= j <= |s| - 2 && s[j..j + 2] == [10, 10]
  {
    if 0 <= j <= |s| - 2 { assert s[j..j + 2] == [s[j], s[j + 1]]; }
  }

  /** `s.rfind(b"\n\n", 0, end)`. */
  function RFind(s: Bytes, end: int): (j: int)
    requires end <= |s|
    ensures -1 <= j && (j >= 0 ==> j + 2 <= end && BlankAt(s, j))
    decreases end
  {
    if end < 2 then -1
    else if BlankAt(s, end - 2) then end - 2
    else RFind(s, end - 1)
  }

  /** It is the last one. */
  lemma {:induction false} RFindLast(s: Bytes, end: int, k: int)
    requires end <= |s| && RFind(s, end) < k && k + 2 <= end
    ensures !BlankAt(s, k)
    decreases end
  {
    if k + 2 < end { RFindLast(s, end - 1, k); }
  }

  /** Where the n-th blank line from the right starts, counting without overlaps; -1 if there are fewer. */
  function Boundary(s: Bytes, n: nat): (j: int)
    ensures -1 <= j <= |s|
    ensures n > 0 && j >= 0 ==> BlankAt(s, j)
  {
    if n == 0 then |s| else
      var later := Boundary(s, n - 1);
      if later < 0 then -1 else RFind(s, later)
  }

  /** How many bytes the event rule removes: everything up to the third blank line from the right. */
  function Cut(s: Bytes): (c: nat)
    ensures c <= |s|
    ensures c > 0 ==> c >= 2 && BlankAt(s, c - 2)
  {
    if Boundary(s, 3) < 0 then 0 else Boundary(s, 3) + 2
  }

  function Capped(s: Bytes): Bytes { if |s| > HARD_CAP then s[|s| - HARD_CAP..] else s }

  function Trimmed(s: Bytes): Bytes { Capped(s[Cut(s)..]) }

  class TailBuffer {
    var tail: Bytes

    constructor ()
      ensures tail == []
    {
      tail := [];
    }

    method Extend(chunk: Bytes)
      modifies this
      ensures tail == old(tail) + chunk
    {
      tail := tail + chunk;
    }

    /** `_trim_sse_tail`. */
    method Trim()
      modifies this
      ensures tail == Trimmed(old(tail))
    {
      ghost var before := tail;
      var idx := |tail|;
      var found := 0;
      while found < 3
        invariant 0 <= found <= 3 && tail == before && 0 <= idx <= |tail|
        invariant Boundary(before, found) == idx
      {
        var j := RFind(tail, idx);
        if j == -1 { break; }
        idx := j;
        found := found + 1;
      }
      if found == 3 {
        tail := tail[idx + 2..];
      } else {
        NoBoundary(before, found + 1, 3);
      }
      if |tail| > HARD_CAP {
        tail := tail[|tail| - HARD_CAP..];
      }
    }

    /** What the pump does with every chunk. */
    method Receive(chunk: Bytes)
      modifies this
      ensures tail == Trimmed(old(tail) + chunk)
    {
      Extend(chunk);
      Trim();
    }
  }

  lemma {:induction false} NoBoundary(s: Bytes, n: nat, m: nat)
    requires n <= m && Boundary(s, n) < 0
    ensures Boundary(s, m) < 0
    decreases m
  {
    if n == m {
    } else {
      NoBoundary(s, n, m - 1);
    }
  }

  lemma SuffixOfSuffix(s: Bytes, k: nat, c: nat)
    requires k + c <= |s|
    ensures s[k..][c..] == s[k + c..]
  {
  }

  lemma CappedIs(s: Bytes, c: nat) returns (k: nat)
    requires c <= |s|
    ensures c <= k <= |s| && Capped(s[c..]) == s[k..]
    ensures |s| - k == if |s| - c <= 4194304 then |s| - c else 4194304
  {
    var t := s[c..];
    if |t| > HARD_CAP {
      k := |s| - HARD_CAP;
      SuffixOfSuffix(s, c, k - c);
    } else {
      k := c;
    }
  }

  /** What a trim leaves: the buffer after its cut, or the last four mebibytes of that. */
  lemma TrimmedIs(s: Bytes) returns (k: nat)
    ensures k <= |s| && Trimmed(s) == s[k..]
    ensures |s| - k == if |s| - Cut(s) <= 4194304 then |s| - Cut(s) else 4194304
  {
    k := CappedIs(s, Cut(s));
  }

  // ---- the cut does not depend on the chunks ----

  /** More bytes on the right only move the blank lines, counted from the right, further right. */
  lemma RFindGrows(s: Bytes, b: Bytes, e1: int, e2: int)
    requires e1 <= |s| && e1 <= e2 <= |s| + |b|
    ensures RFind(s, e1) <= RFind(s + b, e2)
  {
    var j := RFind(s, e1);
    if j > RFind(s + b, e2) {
      assert BlankAt(s + b, j);
      RFindLast(s + b, e2, j);
    }
  }

  lemma {:induction false} BoundaryGrows(s: Bytes, b: Bytes, n: nat)
    ensures Boundary(s, n) <= Boundary(s + b, n)
  {
    if n == 0 {
    } else {
      BoundaryGrows(s, b, n - 1);
      var before, after := Boundary(s, n - 1), Boundary(s + b, n - 1);
      if before >= 0 {
        BoundaryInside(s, n - 1);
        RFindGrows(s, b, before, after);
      }
    }
  }

  lemma BoundaryInside(s: Bytes, n: nat)
    ensures Boundary(s, n) <= |s|
  {
  }

  /** Dropping bytes on the left loses the blank lines that start there and shifts the others. */
  lemma RFindSuffix(s: Bytes, k: nat, e: int)
    requires k <= e <= |s|
    ensures RFind(s[k..], e - k) == if RFind(s, e) >= k then RFind(s, e) - k else -1
  {
    var t := s[k..];
    var inT, inS := RFind(t, e - k), RFind(s, e);
    if inT >= 0 {
      assert BlankAt(s, inT + k);
      if inT + k > inS { RFindLast(s, e, inT + k); }
    }
    if inS >= k {
      assert BlankAt(t, inS - k);
      if inS - k > inT { RFindLast(t, e - k, inS - k); }
    }
  }

  lemma {:induction false} BoundarySuffix(s: Bytes, k: nat, n: nat)
    requires k <= |s|
    ensures Boundary(s[k..], n) == if Boundary(s, n) >= k then Boundary(s, n) - k else -1
  {
    if n == 0 {
    } else {
      BoundarySuffix(s, k, n - 1);
      var later := Boundary(s, n - 1);
      if later >= k {
        RFindSuffix(s, k, later);
      }
    }
  }

  /** `buffer` is the stream cut once, or that with the LF before it still there. */
  ghost predicate CutOnce(stream: Bytes, buffer: Bytes) {
    || buffer == stream[Cut(stream)..]
    || (Cut(stream) > 0 && buffer == [LF] + stream[Cut(stream)..])
  }

  /** Cutting a suffix of a stream that starts at or one byte before an earlier cut. */
  lemma CutOfSuffix(stream: Bytes, chunk: Bytes, k: nat)
    requires k <= Cut(stream) <= k + 1
    ensures k <= |stream + chunk|
    ensures var c, whole := k + Cut((stream + chunk)[k..]), Cut(stream + chunk); c <= whole <= c + 1
  {
    BoundaryGrows(stream, chunk, 3);
    BoundarySuffix(stream + chunk, k, 3);
  }

  lemma SuffixIsCutOnce(stream: Bytes, c: nat)
    requires c <= Cut(stream) <= c + 1
    ensures CutOnce(stream, stream[c..])
  {
    if c < Cut(stream) {
      assert stream[c] == LF;
      assert stream[c..] == [LF] + stream[c + 1..];
    }
  }

  /** Cutting what is left of a stream together with the next bytes is cutting the whole, up to one LF. */
  lemma CutAgain(stream: Bytes, buffer: Bytes, chunk: Bytes, k: nat) returns (c: nat)
    requires k <= Cut(stream) <= k + 1 && buffer == stream[k..]
    ensures c <= Cut(stream + chunk) <= c + 1
    ensures (buffer + chunk)[Cut(buffer + chunk)..] == (stream + chunk)[c..]
  {
    assert buffer + chunk == (stream + chunk)[k..];
    CutOfSuffix(stream, chunk, k);
    c := k + Cut(buffer + chunk);
    SuffixOfSuffix(stream + chunk, k, Cut(buffer + chunk));
  }

  function Concat(chunks: seq<Bytes>): Bytes {
    if chunks == [] then [] else Concat(chunks[..|chunks| - 1]) + chunks[|chunks| - 1]
  }

  /** The buffer after receiving the chunks one by one. */
  function Received(chunks: seq<Bytes>): Bytes {
    if chunks == [] then [] else Trimmed(Received(chunks[..|chunks| - 1]) + chunks[|chunks| - 1])
  }

  /** No point of the stream leaves as much as the hard cap after cutting. */
  ghost predicate BelowCap(stream: Bytes) {
    forall n :: 0 <= n <= |stream| ==> n - Cut(stream[..n]) < HARD_CAP
  }

  lemma BelowCapPrefix(s: Bytes, b: Bytes)
    requires BelowCap(s + b)
    ensures BelowCap(s)
  {
    forall n | 0 <= n <= |s| ensures n - Cut(s[..n]) < HARD_CAP { assert (s + b)[..n] == s[..n]; }
  }

  /** Whatever is shorter than the cap stays below it. */
  lemma ShortIsBelowCap(stream: Bytes)
    requires |stream| < 4194304
    ensures BelowCap(stream)
  {
  }

  lemma {:induction false} ReceivedIsSuffix(chunks: seq<Bytes>) returns (k: nat)
    requires BelowCap(Concat(chunks))
    ensures k <= Cut(Concat(chunks)) <= k + 1 && Received(chunks) == Concat(chunks)[k..]
  {
    if chunks == [] {
      k := 0;
    } else {
      var earlier, last := chunks[..|chunks| - 1], chunks[|chunks| - 1];
      BelowCapPrefix(Concat(earlier), last);
      var before := ReceivedIsSuffix(earlier);
      k := CutAgain(Concat(earlier), Received(earlier), last, before);
      var all := Concat(chunks);
      assert all[..|all|] == all;
    }
  }

  /** However the stream is split into chunks, the buffer is one cut of the whole stream, up to one LF. */
  lemma ChunkIndependence(chunks: seq<Bytes>)
    requires BelowCap(Concat(chunks))
    ensures CutOnce(Concat(chunks), Received(chunks))
  {
    var k := ReceivedIsSuffix(chunks);
    SuffixIsCutOnce(Concat(chunks), k);
  }

  /** Even past the cap the buffer is an end of the stream, and never longer than the cap. */
  lemma {:induction false} AlwaysAnEnd(chunks: seq<Bytes>) returns (k: nat)
    ensures k <= |Concat(chunks)| && Received(chunks) == Concat(chunks)[k..] && |Received(chunks)| <= 4194304
  {
    if chunks == [] {
      k := 0;
    } else {
      var earlier, last := chunks[..|chunks| - 1], chunks[|chunks| - 1];
      var before := AlwaysAnEnd(earlier);
      assert Received(earlier) + last == (Concat(earlier) + last)[before..];
      var cut := TrimmedIs(Received(earlier) + last);
      k := before + cut;
      SuffixOfSuffix(Concat(earlier) + last, before, cut);
    }
  }

  // ---- which events survive ----

  /** After a cut exactly two blank lines are left, and cutting again would change nothing. */
  lemma KeepsTwoEvents(s: Bytes)
    requires Cut(s) > 0
    ensures var kept := s[Cut(s)..];
      Boundary(kept, 2) >= 0 && Boundary(kept, 3) < 0 && Cut(kept) == 0
  {
    var c := Cut(s);
    assert Boundary(s, 3) == RFind(s, Boundary(s, 2)) && Boundary(s, 3) + 2 <= Boundary(s, 2);
    BoundarySuffix(s, c, 2);
    BoundarySuffix(s, c, 3);
  }

  /** Where the last n complete events, and what follows them, start. */
  function EventStart(s: Bytes, n: nat): (i: nat)
    ensures i <= |s|
  {
    if Boundary(s, n + 1) < 0 then 0 else Boundary(s, n + 1) + 2
  }

  lemma EarlierBoundary(s: Bytes, n: nat)
    ensures Boundary(s, n) < 0 ==> Boundary(s, n + 1) < 0
    ensures n > 0 && Boundary(s, n + 1) >= 0 ==> Boundary(s, n + 1) + 2 <= Boundary(s, n)
  {
  }

  /**
   The cut is where the last two complete events start. So the last three, which it claims to keep, stay whole
   if and only if there are fewer than three complete events.
   */
  lemma KeepsThreeIff(s: Bytes)
    ensures Cut(s) == EventStart(s, 2)
    ensures Cut(s) <= EventStart(s, 3) <==> Boundary(s, 3) < 0
  {
    EarlierBoundary(s, 3);
  }

  /** So of three complete events the oldest is dropped, although nothing forces it out. */
  lemma ThirdEventIsDropped()
    ensures Trimmed([97, 10, 10, 98, 10, 10, 99, 10, 10]) == [98, 10, 10, 99, 10, 10]
  {
    var s: Bytes := [97, 10, 10, 98, 10, 10, 99, 10, 10];
    assert RFind(s, 9) == 7;
    assert RFind(s, 7) == 4 by { assert !BlankAt(s, 5); }
    assert RFind(s, 4) == 1 by { assert !BlankAt(s, 2); }
    assert Boundary(s, 1) == 7 && Boundary(s, 2) == 4 && Boundary(s, 3) == 1;
  }
}
