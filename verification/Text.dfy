/** Strings as Python sees them. */
module Text {
  import opened Common

  /** White space. */
  predicate Space(c: char) {
    var n := c as int;
    AsciiSpace(n) || n in {0x85, 0xA0, 0x1680, 0x2028, 0x2029, 0x202F, 0x205F, 0x3000} || 0x2000 <= n <= 0x200A
  }

  /** `strip`. */
  function Strip(s: string): string
    decreases |s|
  {
    if s == "" then "" else if Space(s[0]) then Strip(s[1..]) else if Space(s[|s| - 1]) then Strip(s[..|s| - 1]) else s
  }

  predicate AllSpace(s: string) { forall i :: 0 <= i < |s| ==> Space(s[i]) }

  /** Nothing to strip. */
  predicate Bare(s: string) { s == "" || (!Space(s[0]) && !Space(s[|s| - 1])) }

  /** Stripping takes off all white space on both sides and nothing else. */
  lemma {:induction false} StripIs(pre: string, core: string, post: string)
    requires AllSpace(pre) && AllSpace(post) && Bare(core)
    ensures Strip(pre + core + post) == core
    decreases |pre| + |post|
  {
    var s := pre + core + post;
    if pre != "" {
      assert s[1..] == pre[1..] + core + post;
      StripIs(pre[1..], core, post);
    } else if core == "" && post != "" {
      assert s[1..] == "" + "" + post[1..];
      StripIs("", "", post[1..]);
    } else if post != "" {
      assert s[..|s| - 1] == "" + core + post[..|post| - 1];
      StripIs("", core, post[..|post| - 1]);
    } else {
      assert s == core;
    }
  }

  /** The white space of Unicode, by code point. */
  lemma SpaceIff(c: char)
    ensures Space(c) <==> c as int in {
      0x9, 0xA, 0xB, 0xC, 0xD, 0x1C, 0x1D, 0x1E, 0x1F, 0x20, 0x85, 0xA0, 0x1680, 0x2000, 0x2001, 0x2002, 0x2003, 0x2004,
      0x2005, 0x2006, 0x2007, 0x2008, 0x2009, 0x200A, 0x2028, 0x2029, 0x202F, 0x205F, 0x3000}
  {
  }

  /** `"".join`. */
  function Join(parts: seq<string>): string {
    if parts == [] then "" else Join(parts[..|parts| - 1]) + parts[|parts| - 1]
  }

  lemma JoinNext(parts: seq<string>, part: string)
    ensures Join(parts + [part]) == Join(parts) + part
  {
    assert (parts + [part])[..|parts|] == parts;
  }

  /** `sep.join`. */
  function JoinWith(sep: string, parts: seq<string>): string {
    if parts == [] then "" else if |parts| == 1 then parts[0] else parts[0] + sep + JoinWith(sep, parts[1..])
  }

  lemma {:induction false} JoinWithNext(sep: string, parts: seq<string>, part: string)
    ensures JoinWith(sep, parts + [part]) == if parts == [] then part else JoinWith(sep, parts) + sep + part
  {
    if parts == [] {
      assert parts + [part] == [part];
    } else {
      JoinWithNext(sep, parts[1..], part);
      assert (parts + [part])[1..] == parts[1..] + [part];
      if |parts| > 1 {
        assert (parts[0] + sep + JoinWith(sep, parts[1..])) + sep + part
          == parts[0] + sep + (JoinWith(sep, parts[1..]) + sep + part);
      }
    }
  }
}
