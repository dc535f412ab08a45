/** String helpers shared by the resolver, the font loader and the template listing. */
module Strings {
  import opened Wrappers

  /** A string attribute is truthy when present and non-empty. */
  predicate Truthy(s: Option<string>)
  {
    s.Some? && s.value != ""
  }

  /** `s || fallback` for an optional string. */
  function StrOr(s: Option<string>, fallback: string): (r: string)
    ensures Truthy(s) ==> r == s.value
    ensures !Truthy(s) ==> r == fallback
  {
    if Truthy(s) then s.value else fallback
  }


  /** A decimal digit character. */
  function Digit(d: nat): (c: char)
    requires d < 10
    ensures '0' <= c <= '9'
  {
    "0123456789"[d]
  }

  /** The decimal rendering of a non-negative integer, as `${n}` prints it. */
  function Decimal(n: nat): (s: string)
    ensures |s| >= 1
    ensures forall i :: 0 <= i < |s| ==> '0' <= s[i] <= '9'
    ensures n < 10 ==> s == [Digit(n)]
  {
    if n < 10 then [Digit(n)] else Decimal(n / 10) + [Digit(n % 10)]
  }

  /** `s.replace(/ /g, '+')`: every space becomes a plus sign, nothing else moves. */
  function SpacesToPlus(s: string): (r: string)
    ensures |r| == |s|
    ensures ' ' !in r
    ensures forall i :: 0 <= i < |s| && s[i] != ' ' ==> r[i] == s[i]
    ensures forall i :: 0 <= i < |s| && s[i] == ' ' ==> r[i] == '+'
  {
    if s == [] then []
    else [if s[0] == ' ' then '+' else s[0]] + SpacesToPlus(s[1..])
  }

  /** `parts.join(sep)`. */
  function Join(parts: seq<string>, sep: string): (r: string)
    ensures parts == [] ==> r == []
    ensures |parts| == 1 ==> r == parts[0]
  {
    if parts == [] then []
    else if |parts| == 1 then parts[0]
    else parts[0] + sep + Join(parts[1..], sep)
  }

  /** Where part `i` starts in `Join(parts, sep)`: after each earlier part and its separator. */
  function JoinOffset(parts: seq<string>, sep: string, i: nat): (n: nat)
    requires i < |parts|
    ensures i > 0 ==> n >= |parts[0]| + |sep|
  {
    if i == 0 then 0 else |parts[0]| + |sep| + JoinOffset(parts[1..], sep, i - 1)
  }

  /** Each part starts one part and one separator after the previous one. */
  lemma {:induction false} JoinOffsetStep(parts: seq<string>, sep: string, i: nat)
    requires i + 1 < |parts|
    ensures JoinOffset(parts, sep, i + 1) == JoinOffset(parts, sep, i) + |parts[i]| + |sep|
  {
    if i > 0 {
      JoinOffsetStep(parts[1..], sep, i - 1);
    }
  }

  /** A slice of the middle piece of a concatenation, read from the whole. */
  lemma MiddleSlice(a: string, b: string, c: string, lo: nat, hi: nat)
    requires lo <= hi <= |b|
    ensures (a + b + c)[|a| + lo..|a| + hi] == b[lo..hi]
  {
    assert forall k :: lo <= k < hi ==> (a + b + c)[|a| + k] == b[k];
  }

  /** Part `i` of a joined string stands at its offset. */
  lemma {:induction false} JoinPart(parts: seq<string>, sep: string, i: nat)
    requires i < |parts|
    ensures JoinOffset(parts, sep, i) + |parts[i]| <= |Join(parts, sep)|
    ensures Join(parts, sep)[JoinOffset(parts, sep, i)..JoinOffset(parts, sep, i) + |parts[i]|] == parts[i]
  {
    if |parts| > 1 {
      var head, tail := parts[0] + sep, parts[1..];
      var j, jt := Join(parts, sep), Join(tail, sep);
      assert j == head + jt;
      if i == 0 {
        assert j[..|parts[0]|] == parts[0];
      } else {
        JoinPart(tail, sep, i - 1);
        var o := JoinOffset(tail, sep, i - 1);
        assert JoinOffset(parts, sep, i) == |head| + o;
        assert tail[i - 1] == parts[i];
        assert j[|head| + o..|head| + o + |parts[i]|] == jt[o..o + |parts[i]|];
      }
    }
  }

  /** Between part `i` and part `i + 1` of a joined string stands the separator. */
  lemma {:induction false} JoinSeparator(parts: seq<string>, sep: string, i: nat)
    requires i + 1 < |parts|
    ensures JoinOffset(parts, sep, i) + |parts[i]| + |sep| <= |Join(parts, sep)|
    ensures Join(parts, sep)[JoinOffset(parts, sep, i) + |parts[i]|..JoinOffset(parts, sep, i) + |parts[i]| + |sep|] == sep
  {
    var head, tail := parts[0] + sep, parts[1..];
    var j, jt := Join(parts, sep), Join(tail, sep);
    assert j == head + jt;
    if i == 0 {
      assert j[|parts[0]|..|head|] == sep;
    } else {
      JoinSeparator(tail, sep, i - 1);
      var o := JoinOffset(tail, sep, i - 1) + |parts[i]|;
      assert JoinOffset(parts, sep, i) + |parts[i]| == |head| + o;
      assert tail[i - 1] == parts[i];
      assert j[|head| + o..|head| + o + |sep|] == jt[o..o + |sep|];
    }
  }

  /** A joined string ends with its last part. */
  lemma {:induction false} JoinLength(parts: seq<string>, sep: string)
    requires parts != []
    ensures |Join(parts, sep)| == JoinOffset(parts, sep, |parts| - 1) + |parts[|parts| - 1]|
  {
    if |parts| > 1 {
      JoinLength(parts[1..], sep);
    }
  }

  /** ASCII lower-casing; every other character is its own lower case. */
  function LowerAscii(c: char): (r: char)
    ensures 'A' <= c <= 'Z' ==> r as int == c as int + 32
    ensures !('A' <= c <= 'Z') ==> r == c
  {
    if 'A' <= c <= 'Z' then (c as int + 32) as char else c
  }

  /** Lower-cases every ASCII letter of `s`. */
  function LowerAsciiString(s: string): (r: string)
    ensures |r| == |s|
    ensures forall i :: 0 <= i < |s| ==> r[i] == LowerAscii(s[i])
  {
    if s == [] then [] else [LowerAscii(s[0])] + LowerAsciiString(s[1..])
  }

  /** `s` ends with `suffix` when both are compared letter by letter ignoring ASCII case
      (the `/…$/i` flag of a JavaScript regular expression without the `u` flag never
      folds a non-ASCII character onto an ASCII one). */
  predicate EndsWithIgnoringCase(s: string, suffix: string)
  {
    |suffix| <= |s| && LowerAsciiString(s[|s| - |suffix|..]) == LowerAsciiString(suffix)
  }

  /** The last piece of `s.split(c)`: everything after the last `c`, or all of `s`. */
  function AfterLast(s: string, c: char): (r: string)
    ensures c !in r
    ensures |r| <= |s| && r == s[|s| - |r|..]
    ensures |r| < |s| ==> s[|s| - |r| - 1] == c
    ensures c !in s ==> r == s
  {
    if s == [] then []
    else if s[|s| - 1] == c then []
    else
      var r' := AfterLast(s[..|s| - 1], c);
      assert s[..|s| - 1][|s| - 1 - |r'|..] + [s[|s| - 1]] == s[|s| - 1 - |r'|..];
      r' + [s[|s| - 1]]
  }

  /** The piece after the last `c` starts right after any `c` that no later `c` follows. */
  lemma AfterLastAt(s: string, c: char, k: nat)
    requires k < |s| && s[k] == c
    requires c !in s[k + 1..]
    ensures AfterLast(s, c) == s[k + 1..]
  {
  }

  /** Lower-casing distributes over concatenation. */
  lemma LowerAsciiConcat(a: string, b: string)
    ensures LowerAsciiString(a + b) == LowerAsciiString(a) + LowerAsciiString(b)
  {
    var l, r := LowerAsciiString(a + b), LowerAsciiString(a) + LowerAsciiString(b);
    assert forall i :: 0 <= i < |l| ==> l[i] == r[i];
  }
}
