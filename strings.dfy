// The few JavaScript string operations the plugin's logic is built from:
// `toLowerCase`, `split` on one character, `join`, `trim`, the test whether a
// string starts with `*`, and the regular-expression replacement that cuts a
// session server URL right after its first ".com".
module Strings {
  import opened Wrappers

  // ---------------------------------------------------------------------------
  // toLowerCase
  // ---------------------------------------------------------------------------

  /** The case mapping of `toLowerCase`, restricted to the ASCII letters. */
  function LowerChar(c: char): char {
    if 'A' <= c <= 'Z' then (c as int + 32) as char else c
  }

  function Lower(s: string): string {
    seq(|s|, i requires 0 <= i < |s| => LowerChar(s[i]))
  }

  predicate HasNoUpper(s: string) {
    forall i :: 0 <= i < |s| ==> !('A' <= s[i] <= 'Z')
  }

  /** Lowering keeps the length, leaves no upper-case letter, and a second lowering changes nothing. */
  lemma LowerNormalises(s: string)
    ensures |Lower(s)| == |s|
    ensures HasNoUpper(Lower(s))
    ensures Lower(Lower(s)) == Lower(s)
  {
    assert forall i :: 0 <= i < |s| ==> Lower(Lower(s))[i] == Lower(s)[i];
  }

  // ---------------------------------------------------------------------------
  // split and join on one separator character
  // ---------------------------------------------------------------------------

  /** Number of occurrences of `c` in `s`. */
  function Count(s: string, c: char): nat {
    if s == [] then 0 else (if s[0] == c then 1 else 0) + Count(s[1..], c)
  }

  /** `c` occurs in `s` exactly when it is counted there. */
  lemma {:induction false} CountPositive(s: string, c: char)
    ensures Count(s, c) > 0 <==> c in s
  {
    if s != [] {
      CountPositive(s[1..], c);
      assert s == [s[0]] + s[1..];
    }
  }

  /**
    `s.split(sep)` for a one-character separator: the maximal pieces between
    separators, in order; there is always one piece more than separators, so
    the empty string gives `[""]`.
  */
  function Split(s: string, sep: char): (parts: seq<string>)
    ensures |parts| == Count(s, sep) + 1
  {
    if s == [] then [""]
    else
      var rest := Split(s[1..], sep);
      if s[0] == sep then [""] + rest
      else [[s[0]] + rest[0]] + rest[1..]
  }

  /** No piece of a split holds the separator. */
  lemma {:induction false} SplitPiecesFree(s: string, sep: char)
    ensures forall i :: 0 <= i < |Split(s, sep)| ==> sep !in Split(s, sep)[i]
  {
    if s != [] {
      SplitPiecesFree(s[1..], sep);
      var rest := Split(s[1..], sep);
      if s[0] != sep {
        assert sep !in [s[0]] + rest[0];
      }
    }
  }

  /** `parts.join(sep)`. */
  function Join(parts: seq<string>, sep: char): string {
    if |parts| == 0 then ""
    else if |parts| == 1 then parts[0]
    else parts[0] + [sep] + Join(parts[1..], sep)
  }

  /** Joining the pieces of a split gives the original string back. */
  lemma {:induction false} JoinSplit(s: string, sep: char)
    ensures Join(Split(s, sep), sep) == s
  {
    if s != [] {
      var rest := Split(s[1..], sep);
      JoinSplit(s[1..], sep);
      if s[0] == sep {
        assert Split(s, sep) == [""] + rest;
        assert ([""] + rest)[1..] == rest;
      } else {
        var parts := Split(s, sep);
        assert parts == [[s[0]] + rest[0]] + rest[1..];
        if |rest| == 1 {
          assert Join(rest, sep) == rest[0];
        } else {
          assert parts[1..] == rest[1..];
          assert Join(rest, sep) == rest[0] + [sep] + Join(rest[1..], sep);
        }
      }
    }
  }

  /** A string without the separator splits into itself alone. */
  lemma {:induction false} SplitNoSeparator(p: string, sep: char)
    requires sep !in p
    ensures Split(p, sep) == [p]
  {
    if p != [] {
      SplitNoSeparator(p[1..], sep);
      assert [p[0]] + p[1..] == p;
    }
  }

  /** Splitting `p + sep + r` yields `p` followed by the pieces of `r`. */
  lemma {:induction false} SplitAfterPiece(p: string, r: string, sep: char)
    requires sep !in p
    ensures Split(p + [sep] + r, sep) == [p] + Split(r, sep)
  {
    var s := p + [sep] + r;
    if p == [] {
      assert s[1..] == r;
    } else {
      assert s[1..] == p[1..] + [sep] + r;
      SplitAfterPiece(p[1..], r, sep);
      assert [p[0]] + p[1..] == p;
    }
  }

  /** Splitting a join of separator-free pieces gives the pieces back. */
  lemma {:induction false} SplitJoin(parts: seq<string>, sep: char)
    requires |parts| >= 1
    requires forall i :: 0 <= i < |parts| ==> sep !in parts[i]
    ensures Split(Join(parts, sep), sep) == parts
  {
    if |parts| == 1 {
      SplitNoSeparator(parts[0], sep);
    } else {
      SplitJoin(parts[1..], sep);
      SplitAfterPiece(parts[0], Join(parts[1..], sep), sep);
      assert [parts[0]] + parts[1..] == parts;
    }
  }

  // ---------------------------------------------------------------------------
  // trim
  // ---------------------------------------------------------------------------

  /** The characters `trim` removes: ECMAScript WhiteSpace and LineTerminator. */
  predicate IsJsSpace(c: char) {
    || c == '\t' || c == '\n' || c == '\U{000B}' || c == '\U{000C}' || c == '\r'
    || c == ' ' || c == '\U{00A0}' || c == '\U{1680}'
    || ('\U{2000}' <= c <= '\U{200A}')
    || c == '\U{2028}' || c == '\U{2029}' || c == '\U{202F}' || c == '\U{205F}'
    || c == '\U{3000}' || c == '\U{FEFF}'
  }

  /** `s` without its longest whitespace prefix. */
  function TrimStart(s: string): (r: string)
    ensures |r| <= |s|
  {
    if s != [] && IsJsSpace(s[0]) then TrimStart(s[1..]) else s
  }

  /** What `TrimStart` removes is whitespace, and what it keeps does not start with whitespace. */
  lemma {:induction false} TrimStartSpec(s: string)
    ensures var r := TrimStart(s);
      && |r| <= |s| && r == s[|s| - |r|..]
      && (forall i :: 0 <= i < |s| - |r| ==> IsJsSpace(s[i]))
      && (r != [] ==> !IsJsSpace(r[0]))
  {
    if s != [] && IsJsSpace(s[0]) {
      TrimStartSpec(s[1..]);
    }
  }

  /** `s` without its longest whitespace suffix. */
  function TrimEnd(s: string): (r: string)
    ensures |r| <= |s|
  {
    if s != [] && IsJsSpace(s[|s| - 1]) then TrimEnd(s[..|s| - 1]) else s
  }

  /** What `TrimEnd` removes is whitespace, and what it keeps does not end with whitespace. */
  lemma {:induction false} TrimEndSpec(s: string)
    ensures var r := TrimEnd(s);
      && |r| <= |s| && r == s[..|r|]
      && (forall i :: |r| <= i < |s| ==> IsJsSpace(s[i]))
      && (r != [] ==> !IsJsSpace(r[|r| - 1]))
  {
    if s != [] && IsJsSpace(s[|s| - 1]) {
      TrimEndSpec(s[..|s| - 1]);
    }
  }

  /** `s.trim()`. */
  function Trim(s: string): string {
    TrimEnd(TrimStart(s))
  }

  /** The trimmed string is a contiguous piece of `s` surrounded only by whitespace and neither starting nor ending with it. */
  lemma TrimSpec(s: string)
    ensures var r := Trim(s);
      r != [] ==> !IsJsSpace(r[0]) && !IsJsSpace(r[|r| - 1])
    ensures var r := Trim(s); var lo := |s| - |TrimStart(s)|;
      && lo + |r| <= |s| && r == s[lo..lo + |r|]
      && (forall i :: 0 <= i < lo ==> IsJsSpace(s[i]))
      && (forall i :: lo + |r| <= i < |s| ==> IsJsSpace(s[i]))
  {
    var t := TrimStart(s);
    var r := TrimEnd(t);
    TrimStartSpec(s);
    TrimEndSpec(t);
    var lo := |s| - |t|;
    assert r == s[lo..lo + |r|] by {
      assert t == s[lo..];
      assert r == t[..|r|];
    }
    forall i | lo + |r| <= i < |s|
      ensures IsJsSpace(s[i])
    {
      assert s[i] == t[i - lo];
    }
    if r != [] {
      assert r[0] == t[0];
    }
  }

  /** Trimming twice is trimming once. */
  lemma TrimIdempotent(s: string)
    ensures Trim(Trim(s)) == Trim(s)
  {
    TrimSpec(s);
    var r := Trim(s);
    TrimStartSpec(r);
    TrimEndSpec(r);
    assert TrimStart(r) == r by {
      if r != [] { assert !IsJsSpace(r[0]); }
    }
    assert TrimEnd(r) == r by {
      if r != [] { assert !IsJsSpace(r[|r| - 1]); }
    }
  }

  // ---------------------------------------------------------------------------
  // the regular expression test /^\*.*/
  // ---------------------------------------------------------------------------

  // `/^\*.*/.test(s)`: the `.*` also matches the empty string, so only the
  // first character matters.
  predicate StartsWithStar(s: string) {
    |s| > 0 && s[0] == '*'
  }

  // ---------------------------------------------------------------------------
  // s.replace(/\.com.*/, '.com')
  // ---------------------------------------------------------------------------

  /** The characters the regular-expression `.` does not match. */
  predicate IsLineTerminator(c: char) {
    c == '\n' || c == '\r' || c == '\U{2028}' || c == '\U{2029}'
  }

  /** ".com" occurs in `s` at index `i`. */
  predicate DotComAt(s: string, i: int) {
    0 <= i && i + 4 <= |s| && s[i..i + 4] == ".com"
  }

  /** The index of the first ".com" in `s` at or after `from`. */
  function FindDotCom(s: string, from: nat): (r: Option<nat>)
    requires from <= |s|
    ensures r.Some? ==> from <= r.value && DotComAt(s, r.value)
    ensures forall i :: from <= i && (r.None? || i < r.value) ==> !DotComAt(s, i)
    decreases |s| - from
  {
    if from + 4 > |s| then None
    else if s[from..from + 4] == ".com" then Some(from)
    else FindDotCom(s, from + 1)
  }

  /** The index of the first line terminator in `s` at or after `from`, or `|s|`. */
  function LineEnd(s: string, from: nat): (j: nat)
    requires from <= |s|
    ensures from <= j <= |s|
    ensures j < |s| ==> IsLineTerminator(s[j])
    ensures forall k :: from <= k < j ==> !IsLineTerminator(s[k])
    decreases |s| - from
  {
    if from == |s| || IsLineTerminator(s[from]) then from else LineEnd(s, from + 1)
  }

  /** The first ".com" of `s` is at index `i`. */
  predicate FirstDotComAt(s: string, i: int) {
    DotComAt(s, i) && forall j :: 0 <= j < i ==> !DotComAt(s, j)
  }

  /** No line terminator among `s[lo..hi]`. */
  predicate OneLine(s: string, lo: int, hi: int)
    requires 0 <= lo <= hi <= |s|
  {
    forall k :: lo <= k < hi ==> !IsLineTerminator(s[k])
  }

  // `s.replace(/\.com.*/, '.com')`: the first ".com" and the rest of its line
  // are replaced by ".com"; the regular expression is not global, so only the
  // first ".com" is affected. What is kept after ".com" is the rest of `s`
  // from the end of that line on.
  function CutAfterDotCom(s: string): (r: string)
    ensures (forall i :: !DotComAt(s, i)) ==> r == s
    ensures forall i :: FirstDotComAt(s, i) ==>
      var e := |s| - (|r| - (i + 4));
      && i + 4 <= |r| && r[..i + 4] == s[..i + 4]
      && i + 4 <= e <= |s| && r[i + 4..] == s[e..]
      && OneLine(s, i + 4, e) && (e == |s| || IsLineTerminator(s[e]))
    ensures forall i :: FirstDotComAt(s, i) && OneLine(s, 0, |s|) ==> r == s[..i + 4]
  {
    match FindDotCom(s, 0)
    case None => s
    case Some(i) =>
      var e := LineEnd(s, i + 4);
      CutAt(s, i, e);
      s[..i + 4] + s[e..]
  }

  /** The facts behind `CutAfterDotCom`'s contract, for the first ".com" at `i` and its line end `e`. */
  lemma CutAt(s: string, i: nat, e: nat)
    requires FindDotCom(s, 0) == Some(i) && e == LineEnd(s, i + 4)
    ensures FirstDotComAt(s, i)
    ensures forall i' :: FirstDotComAt(s, i') ==> i' == i
    ensures var r := s[..i + 4] + s[e..];
      && i + 4 <= |r| && r[..i + 4] == s[..i + 4]
      && i + 4 <= e <= |s| && |s| - (|r| - (i + 4)) == e && r[i + 4..] == s[e..]
      && OneLine(s, i + 4, e) && (e == |s| || IsLineTerminator(s[e]))
    ensures OneLine(s, 0, |s|) ==> e == |s|
  {
    var r := s[..i + 4] + s[e..];
    assert r[..i + 4] == s[..i + 4];
    assert r[i + 4..] == s[e..];
  }

  /** Two strings that agree on their first `n` characters have ".com" at the same places below `n - 4`. */
  lemma SamePrefixSameDotCom(r: string, s: string, n: nat)
    requires n <= |r| && n <= |s| && r[..n] == s[..n]
    ensures forall k :: 0 <= k && k + 4 <= n ==> (DotComAt(r, k) <==> DotComAt(s, k))
  {
    forall k | 0 <= k && k + 4 <= n
      ensures DotComAt(r, k) <==> DotComAt(s, k)
    {
      assert r[k..k + 4] == r[..n][k..k + 4];
      assert s[k..k + 4] == s[..n][k..k + 4];
    }
  }

  /** The cut is idempotent: once cut, a server URL stays as it is. */
  lemma CutAfterDotComIdempotent(s: string)
    ensures CutAfterDotCom(CutAfterDotCom(s)) == CutAfterDotCom(s)
  {
    var f := FindDotCom(s, 0);
    if f.Some? {
      var i := f.value;
      var j := LineEnd(s, i + 4);
      var r := s[..i + 4] + s[j..];
      assert CutAfterDotCom(s) == r;
      assert r[..i + 4] == s[..i + 4];
      SamePrefixSameDotCom(r, s, i + 4);
      assert DotComAt(r, i);
      assert FindDotCom(r, 0) == Some(i);
      assert LineEnd(r, i + 4) == i + 4 by {
        if i + 4 < |r| { assert r[i + 4] == s[j]; }
      }
      assert r[..i + 4] + r[i + 4..] == r;
    }
  }
}
