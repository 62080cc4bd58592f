/** String operations of the JavaScript runtime that the generator relies on,
    written out over `seq<char>`. */
module JsText {

  /** A character matched by the regular-expression class `\s`. */
  predicate IsJsSpace(c: char)
  {
    c == ' ' || c == '\t' || c == '\n' || c == '\U{B}' || c == '\U{C}' || c == '\r'
    || c == '\U{A0}' || c == '\U{1680}' || ('\U{2000}' <= c <= '\U{200A}')
    || c == '\U{2028}' || c == '\U{2029}' || c == '\U{202F}' || c == '\U{205F}'
    || c == '\U{3000}' || c == '\U{FEFF}'
  }

  /** A character that the regular-expression `.` does not match. */
  predicate IsLineTerminator(c: char)
  {
    c == '\n' || c == '\r' || c == '\U{2028}' || c == '\U{2029}'
  }

  predicate StartsWith(s: string, prefix: string)
  {
    |prefix| <= |s| && s[..|prefix|] == prefix
  }

  predicate EndsWith(s: string, suffix: string)
  {
    |suffix| <= |s| && s[|s| - |suffix|..] == suffix
  }

  /** `pat` occurs in `s` starting at offset `j`. */
  predicate OccursAt(s: string, pat: string, j: int)
  {
    0 <= j && j + |pat| <= |s| && s[j..j + |pat|] == pat
  }

  /** `String.prototype.indexOf`, searching from offset `from`. */
  function IndexOfFrom(s: string, pat: string, from: nat): (r: int)
    decreases |s| - from
    ensures r == -1 || (from <= r && OccursAt(s, pat, r))
    ensures forall j {:trigger OccursAt(s, pat, j)} :: from <= j && (r == -1 || j < r) ==> !OccursAt(s, pat, j)
  {
    if from + |pat| > |s| then -1
    else if s[from..from + |pat|] == pat then from
    else IndexOfFrom(s, pat, from + 1)
  }

  /** `s.indexOf(pat)`: the first offset at which `pat` occurs, or -1. */
  function IndexOf(s: string, pat: string): (r: int)
    ensures r == -1 || OccursAt(s, pat, r)
    ensures forall j {:trigger OccursAt(s, pat, j)} :: r == -1 || j < r ==> !OccursAt(s, pat, j)
  {
    IndexOfFrom(s, pat, 0)
  }

  /** `s.lastIndexOf(c)` for a single character. */
  function LastIndexOfChar(s: string, c: char): (r: int)
    ensures -1 <= r < |s|
    ensures r >= 0 ==> s[r] == c
    ensures forall j :: r < j < |s| ==> s[j] != c
    ensures r == -1 <==> c !in s
  {
    if |s| == 0 then -1
    else if s[|s| - 1] == c then |s| - 1
    else LastIndexOfChar(s[..|s| - 1], c)
  }

  /** The ASCII part of `String.prototype.toLowerCase`. */
  function ToLowerChar(c: char): char
  {
    if 'A' <= c <= 'Z' then (c as int + 32) as char else c
  }

  function AsciiLower(s: string): (r: string)
    ensures |r| == |s|
    ensures forall i :: 0 <= i < |s| ==> r[i] == ToLowerChar(s[i])
  {
    if |s| == 0 then [] else AsciiLower(s[..|s| - 1]) + [ToLowerChar(s[|s| - 1])]
  }

  /** `Array.prototype.join`. */
  function Join(xs: seq<string>, sep: string): string
  {
    if |xs| == 0 then ""
    else if |xs| == 1 then xs[0]
    else xs[0] + sep + Join(xs[1..], sep)
  }

  function DigitChar(d: nat): (c: char)
    requires d < 10
    ensures '0' <= c <= '9'
  {
    ('0' as int + d) as char
  }

  /** The decimal text of a non-negative integer, as a template literal prints it. */
  function NatToString(n: nat): (r: string)
    ensures |r| >= 1
    ensures forall i :: 0 <= i < |r| ==> '0' <= r[i] <= '9'
    ensures (|r| == 1) == (n < 10)
  {
    if n < 10 then [DigitChar(n)] else NatToString(n / 10) + [DigitChar(n % 10)]
  }

  /** `s.replace(new RegExp(sep, "g"), sub)` for a one-character separator. */
  function ReplaceChar(s: string, c: char, sub: char): (r: string)
    ensures |r| == |s|
    ensures forall i :: 0 <= i < |s| ==> r[i] == (if s[i] == c then sub else s[i])
  {
    if |s| == 0 then [] else ReplaceChar(s[..|s| - 1], c, sub) + [if s[|s| - 1] == c then sub else s[|s| - 1]]
  }

  /** `s.replace(/\s+/g, sub)`: every maximal run of whitespace becomes one `sub`. */
  function ReplaceSpaceRuns(s: string, sub: char): (r: string)
    requires !IsJsSpace(sub)
    ensures forall i :: 0 <= i < |r| ==> !IsJsSpace(r[i])
    ensures |r| <= |s|
    ensures forall i :: 0 <= i < |r| ==> r[i] == sub || r[i] in s
    ensures (forall i :: 0 <= i < |s| ==> !IsJsSpace(s[i])) ==> r == s
  {
    if |s| == 0 then []
    else if IsJsSpace(s[0]) then [sub] + ReplaceSpaceRuns(DropSpaces(s), sub)
    else [s[0]] + ReplaceSpaceRuns(s[1..], sub)
  }

  /** `s` without its leading run of whitespace. */
  function DropSpaces(s: string): (r: string)
    ensures |r| <= |s|
    ensures |r| > 0 ==> !IsJsSpace(r[0])
    ensures |s| > 0 && IsJsSpace(s[0]) ==> |r| < |s|
    ensures EndsWith(s, r)
  {
    if |s| == 0 || !IsJsSpace(s[0]) then s else DropSpaces(s[1..])
  }

  /** A whitespace run followed by non-whitespace (or nothing) is dropped whole. */
  lemma {:induction false} DropSpacesRun(w: string, b: string)
    requires forall i :: 0 <= i < |w| ==> IsJsSpace(w[i])
    requires |b| == 0 || !IsJsSpace(b[0])
    ensures DropSpaces(w + b) == b
  {
    if |w| > 0 {
      assert (w + b)[1..] == w[1..] + b;
      DropSpacesRun(w[1..], b);
    } else {
      assert w + b == b;
    }
  }

  /** A character other than whitespace passes through unchanged. */
  lemma ReplaceCons(c: char, t: string, sub: char)
    requires !IsJsSpace(sub) && !IsJsSpace(c)
    ensures ReplaceSpaceRuns([c] + t, sub) == [c] + ReplaceSpaceRuns(t, sub)
  {
    assert ([c] + t)[1..] == t;
  }

  lemma ConsSplit(a: string, x: string)
    requires |a| > 0
    ensures a + x == [a[0]] + (a[1..] + x)
  {
  }

  lemma PlainTail(a: string)
    requires |a| > 0 && forall i :: 0 <= i < |a| ==> !IsJsSpace(a[i])
    ensures !IsJsSpace(a[0]) && forall i :: 0 <= i < |a[1..]| ==> !IsJsSpace(a[1..][i])
  {
    forall i | 0 <= i < |a[1..]| ensures !IsJsSpace(a[1..][i]) { assert a[1..][i] == a[i + 1]; }
  }

  /** Text without whitespace passes through unchanged in front of the rest. */
  lemma {:induction false} ReplacePlainPrefix(a: string, b: string, sub: char)
    requires !IsJsSpace(sub)
    requires forall i :: 0 <= i < |a| ==> !IsJsSpace(a[i])
    ensures ReplaceSpaceRuns(a + b, sub) == a + ReplaceSpaceRuns(b, sub)
  {
    if |a| > 0 {
      PlainTail(a);
      ReplacePlainPrefix(a[1..], b, sub);
      ConsSplit(a, b);
      ConsSplit(a, ReplaceSpaceRuns(b, sub));
      ReplaceCons(a[0], a[1..] + b, sub);
    } else {
      assert a + b == b;
    }
  }

  /** A maximal whitespace run between text without whitespace and the rest
      becomes exactly one `sub`, however long the run. */
  lemma ReplaceRun(a: string, w: string, b: string, sub: char)
    requires !IsJsSpace(sub)
    requires forall i :: 0 <= i < |a| ==> !IsJsSpace(a[i])
    requires |w| > 0 && forall i :: 0 <= i < |w| ==> IsJsSpace(w[i])
    requires |b| == 0 || !IsJsSpace(b[0])
    ensures ReplaceSpaceRuns(a + w + b, sub) == a + [sub] + ReplaceSpaceRuns(b, sub)
  {
    assert a + w + b == a + (w + b);
    ReplacePlainPrefix(a, w + b, sub);
    assert (w + b)[0] == w[0];
    DropSpacesRun(w, b);
  }

  /** `s.split(c)[0]`: the text before the first `c`, or all of `s`. */
  function SplitFirst(s: string, c: char): (r: string)
    ensures c !in r
    ensures StartsWith(s, r)
    ensures |r| < |s| ==> s[|r|] == c
    ensures c !in s ==> r == s
  {
    if |s| == 0 || s[0] == c then "" else [s[0]] + SplitFirst(s[1..], c)
  }

  lemma SeqAssoc<T>(a: seq<T>, b: seq<T>, c: seq<T>)
    ensures a + (b + c) == (a + b) + c
  {
  }
}
