/** The existing-document scanner: the global regular expression
    `/dialog\s?id="(.[^"]+)"/g` run with `matchAll` (leftmost matches, no overlap,
    each search resuming where the previous match ended), and the insertion point
    chosen by `getAppendIndex`. */
module Scanner {
  import opened Wrappers
  import opened JsText
  import opened IdText

  /** One match: the captured group and the length of the whole match. */
  datatype Capture = Capture(id: string, len: nat)

  /** The first `"` at or after offset `from`. */
  function QuoteFrom(t: string, from: nat): (r: Option<nat>)
    decreases |t| - from
    ensures r.Some? ==> from <= r.value < |t| && t[r.value] == '"'
    ensures forall j :: from <= j < |t| && (r.None? || j < r.value) ==> t[j] != '"'
  {
    if from >= |t| then None
    else if t[from] == '"' then Some(from)
    else QuoteFrom(t, from + 1)
  }

  /** Where `id="` must stand after `dialog`: `\s?` is greedy, but when it takes a
      whitespace character the alternative without it cannot match (that character
      would have to be `i`), so the offset is fixed by `t[6]`. */
  function IdOffset(t: string): (k: nat)
    ensures k == 6 || k == 7
  {
    if |t| > 6 && IsJsSpace(t[6]) then 7 else 6
  }

  /** `t` fits the pattern up to and including the group's first character:
      `dialog`, the optional space, `id="`, and a character other than a line
      terminator. */
  predicate Opening(t: string)
  {
    |t| >= 6 && t[..6] == "dialog" && IdOpenAt(t, IdOffset(t)) && IdOffset(t) + 4 < |t|
    && !IsLineTerminator(t[IdOffset(t) + 4])
  }

  /** The pattern anchored at the start of `t`. The group is one character other
      than a line terminator followed by at least one non-quote character, and the
      match ends at the first quote after that. */
  function MatchHere(t: string): (m: Option<Capture>)
    ensures m.Some? ==> IdOpenAt(t, 6) || IdOpenAt(t, 7)
    ensures m.Some? ==> 2 <= |m.value.id| && 1 <= m.value.len <= |t|
    ensures m.Some? ==> |t| >= 6 && t[..6] == "dialog"
    ensures m.Some? ==>
      var k, e := IdOffset(t), m.value.len - 1;
      IdOpenAt(t, k) && k + 6 <= e < |t| && t[e] == '"' && m.value.id == t[k + 4..e]
      && !IsLineTerminator(t[k + 4]) && forall j :: k + 5 <= j < e ==> t[j] != '"'
    ensures m.Some? ==> Opening(t)
    ensures m.None? && Opening(t) ==>
      forall e :: IdOffset(t) + 6 <= e < |t| && t[e] == '"' ==> '"' in t[IdOffset(t) + 5..e]
  {
    if |t| < 6 || t[..6] != "dialog" then None
    else
      var k := IdOffset(t);
      if !IdOpenAt(t, k) || |t| <= k + 4 || IsLineTerminator(t[k + 4]) then None
      else match QuoteFrom(t, k + 5)
        case None => None
        case Some(q) =>
          if q < k + 6 then
            assert forall e :: k + 6 <= e < |t| && t[e] == '"' ==> '"' in t[k + 5..e] by {
              forall e | k + 6 <= e < |t| && t[e] == '"' ensures '"' in t[k + 5..e] {
                assert t[k + 5..e][0] == t[q];
              }
            }
            None
          else Some(Capture(t[k + 4..q], q + 1))
  }

  /** The captured groups of all matches, in document order. */
  function Ids(t: string): (ids: seq<string>)
    decreases |t|
  {
    if |t| == 0 then []
    else match MatchHere(t)
      case Some(c) => [c.id] + Ids(t[c.len..])
      case None => Ids(t[1..])
  }

  function Elems(s: seq<string>): (r: set<string>)
    ensures forall x :: x in r <==> x in s
  {
    set x | x in s
  }

  /** `parseFilesFromHtml`: the set of every captured group. */
  method ParseFilesFromHtml(content: string) returns (existing: set<string>)
    ensures existing == Elems(Ids(content))
  {
    existing := {};
    ghost var seen: seq<string> := [];
    var rest := content;
    while |rest| > 0
      invariant seen + Ids(rest) == Ids(content)
      invariant forall x :: x in existing <==> x in seen
      decreases |rest|
    {
      var m := MatchHere(rest);
      if m.Some? {
        var id := m.value.id;
        assert Ids(rest) == [id] + Ids(rest[m.value.len..]);
        assert seen + [id] + Ids(rest[m.value.len..]) == seen + Ids(rest);
        existing := existing + {id};
        seen := seen + [id];
        rest := rest[m.value.len..];
      } else {
        rest := rest[1..];
      }
    }
    assert seen == Ids(content);
  }

  const DialogTag: string := "dialog "

  /** The dialog opening the renderer writes for a path; the scanner reads it back. */
  function DialogIdAttr(path: string): string
  {
    DialogTag + Attr("id", path)
  }

  /** A dialog opening puts its first quote after ten characters. */
  lemma DialogIdAttrOpens(path: string, more: string)
    ensures forall i :: 0 <= i < |DialogIdAttr(path) + more| && i < 10 ==> (DialogIdAttr(path) + more)[i] != '"'
  {
    var b := DialogIdAttr(path) + more;
    assert b[..10] == "dialog id=";
    forall i | 0 <= i < |b| && i < 10 ensures b[i] != '"' {
      assert b[i] == b[..10][i];
    }
  }

  /** The paths the round trip needs: at least two code points (a one-code-point
      group never matches), no quote, and a first character that `.` accepts. */
  predicate Scannable(path: string)
  {
    2 <= |path| && '"' !in path && !IsLineTerminator(path[0])
  }

  /** Every captured group has the shape the pattern forces. */
  lemma {:induction false} IdsShape(t: string)
    ensures forall x :: x in Ids(t) ==> 2 <= |x| && !IsLineTerminator(x[0]) && '"' !in x[1..]
    decreases |t|
  {
    if |t| > 0 {
      match MatchHere(t)
      case Some(c) =>
        IdsShape(t[c.len..]);
        var k := IdOffset(t);
        assert forall j :: 1 <= j < |c.id| ==> c.id[j] == t[k + 4 + j];
      case None =>
        IdsShape(t[1..]);
    }
  }

  /** The text a file's `data` value (or an image's `src`) leaves when the path ends
      in `dialog id=`: the value's closing quote completes `id="`, `.` takes the
      character after it (the space before `draggable=`), and `[^"]+` takes the next
      attribute's name up to its own quote, so that name is read back as an id. */
  lemma SpuriousIdAfterValue(c: char, w: string, rest: string)
    requires c != '"' && !IsLineTerminator(c) && |w| >= 1 && '"' !in w
    ensures MatchHere("dialog id=\"" + [c] + w + "\"" + rest) == Some(Capture([c] + w, 13 + |w|))
  {
    var t := "dialog id=\"" + [c] + w + "\"" + rest;
    assert t[..6] == "dialog" && IsJsSpace(t[6]) && IdOpenAt(t, 7) && t[11] == c;
    assert forall j :: 12 <= j < 12 + |w| ==> t[j] == w[j - 12];
    assert t[12 + |w|] == '"';
    assert t[11..12 + |w|] == [c] + w;
  }

  /** The same ending in a button's `aria-controls` is harmless: a line break follows
      the closing quote, and `.` does not match it. */
  lemma NoIdAfterControls(c: char, rest: string)
    requires IsLineTerminator(c)
    ensures MatchHere("dialog id=\"" + [c] + rest) == None
  {
    var t := "dialog id=\"" + [c] + rest;
    assert t[..6] == "dialog" && IsJsSpace(t[6]) && IdOpenAt(t, 7) && t[11] == c;
  }

  /** A path of fewer than two code points is never read back from any document. */
  lemma ShortIdNeverFound(t: string, path: string)
    requires |path| < 2
    ensures path !in Ids(t) && path !in Elems(Ids(t))
  {
    IdsShape(t);
  }

  lemma {:induction false} IdsSkipFrom(s: string, u: string, n: nat, k: nat)
    requires k <= n <= |u| <= |s| && s[..|u|] == u && IdFree(u)
    requires |u| == |s| || |u| >= n + 10
    ensures Ids(s[k..]) == Ids(s[n..])
    decreases n - k
  {
    if k < n {
      var t := s[k..];
      var none := MatchHere(t).None?;
      if !none {
        if IdOpenAt(t, 6) {
          assert IdOpenAt(u, k + 6) by {
            assert u[k + 6..k + 10] == t[6..10];
          }
          IdFreeAt(u, k + 6);
        } else {
          assert IdOpenAt(u, k + 7) by {
            assert u[k + 7..k + 11] == t[7..11];
          }
          IdFreeAt(u, k + 7);
        }
      }
      assert t[1..] == s[k + 1..];
      IdsSkipFrom(s, u, n, k + 1);
    }
  }

  /** Text without `id="` contributes nothing, provided the text after it does not
      put a quote within its first ten characters. */
  lemma IdsSkip(a: string, b: string)
    requires IdFree(a)
    requires forall i :: 0 <= i < |b| && i < 10 ==> b[i] != '"'
    ensures Ids(a + b) == Ids(b)
  {
    var n := if |b| < 10 then |b| else 10;
    var u := a + b[..n];
    IdFreeText(a, b[..n]);
    var s := a + b;
    assert s[..|u|] == u;
    IdsSkipFrom(s, u, |a|, 0);
    assert s[0..] == s && s[|a|..] == b;
  }

  lemma IdsOfIdFree(a: string)
    requires IdFree(a)
    ensures Ids(a) == []
  {
    IdsSkip(a, "");
    assert a + "" == a;
  }

  lemma QuoteFromIs(t: string, from: nat, q: nat)
    requires from <= q < |t| && t[q] == '"'
    requires forall j :: from <= j < q ==> t[j] != '"'
    ensures QuoteFrom(t, from) == Some(q)
  {
  }

  /** A rendered dialog opening is read back as exactly its path, and scanning
      resumes right after the closing quote. */
  lemma IdsSite(path: string, rest: string)
    requires Scannable(path)
    ensures Ids(DialogIdAttr(path) + rest) == [path] + Ids(rest)
  {
    var t := DialogIdAttr(path) + rest;
    assert t == "dialog id=\"" + path + "\"" + rest;
    var n := |path|;
    assert t[..6] == "dialog";
    assert t[6] == ' ';
    assert IdOpenAt(t, 7);
    assert t[11] == path[0];
    forall j | 12 <= j < 11 + n
      ensures t[j] != '"'
    {
      assert t[j] == path[j - 11];
    }
    assert t[11 + n] == '"';
    QuoteFromIs(t, 12, 11 + n);
    assert t[11..11 + n] == path;
    assert MatchHere(t) == Some(Capture(path, 12 + n));
    assert t[12 + n..] == rest;
  }

  const FurnitureOpen: string := "<section " + Attr("aria-label", "furniture") + ">"
  const BodyClose: string := "</body>"

  /** `getAppendIndex`: just before the furniture section, else just before
      `</body>`, else the last character; a marker found at offset 0 counts as
      absent because the source tests `> 0`. */
  function GetAppendIndex(content: string): (k: int)
    ensures -1 <= k < |content|
    ensures IndexOf(content, FurnitureOpen) > 0 ==> k == IndexOf(content, FurnitureOpen) - 1
    ensures IndexOf(content, FurnitureOpen) <= 0 && IndexOf(content, BodyClose) > 0 ==>
              k == IndexOf(content, BodyClose) - 1
    ensures IndexOf(content, FurnitureOpen) <= 0 && IndexOf(content, BodyClose) <= 0 ==>
              k == |content| - 1
  {
    var f := IndexOf(content, FurnitureOpen);
    if f > 0 then f - 1
    else
      var b := IndexOf(content, BodyClose);
      if b > 0 then b - 1 else |content| - 1
  }

  /** What append mode learns from the existing document before the classifying
      loop: its text, the paths it already shows and the insertion offset. */
  datatype AppendState = AppendState(existingFileContent: string, existingFiles: set<string>, appendToIndex: int)
}
