/** The lexical part of Node's POSIX `path.parse`, for the relative paths a
    recursive directory listing produces (no trailing `/`). */
module NodePath {
  import opened JsText

  /** The `ParsedPath` record; `root` is left out because listed paths are relative. */
  datatype ParsedPath = ParsedPath(dir: string, base: string, ext: string, name: string)

  /** The final segment: everything after the last `/`. */
  function BaseOf(p: string): (base: string)
    ensures '/' !in base && EndsWith(p, base)
    ensures '/' !in p ==> base == p
    ensures '/' in p ==> |base| < |p| && p[|p| - |base| - 1] == '/'
  {
    var slash := LastIndexOfChar(p, '/');
    var base := p[slash + 1..];
    assert forall i :: 0 <= i < |base| ==> base[i] == p[slash + 1 + i];
    base
  }

  /** Everything before the last `/`; `/` itself when that slash is the first character. */
  function DirOf(p: string): (dir: string)
    ensures '/' !in p ==> dir == ""
    ensures '/' in p && dir != "/" ==> p == dir + "/" + BaseOf(p)
  {
    var slash := LastIndexOfChar(p, '/');
    if slash > 0 then p[..slash] else if slash == 0 then "/" else ""
  }

  /** The extension of a final path segment: from its last `.`, unless that dot is
      the segment's first character or the segment is `..`. */
  function ExtOf(base: string): (ext: string)
    ensures EndsWith(base, ext)
    ensures ext == "" || (ext[0] == '.' && '.' !in ext[1..] && |ext| < |base|)
    ensures (ext == "") <==> (base == ".." || forall i :: 0 < i < |base| ==> base[i] != '.')
  {
    var dot := LastIndexOfChar(base, '.');
    if dot <= 0 || base == ".." then "" else base[dot..]
  }

  /** The final segment without its extension. */
  function NameOf(base: string): (name: string)
    ensures name + ExtOf(base) == base
  {
    var ext := ExtOf(base);
    assert base == base[..|base| - |ext|] + base[|base| - |ext|..];
    base[..|base| - |ext|]
  }

  function Parse(p: string): (pp: ParsedPath)
    ensures pp.name + pp.ext == pp.base
    ensures pp.base == BaseOf(p) && pp.dir == DirOf(p) && pp.ext == ExtOf(pp.base)
  {
    var base := BaseOf(p);
    var ext := ExtOf(base);
    ParsedPath(DirOf(p), base, ext, NameOf(base))
  }

  /** The extension of a segment whose last dot is at `k > 0`. */
  lemma ExtAt(base: string, k: nat)
    requires 0 < k < |base| - 1 && base[k] == '.'
    requires forall j :: k < j < |base| ==> base[j] != '.'
    ensures ExtOf(base) == base[k..] && NameOf(base) == base[..k]
  {
    assert LastIndexOfChar(base, '.') == k;
    assert |base| != |".."|;
  }

  /** How a top-level file whose one dot is at `k` parses. */
  lemma ParseTopLevel(p: string, k: nat)
    requires 0 < k < |p| - 1 && '/' !in p && p[k] == '.'
    requires forall j :: k < j < |p| ==> p[j] != '.'
    ensures Parse(p) == ParsedPath("", p, p[k..], p[..k])
  {
    assert BaseOf(p) == p;
    ExtAt(p, k);
  }
}
