/** The first TypeScript version: the shared early classifier with the ignore
    set checked against each entry's name without extension, a head without the
    theme note, and a timestamped output name whenever overwriting is off. */
module SrcIndex {
  import opened Wrappers
  import opened JsText
  import opened NodePath
  import opened Scanner
  import opened Markup
  import opened Tiles
  import opened Buckets
  import opened Pages
  import opened Naming
  import opened EarlyTs

  const Key: IgnoreKey := ByName

  /** `generateTemplate`, with this version's head. */
  function Template(input: TemplateInput, style: Block, script: Block): string
    requires input.append.Some? ==> -1 <= input.append.value.appendToIndex < |input.append.value.existingFileContent|
  {
    GenerateTemplate(input, style, script, [])
  }

  /** The round trip for this version's whole document. */
  lemma RoundTrip(input: TemplateInput, style: Block, script: Block)
    requires input.append.None?
    requires AllRecoverable(input.files)
    requires forall i :: 0 <= i < |input.furniture| ==> Embeddable(input.furniture[i].path)
    ensures Ids(Template(input, style, script)) == Paths(input.files)
  {
    DocumentRoundTrip(input, style, script, []);
  }

  /** For a top-level file with one dot, this version drops it when the part
      before the dot is in the ignore set, where the earlier generator drops it
      when the whole name is. */
  lemma NameCheck(p: string, k: nat, known: Option<set<string>>)
    requires 0 < k < |p| - 1 && '/' !in p && p[k] == '.'
    requires forall j :: k < j < |p| ==> p[j] != '.'
    ensures RouteOf(Key, FileData(p, Parse(p)), known) == Ignored <==> p[..k] in FilesToIgnore
    ensures RouteOf(ByBase, FileData(p, Parse(p)), known) == Ignored <==> p in FilesToIgnore
  {
    ParseTopLevel(p, k);
  }

  /** A top-level path that starts with the stem `q` (ending in its one dot)
      and has no further dot meets the requirements of `NameCheck`. */
  lemma StemDot(p: string, q: string)
    requires 2 <= |q| < |p| && p[..|q|] == q && q[|q| - 1] == '.' && '/' !in q
    requires '/' !in p[|q|..] && '.' !in p[|q|..]
    ensures p[..|q| - 1] == q[..|q| - 1] && p[|q| - 1] == '.'
    ensures '/' !in p && forall j :: |q| - 1 < j < |p| ==> p[j] != '.'
  {
    assert forall j :: 0 <= j < |q| ==> p[j] == q[j];
    assert forall j :: |q| <= j < |p| ==> p[j] == p[|q|..][j - |q|];
  }

  lemma IndexStem()
    ensures "index."[..5] == "index" && "index."[5] == '.' && '/' !in "index."
    ensures "index" !in FilesToIgnore
  {
  }

  lemma FurnitureStem()
    ensures "furniture."[..9] == "furniture" && "furniture."[9] == '.' && '/' !in "furniture."
    ensures "furniture" in FilesToIgnore
  {
  }

  /** So no top-level `index.<ext>` is dropped: not `index.js`, which the
      base-name check drops, and not `index.html`, which goes on to become the
      existing index. */
  lemma IndexKept(p: string, known: Option<set<string>>)
    requires |p| > 6 && p[..6] == "index." && '/' !in p[6..] && '.' !in p[6..]
    ensures RouteOf(Key, FileData(p, Parse(p)), known) != Ignored
  {
    IndexStem();
    StemDot(p, "index.");
    NameCheck(p, 5, known);
  }

  /** And any top-level `furniture.<ext>` is dropped. */
  lemma FurnitureFileDropped(p: string, known: Option<set<string>>)
    requires |p| > 10 && p[..10] == "furniture." && '/' !in p[10..] && '.' !in p[10..]
    ensures RouteOf(Key, FileData(p, Parse(p)), known) == Ignored
  {
    FurnitureStem();
    StemDot(p, "furniture.");
    NameCheck(p, 9, known);
  }

  /** The output name: timestamped whenever overwriting is off, with no check
      that an index exists. */
  function OutputName(overwrite: bool, date: string, time: string): (name: string)
    ensures name == DefaultOutputFilename <==> overwrite
    ensures !overwrite ==> name == StampedName(date, time)
  {
    if !overwrite then StampedName(date, time) else DefaultOutputFilename
  }

  /** `websiteFilePath`. */
  function WebsiteFilePath(directory: string, options: Options, date: string, time: string): (p: string)
    ensures options.overwriteIndex ==> p == directory + "/index.html"
    ensures !options.overwriteIndex ==> p == directory + "/" + StampedName(date, time) + ".html"
  {
    assert DefaultOutputFilename + ".html" == "index.html";
    directory + "/" + OutputName(options.overwriteIndex, date, time) + ".html"
  }
}
