/** The generator's earlier entry point: the shared early classifier with the
    ignore set checked against each entry's base name, a head that suggests
    `theme.css`, and a timestamped output name when an index exists and may
    not be overwritten. */
module GeneratorIndex {
  import opened Wrappers
  import opened JsText
  import opened Scanner
  import opened Markup
  import opened Tiles
  import opened Buckets
  import opened Pages
  import opened Naming
  import opened EarlyTs

  const Key: IgnoreKey := ByBase
  const ThemeHref: Fixed := "theme.css"

  /** `generateTemplate`, with this version's head. */
  function Template(input: TemplateInput, style: Block, script: Block): string
    requires input.append.Some? ==> -1 <= input.append.value.appendToIndex < |input.append.value.existingFileContent|
  {
    GenerateTemplate(input, style, script, ThemeNote(ThemeHref))
  }

  /** The round trip for this version's whole document. */
  lemma RoundTrip(input: TemplateInput, style: Block, script: Block)
    requires input.append.None?
    requires AllRecoverable(input.files)
    requires forall i :: 0 <= i < |input.furniture| ==> Embeddable(input.furniture[i].path)
    ensures Ids(Template(input, style, script)) == Paths(input.files)
  {
    ThemeNoteSafe(ThemeHref);
    DocumentRoundTrip(input, style, script, ThemeNote(ThemeHref));
  }

  /** An entry is dropped exactly when its base name is `.DS_Store`, `furniture`
      or `index.js`, at any depth; furniture is only what sits directly in a
      directory named exactly `furniture`. */
  lemma Routing(f: FileData, known: Option<set<string>>)
    ensures RouteOf(Key, f, known) == Ignored <==> f.parsed.base in {".DS_Store", "furniture", "index.js"}
    ensures RouteOf(Key, f, known) == ToFurniture ==> f.parsed.dir == "furniture"
    ensures f.parsed.base !in FilesToIgnore && known == None && f.parsed.dir == "furniture" ==>
      RouteOf(Key, f, known) == ToFurniture
  {
  }

  /** The output name: `index`, or `index_<date>_<time>` when an index exists and
      overwriting is off. */
  function OutputName(indexExists: bool, overwrite: bool, date: string, time: string): (name: string)
    ensures name == DefaultOutputFilename <==> !indexExists || overwrite
    ensures name != DefaultOutputFilename ==> name == StampedName(date, time)
  {
    if indexExists && !overwrite then StampedName(date, time) else DefaultOutputFilename
  }

  /** `websiteFilePath`: `indexExists` is whether `directory/index.html` exists. */
  function WebsiteFilePath(directory: string, options: Options, indexExists: bool, date: string, time: string)
    : (p: string)
    ensures !indexExists || options.overwriteIndex ==> p == directory + "/index.html"
    ensures indexExists && !options.overwriteIndex ==> p == directory + "/" + StampedName(date, time) + ".html"
  {
    assert DefaultOutputFilename + ".html" == "index.html";
    directory + "/" + OutputName(indexExists, options.overwriteIndex, date, time) + ".html"
  }
}
