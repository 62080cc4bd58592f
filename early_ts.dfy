/** What the two earlier TypeScript generators share: the options read from the
    environment (with the `RANDOM` branch that sets the append flag), the
    classifier with an exact `furniture` directory and no theme bucket, and the
    templates without instructions or random placement. The two differ only in
    the name the ignore set is checked against, the theme note in the head and
    the output file name. */
module EarlyTs {
  import opened Wrappers
  import opened JsText
  import opened NodePath
  import opened IdText
  import opened Scanner
  import opened Markup
  import opened Tiles
  import opened Buckets
  import opened Pages
  import opened Environment

  // ---------------------------------------------------------------- options

  datatype Options = Options(directory: string, overwriteIndex: bool, appendIndex: bool, randomPlacement: bool)

  const CurrentDirectory: string := "."
  const FolderVar: string := "FOLDER"
  const OverwriteVar: string := "OVERWRITE"
  const AppendVar: string := "APPEND"
  const RandomVar: string := "RANDOM"

  const DefaultOptions: Options := Options(CurrentDirectory, false, false, false)

  /** `v === "0" ? false : true`, where an unset variable is not `"0"`. */
  function NotZero(v: Option<string>): (b: bool)
    ensures b <==> v != Some("0")
  {
    match v
    case None => true
    case Some(s) => s != "0"
  }

  /** The options `getOptionsFromEnv` builds. The `RANDOM` branch assigns the
      append flag from `APPEND` once more rather than random placement. */
  function DecodedOptions(e: Env, normalize: string -> string): Options
  {
    Options(
      if IsSet(e, FolderVar) then normalize(e[FolderVar]) else CurrentDirectory,
      IsSet(e, OverwriteVar) && NotZero(Lookup(e, OverwriteVar)),
      if IsSet(e, RandomVar) then NotZero(Lookup(e, AppendVar))
      else IsSet(e, AppendVar) && NotZero(Lookup(e, AppendVar)),
      false)
  }

  /** `getOptionsFromEnv`; `normalize` stands for Node's `path.normalize`. */
  method GetOptionsFromEnv(e: Env, normalize: string -> string) returns (options: Options)
    ensures options == DecodedOptions(e, normalize)
  {
    options := DefaultOptions;
    var folderName := Lookup(e, FolderVar);
    if folderName.Some? && folderName.value != "" {
      options := options.(directory := normalize(folderName.value));
    }
    var overwrite := Lookup(e, OverwriteVar);
    if overwrite.Some? && overwrite.value != "" {
      options := options.(overwriteIndex := NotZero(overwrite));
    }
    var append := Lookup(e, AppendVar);
    if append.Some? && append.value != "" {
      options := options.(appendIndex := NotZero(append));
    }
    var random := Lookup(e, RandomVar);
    if random.Some? && random.value != "" {
      options := options.(appendIndex := NotZero(append));
    }
  }

  /** With none of the variables set, the options are the defaults. */
  lemma NothingSet(e: Env, normalize: string -> string)
    requires !IsSet(e, FolderVar) && !IsSet(e, OverwriteVar) && !IsSet(e, AppendVar) && !IsSet(e, RandomVar)
    ensures DecodedOptions(e, normalize) == Options(".", false, false, false)
  {
  }

  /** A non-empty `OVERWRITE` or `APPEND` other than "0" sets its flag, "0" clears
      it, and an empty or unset one leaves it false; without `RANDOM` nothing else
      touches the append flag. */
  lemma FlagsNotZero(e: Env, normalize: string -> string)
    ensures DecodedOptions(e, normalize).overwriteIndex <==> IsSet(e, OverwriteVar) && e[OverwriteVar] != "0"
    ensures !IsSet(e, RandomVar) ==>
      (DecodedOptions(e, normalize).appendIndex <==> IsSet(e, AppendVar) && e[AppendVar] != "0")
  {
  }

  /** `RANDOM` never turns on random placement; set, it makes the append flag
      true unless `APPEND` is exactly "0", so `RANDOM` alone turns append mode on. */
  lemma RandomSetsAppend(e: Env, normalize: string -> string)
    ensures !DecodedOptions(e, normalize).randomPlacement
    ensures IsSet(e, RandomVar) ==>
      (DecodedOptions(e, normalize).appendIndex <==> !(AppendVar in e && e[AppendVar] == "0"))
    ensures IsSet(e, RandomVar) && AppendVar !in e ==> DecodedOptions(e, normalize).appendIndex
  {
  }

  // ------------------------------------------------------------- classifier

  const FilesToIgnore: set<string> := {".DS_Store", "furniture", "index.js"}
  const FurnitureFolder: string := "furniture"
  const IndexFile: string := "index.html"

  /** Which part of the parsed path the ignore set is checked against. */
  datatype IgnoreKey = ByBase | ByName

  function KeyOf(key: IgnoreKey, f: FileData): string
  {
    match key
    case ByBase => f.parsed.base
    case ByName => f.parsed.name
  }

  /** The route of one iteration of `sortFilesIntoInput`: furniture only directly
      inside a directory named exactly `furniture`, and no theme bucket. */
  function RouteOf(key: IgnoreKey, f: FileData, known: Option<set<string>>): (r: Route)
    ensures r != ToTheme
    ensures r == Ignored <==> KeyOf(key, f) in FilesToIgnore
    ensures r == Known <==> KeyOf(key, f) !in FilesToIgnore && known.Some? && f.path in known.value
    ensures r == ToFurniture <==>
      r != Ignored && r != Known && f.parsed.dir == FurnitureFolder
    ensures r == AsIndex <==>
      r != Ignored && r != Known && f.parsed.dir != FurnitureFolder && f.path == IndexFile
  {
    if KeyOf(key, f) in FilesToIgnore then Ignored
    else if known.Some? && f.path in known.value then Known
    else if f.parsed.dir == FurnitureFolder then ToFurniture
    else if f.path == IndexFile then AsIndex
    else ToFiles
  }

  function Routes(key: IgnoreKey, fs: seq<FileData>, known: Option<set<string>>): (rs: seq<Route>)
    ensures |rs| == |fs|
    ensures forall i :: 0 <= i < |fs| ==> rs[i] == RouteOf(key, fs[i], known)
  {
    seq(|fs|, i requires 0 <= i < |fs| => RouteOf(key, fs[i], known))
  }

  datatype TemplateInput = TemplateInput(
    files: seq<FileData>,
    furniture: seq<FileData>,
    existingIndex: Option<FileData>,
    append: Option<AppendState>)

  /** The append read: only with the append flag, and only when the existing
      document could be read (`existing` is `None` when the read throws). */
  function AppendRead(options: Options, existing: Option<string>): (a: Option<AppendState>)
    ensures a.Some? <==> options.appendIndex && existing.Some?
    ensures a.Some? ==>
      a.value.existingFileContent == existing.value && a.value.existingFiles == Elems(Ids(existing.value))
    ensures a.Some? ==> -1 <= a.value.appendToIndex < |a.value.existingFileContent|
  {
    if options.appendIndex && existing.Some? then
      Some(AppendState(existing.value, Elems(Ids(existing.value)), GetAppendIndex(existing.value)))
    else None
  }

  function KnownIds(a: Option<AppendState>): Option<set<string>>
  {
    if a.Some? then Some(a.value.existingFiles) else None
  }

  /** `sortFilesIntoInput`: each bucket holds, in input order, exactly the entries
      routed to it, and `existingIndex` is the last entry routed there. */
  method SortFilesIntoInput(key: IgnoreKey, files: seq<FileData>, options: Options, existing: Option<string>)
    returns (input: TemplateInput)
    ensures input.append == AppendRead(options, existing)
    ensures input.files == Pick(files, Routes(key, files, KnownIds(input.append)), ToFiles)
    ensures input.furniture == Pick(files, Routes(key, files, KnownIds(input.append)), ToFurniture)
    ensures input.existingIndex == LastPicked(files, Routes(key, files, KnownIds(input.append)), AsIndex)
  {
    var append: Option<AppendState> := None;
    if options.appendIndex && existing.Some? {
      var content := existing.value;
      var existingFiles := ParseFilesFromHtml(content);
      append := Some(AppendState(content, existingFiles, GetAppendIndex(content)));
    }
    ghost var rs := Routes(key, files, KnownIds(append));
    var fs, furniture, existingIndex := [], [], None;
    for i := 0 to |files|
      invariant fs == Pick(files[..i], rs[..i], ToFiles)
      invariant furniture == Pick(files[..i], rs[..i], ToFurniture)
      invariant existingIndex == LastPicked(files[..i], rs[..i], AsIndex)
    {
      var file := files[i];
      LoopStep(files, rs, i);
      assert rs[i] == RouteOf(key, file, KnownIds(append));
      var ignoredBy := if key.ByBase? then file.parsed.base else file.parsed.name;
      if ignoredBy in FilesToIgnore {
        assert rs[i] == Ignored;
        continue;
      }
      if options.appendIndex && append.Some? && file.path in append.value.existingFiles {
        assert rs[i] == Known;
        continue;
      }
      if file.parsed.dir == FurnitureFolder {
        assert rs[i] == ToFurniture;
        furniture := furniture + [file];
      } else if file.path == IndexFile {
        assert rs[i] == AsIndex;
        existingIndex := Some(file);
      } else {
        assert rs[i] == ToFiles;
        fs := fs + [file];
      }
    }
    assert files[..|files|] == files && rs[..|files|] == rs;
    input := TemplateInput(fs, furniture, existingIndex, append);
  }

  /** An entry is in a bucket exactly when it is listed and routed there. */
  lemma BucketMembers(key: IgnoreKey, files: seq<FileData>, known: Option<set<string>>, r: Route, f: FileData)
    ensures f in Pick(files, Routes(key, files, known), r) <==> f in files && RouteOf(key, f, known) == r
  {
    PickMembers(files, Routes(key, files, known), r, f);
  }

  /** Every entry reaches exactly one outcome, as often as it is listed, and no
      entry is ever routed to a theme bucket. */
  lemma BucketsPartition(key: IgnoreKey, files: seq<FileData>, known: Option<set<string>>)
    ensures Gather(files, Routes(key, files, known), [Ignored, Known, ToFurniture, ToTheme, AsIndex, ToFiles])
      == multiset(files)
    ensures Pick(files, Routes(key, files, known), ToTheme) == []
  {
    AllRoutesComplete();
    PickPartition(files, Routes(key, files, known), [Ignored, Known, ToFurniture, ToTheme, AsIndex, ToFiles]);
    PickNone(files, Routes(key, files, known), ToTheme);
  }

  /** No bucket holds an entry whose key is ignored or, in append mode, one the
      existing document already shows. */
  lemma BucketsExclude(key: IgnoreKey, files: seq<FileData>, known: Option<set<string>>, f: FileData)
    requires f in Pick(files, Routes(key, files, known), ToFiles) ||
      f in Pick(files, Routes(key, files, known), ToFurniture)
    ensures f in files && KeyOf(key, f) !in FilesToIgnore
    ensures known.Some? ==> f.path !in known.value
  {
    BucketMembers(key, files, known, ToFiles, f);
    BucketMembers(key, files, known, ToFurniture, f);
  }

  // -------------------------------------------------------------- templates

  /** The gap between an image's `src` and `draggable`: two spaces. */
  const ImgGap: Plain := "  "

  function CreateBody(input: TemplateInput): string
  {
    Body([], Nl6, input.files, NoPlaces(|input.files|), GapImgs(input.furniture, ImgGap))
  }

  /** `createHtmlDocument`; `note` is the version's theme comment in the head. */
  function CreateHtmlDocument(input: TemplateInput, style: Block, script: Block, note: seq<Piece>): string
  {
    Document(Head(style, script, note), CreateBody(input))
  }

  /** `generateTemplate`: splice when an insertion offset was read, else a whole document. */
  function GenerateTemplate(input: TemplateInput, style: Block, script: Block, note: seq<Piece>): string
    requires input.append.Some? ==> -1 <= input.append.value.appendToIndex < |input.append.value.existingFileContent|
  {
    match input.append {
      case Some(a) =>
        Splice(a.existingFileContent, a.appendToIndex, NewContent(Nl6, input.files, NoPlaces(|input.files|)))
      case None => CreateHtmlDocument(input, style, script, note)
    }
  }

  /** The round trip: scanning a whole document gives back exactly the files
      bucket, in order, and `parseFilesFromHtml` its set of paths. */
  lemma DocumentRoundTrip(input: TemplateInput, style: Block, script: Block, note: seq<Piece>)
    requires input.append.None?
    requires AllSafe(note) && (note == [] || TextFirst(note))
    requires AllRecoverable(input.files)
    requires forall i :: 0 <= i < |input.furniture| ==> Embeddable(input.furniture[i].path)
    ensures Ids(GenerateTemplate(input, style, script, note)) == Paths(input.files)
    ensures Elems(Ids(GenerateTemplate(input, style, script, note))) ==
      set i | 0 <= i < |input.files| :: input.files[i].path
  {
    var head := Head(style, script, note);
    HeadIdFree(style, script, note);
    HeadOpens(style, script, note);
    var imgs := GapImgs(input.furniture, ImgGap);
    GapImgsIdFree(input.furniture, ImgGap);
    DocumentIds(head, [], Nl6, input.files, NoPlaces(|input.files|), imgs);
    assert GenerateTemplate(input, style, script, note) == Document(head, CreateBody(input));
    ElemsPaths(input.files);
  }

  /** Append mode: deleting the insert gives back the existing document, the
      result is strictly longer, and the insert reads back as the new entries. */
  lemma AppendSplice(input: TemplateInput, style: Block, script: Block, note: seq<Piece>)
    requires input.append.Some?
    requires -1 <= input.append.value.appendToIndex < |input.append.value.existingFileContent|
    ensures var existing := input.append.value.existingFileContent;
      var k := input.append.value.appendToIndex;
      var r := GenerateTemplate(input, style, script, note);
      var ins := NewContent(Nl6, input.files, NoPlaces(|input.files|));
      |r| > |existing| && r[..k + 1] + r[k + 1 + |ins|..] == existing && r[k + 1..k + 1 + |ins|] == ins
    ensures AllRecoverable(input.files) ==>
      Ids(NewContent(Nl6, input.files, NoPlaces(|input.files|))) == Paths(input.files)
  {
    var existing := input.append.value.existingFileContent;
    var k := input.append.value.appendToIndex;
    var ins := NewContent(Nl6, input.files, NoPlaces(|input.files|));
    assert GenerateTemplate(input, style, script, note) == Splice(existing, k, ins);
    if AllRecoverable(input.files) {
      NewContentIds(Nl6, input.files, NoPlaces(|input.files|));
    }
  }
}
