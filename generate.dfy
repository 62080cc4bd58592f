/** The current generator: options from the environment, the classifier, the
    append-mode splice and the full document, and the output file name. */
module Generate {
  import opened Wrappers
  import opened JsText
  import opened NodePath
  import opened IdText
  import opened Scanner
  import opened Markup
  import opened Tiles
  import opened Buckets
  import opened Pages
  import opened Environment
  import opened Naming

  // ---------------------------------------------------------------- options

  datatype Options = Options(
    appendFile: bool,
    directory: string,
    displayInstructions: bool,
    overwriteFile: bool,
    randomPlacement: bool)

  const CurrentDirectory: string := "."
  const FolderVar: string := "FOLDER"
  const OverwriteVar: string := "OVERWRITE"
  const AppendVar: string := "APPEND"
  const RandomVar: string := "RANDOM_POSITION"
  const InstructionsVar: string := "INSTRUCTIONS"

  const DefaultOptions: Options := Options(false, CurrentDirectory, true, false, false)

  /** `parseBool`: only "1" and "true" are true; "", "0", "false" and every
      unexpected value are false. */
  function ParseBool(v: string): (b: bool)
    ensures b <==> v == "1" || v == "true"
  {
    if v == "" || v == "0" || v == "false" then false
    else if v == "1" || v == "true" then true
    else false
  }

  /** A flag variable: `parseBool` of its value when it is set and non-empty,
      else the default. */
  function Flag(e: Env, name: string, default: bool): (b: bool)
    ensures IsSet(e, name) ==> (b <==> ParseBool(e[name]))
    ensures !IsSet(e, name) ==> b == default
  {
    if IsSet(e, name) then ParseBool(e[name]) else default
  }

  function Directory(e: Env, normalize: string -> string): string
  {
    if IsSet(e, FolderVar) then normalize(e[FolderVar]) else CurrentDirectory
  }

  /** The options `getOptionsFromEnv` builds: a set variable overrides its field,
      an unset or empty one leaves the default. */
  function DecodedOptions(e: Env, normalize: string -> string): Options
  {
    Options(Flag(e, AppendVar, false), Directory(e, normalize), Flag(e, InstructionsVar, true),
      Flag(e, OverwriteVar, false), Flag(e, RandomVar, false))
  }

  /** `getOptionsFromEnv`: start from the defaults and overwrite one field per
      set variable. `normalize` stands for Node's `path.normalize`. */
  method GetOptionsFromEnv(e: Env, normalize: string -> string) returns (options: Options)
    ensures options == DecodedOptions(e, normalize)
  {
    options := DefaultOptions;
    var folderName := Lookup(e, FolderVar);
    if folderName.Some? && folderName.value != "" {
      options := options.(directory := normalize(folderName.value));
    }
    assert options == Options(false, Directory(e, normalize), true, false, false);
    var overwrite := Lookup(e, OverwriteVar);
    if overwrite.Some? && overwrite.value != "" {
      options := options.(overwriteFile := ParseBool(overwrite.value));
    }
    assert options == Options(false, Directory(e, normalize), true, Flag(e, OverwriteVar, false), false);
    var append := Lookup(e, AppendVar);
    if append.Some? && append.value != "" {
      options := options.(appendFile := ParseBool(append.value));
    }
    assert options == Options(Flag(e, AppendVar, false), Directory(e, normalize), true,
      Flag(e, OverwriteVar, false), false);
    var random := Lookup(e, RandomVar);
    if random.Some? && random.value != "" {
      options := options.(randomPlacement := ParseBool(random.value));
    }
    assert options == Options(Flag(e, AppendVar, false), Directory(e, normalize), true,
      Flag(e, OverwriteVar, false), Flag(e, RandomVar, false));
    var instructions := Lookup(e, InstructionsVar);
    if instructions.Some? && instructions.value != "" {
      options := options.(displayInstructions := ParseBool(instructions.value));
    }
    assert options == Options(Flag(e, AppendVar, false), Directory(e, normalize), Flag(e, InstructionsVar, true),
      Flag(e, OverwriteVar, false), Flag(e, RandomVar, false));
  }

  /** With none of the variables set, the options are the defaults. */
  lemma NothingSet(e: Env, normalize: string -> string)
    requires !IsSet(e, FolderVar) && !IsSet(e, OverwriteVar) && !IsSet(e, AppendVar)
    requires !IsSet(e, RandomVar) && !IsSet(e, InstructionsVar)
    ensures DecodedOptions(e, normalize) == Options(false, ".", true, false, false)
  {
  }

  lemma SetOther(e: Env, name: string, other: string, v: string)
    requires name != other
    ensures IsSet(e[name := v], other) == IsSet(e, other)
    ensures IsSet(e, other) ==> e[name := v][other] == e[other]
  {
  }

  lemma SetSelf(e: Env, name: string, v: string)
    ensures IsSet(e[name := v], name) == (v != "")
    ensures e[name := v][name] == v
  {
  }

  /** Setting one flag variable changes only its own field, to `parseBool` of the
      value; an empty value restores the default (true for the instructions). */
  lemma AppendFlag(e: Env, normalize: string -> string, v: string)
    ensures DecodedOptions(e[AppendVar := v], normalize) == DecodedOptions(e, normalize).(appendFile := ParseBool(v))
  {
    SetSelf(e, AppendVar, v);
    SetOther(e, AppendVar, FolderVar, v);
    SetOther(e, AppendVar, OverwriteVar, v);
    SetOther(e, AppendVar, RandomVar, v);
    SetOther(e, AppendVar, InstructionsVar, v);
  }

  lemma OverwriteFlag(e: Env, normalize: string -> string, v: string)
    ensures DecodedOptions(e[OverwriteVar := v], normalize) == DecodedOptions(e, normalize).(overwriteFile := ParseBool(v))
  {
    SetSelf(e, OverwriteVar, v);
    SetOther(e, OverwriteVar, FolderVar, v);
    SetOther(e, OverwriteVar, AppendVar, v);
    SetOther(e, OverwriteVar, RandomVar, v);
    SetOther(e, OverwriteVar, InstructionsVar, v);
  }

  lemma RandomFlag(e: Env, normalize: string -> string, v: string)
    ensures DecodedOptions(e[RandomVar := v], normalize) == DecodedOptions(e, normalize).(randomPlacement := ParseBool(v))
  {
    SetSelf(e, RandomVar, v);
    SetOther(e, RandomVar, FolderVar, v);
    SetOther(e, RandomVar, OverwriteVar, v);
    SetOther(e, RandomVar, AppendVar, v);
    SetOther(e, RandomVar, InstructionsVar, v);
  }

  lemma InstructionsFlag(e: Env, normalize: string -> string, v: string)
    ensures DecodedOptions(e[InstructionsVar := v], normalize) == DecodedOptions(e, normalize).(displayInstructions := v == "" || ParseBool(v))
  {
    SetSelf(e, InstructionsVar, v);
    SetOther(e, InstructionsVar, FolderVar, v);
    SetOther(e, InstructionsVar, OverwriteVar, v);
    SetOther(e, InstructionsVar, AppendVar, v);
    SetOther(e, InstructionsVar, RandomVar, v);
  }

  /** Setting `FOLDER` changes only the directory: normalised when non-empty. */
  lemma FolderSetting(e: Env, normalize: string -> string, v: string)
    ensures DecodedOptions(e[FolderVar := v], normalize) == DecodedOptions(e, normalize).(directory := if v == "" then CurrentDirectory else normalize(v))
  {
    SetSelf(e, FolderVar, v);
    SetOther(e, FolderVar, OverwriteVar, v);
    SetOther(e, FolderVar, AppendVar, v);
    SetOther(e, FolderVar, RandomVar, v);
    SetOther(e, FolderVar, InstructionsVar, v);
  }

  // ------------------------------------------------------------- classifier

  const FilesToIgnore: set<string> := {".DS_Store", "index.js", "furniture", "theme"}
  const FurnitureFolder: string := "furniture"
  const ThemeFolder: string := "theme"
  const IndexFile: string := "index.html"

  /** The first segment of the entry's directory, lower-cased. */
  function BaseDir(f: FileData): string
  {
    AsciiLower(SplitFirst(f.parsed.dir, '/'))
  }

  /** The route one iteration of `sortFilesIntoInput` gives an entry: ignored
      by its base name, known to the existing document, or sorted by the first
      segment of its directory, else the old output or a file. */
  function RouteOf(f: FileData, known: Option<set<string>>): (r: Route)
    ensures r == Ignored <==> f.parsed.base in FilesToIgnore
    ensures r == Known <==> f.parsed.base !in FilesToIgnore && known.Some? && f.path in known.value
    ensures r == ToFurniture <==> r != Ignored && r != Known && BaseDir(f) == FurnitureFolder
    ensures r == ToTheme <==> r != Ignored && r != Known && BaseDir(f) == ThemeFolder
    ensures r == AsIndex <==>
      r != Ignored && r != Known && BaseDir(f) !in {FurnitureFolder, ThemeFolder} && f.path == IndexFile
  {
    if f.parsed.base in FilesToIgnore then Ignored
    else if known.Some? && f.path in known.value then Known
    else if BaseDir(f) == FurnitureFolder then ToFurniture
    else if BaseDir(f) == ThemeFolder then ToTheme
    else if f.path == IndexFile then AsIndex
    else ToFiles
  }

  function Routes(fs: seq<FileData>, known: Option<set<string>>): (rs: seq<Route>)
    ensures |rs| == |fs|
    ensures forall i :: 0 <= i < |fs| ==> rs[i] == RouteOf(fs[i], known)
  {
    seq(|fs|, i requires 0 <= i < |fs| => RouteOf(fs[i], known))
  }

  datatype TemplateInput = TemplateInput(
    files: seq<FileData>,
    furniture: seq<FileData>,
    theme: seq<FileData>,
    existingIndex: Option<FileData>,
    displayInstructions: bool,
    randomPlacement: bool,
    append: Option<AppendState>)

  /** The append read: only in append mode, and only when the existing document
      could be read (`existing` is `None` when the read throws). */
  function AppendRead(options: Options, existing: Option<string>): (a: Option<AppendState>)
    ensures a.Some? <==> options.appendFile && existing.Some?
    ensures a.Some? ==>
      a.value.existingFileContent == existing.value && a.value.existingFiles == Elems(Ids(existing.value))
    ensures a.Some? ==> -1 <= a.value.appendToIndex < |a.value.existingFileContent|
  {
    if options.appendFile && existing.Some? then
      Some(AppendState(existing.value, Elems(Ids(existing.value)), GetAppendIndex(existing.value)))
    else None
  }

  function KnownIds(a: Option<AppendState>): Option<set<string>>
  {
    if a.Some? then Some(a.value.existingFiles) else None
  }

  /** `sortFilesIntoInput`: each bucket holds, in input order, exactly the entries
      routed to it, and `existingIndex` is the last entry routed there. */
  method SortFilesIntoInput(files: seq<FileData>, options: Options, existing: Option<string>)
    returns (input: TemplateInput)
    ensures input.append == AppendRead(options, existing)
    ensures input.displayInstructions == options.displayInstructions
    ensures input.randomPlacement == options.randomPlacement
    ensures input.files == Pick(files, Routes(files, KnownIds(input.append)), ToFiles)
    ensures input.furniture == Pick(files, Routes(files, KnownIds(input.append)), ToFurniture)
    ensures input.theme == Pick(files, Routes(files, KnownIds(input.append)), ToTheme)
    ensures input.existingIndex == LastPicked(files, Routes(files, KnownIds(input.append)), AsIndex)
  {
    var append: Option<AppendState> := None;
    if options.appendFile && existing.Some? {
      var content := existing.value;
      var existingFiles := ParseFilesFromHtml(content);
      append := Some(AppendState(content, existingFiles, GetAppendIndex(content)));
    }
    ghost var rs := Routes(files, KnownIds(append));
    var fs, furniture, theme, existingIndex := [], [], [], None;
    for i := 0 to |files|
      invariant fs == Pick(files[..i], rs[..i], ToFiles)
      invariant furniture == Pick(files[..i], rs[..i], ToFurniture)
      invariant theme == Pick(files[..i], rs[..i], ToTheme)
      invariant existingIndex == LastPicked(files[..i], rs[..i], AsIndex)
    {
      var file := files[i];
      LoopStep(files, rs, i);
      assert rs[i] == RouteOf(file, KnownIds(append));
      if file.parsed.base in FilesToIgnore {
        assert rs[i] == Ignored;
        continue;
      }
      if options.appendFile && append.Some? && file.path in append.value.existingFiles {
        assert rs[i] == Known;
        continue;
      }
      var parsedBaseDir := SplitFirst(file.parsed.dir, '/');
      if AsciiLower(parsedBaseDir) == FurnitureFolder {
        assert rs[i] == ToFurniture;
        furniture := furniture + [file];
      } else if AsciiLower(parsedBaseDir) == ThemeFolder {
        assert rs[i] == ToTheme;
        theme := theme + [file];
      } else if file.path == IndexFile {
        assert rs[i] == AsIndex;
        existingIndex := Some(file);
      } else {
        assert rs[i] == ToFiles;
        fs := fs + [file];
      }
    }
    assert files[..|files|] == files && rs[..|files|] == rs;
    input := TemplateInput(fs, furniture, theme, existingIndex, options.displayInstructions,
      options.randomPlacement, append);
  }

  /** An entry is in a bucket exactly when it is listed and routed there. */
  lemma BucketMembers(files: seq<FileData>, known: Option<set<string>>, r: Route, f: FileData)
    ensures f in Pick(files, Routes(files, known), r) <==> f in files && RouteOf(f, known) == r
  {
    PickMembers(files, Routes(files, known), r, f);
  }

  /** Every entry reaches exactly one outcome, as often as it is listed. */
  lemma BucketsPartition(files: seq<FileData>, known: Option<set<string>>)
    ensures Gather(files, Routes(files, known), [Ignored, Known, ToFurniture, ToTheme, AsIndex, ToFiles])
      == multiset(files)
  {
    AllRoutesComplete();
    PickPartition(files, Routes(files, known), [Ignored, Known, ToFurniture, ToTheme, AsIndex, ToFiles]);
  }

  /** No bucket holds an ignored entry or, in append mode, one the existing
      document already shows; the files bucket never holds the old output. */
  lemma BucketsExclude(files: seq<FileData>, known: Option<set<string>>, f: FileData)
    requires f in Pick(files, Routes(files, known), ToFiles) || f in Pick(files, Routes(files, known), ToFurniture)
      || f in Pick(files, Routes(files, known), ToTheme)
    ensures f in files && f.parsed.base !in FilesToIgnore
    ensures known.Some? ==> f.path !in known.value
    ensures f in Pick(files, Routes(files, known), ToFiles) ==> f.path != IndexFile
  {
    BucketMembers(files, known, ToFiles, f);
    BucketMembers(files, known, ToFurniture, f);
    BucketMembers(files, known, ToTheme, f);
  }

  lemma LowerSlash(s: string, n: nat)
    requires n <= |s|
    ensures '/' in s[..n] ==> '/' in AsciiLower(s)[..n]
  {
    if '/' in s[..n] {
      var i :| 0 <= i < n && s[..n][i] == '/';
      assert AsciiLower(s)[..n][i] == '/';
    }
  }

  lemma SplitFirstAt(s: string, n: nat)
    requires n <= |s| && '/' !in s[..n] && (n == |s| || s[n] == '/')
    ensures SplitFirst(s, '/') == s[..n]
    decreases n
  {
    if n > 0 {
      assert s[0] == s[..n][0];
      assert s[1..][..n - 1] == s[..n][1..];
      SplitFirstAt(s[1..], n - 1);
    } else if |s| > 0 {
      assert s[0] == '/';
    }
  }

  /** Furniture is recognised at any depth and in any letter case: an entry
      inside a top-level folder whose name lower-cases to `furniture` goes to
      the furniture bucket unless it is dropped. */
  lemma FurnitureAnyDepth(f: FileData, known: Option<set<string>>)
    requires |f.parsed.dir| >= 9 && AsciiLower(f.parsed.dir[..9]) == FurnitureFolder
    requires |f.parsed.dir| == 9 || f.parsed.dir[9] == '/'
    requires f.parsed.base !in FilesToIgnore && !(known.Some? && f.path in known.value)
    ensures RouteOf(f, known) == ToFurniture
  {
    var d := f.parsed.dir;
    assert '/' !in d[..9] by {
      LowerSlash(d[..9], 9);
      assert d[..9][..9] == d[..9];
      assert AsciiLower(d[..9])[..9] == FurnitureFolder;
    }
    SplitFirstAt(d, 9);
  }

  /** Theme content likewise: an entry inside a top-level folder whose name
      lower-cases to `theme` goes to the theme bucket unless it is dropped. */
  lemma ThemeAnyDepth(f: FileData, known: Option<set<string>>)
    requires |f.parsed.dir| >= 5 && AsciiLower(f.parsed.dir[..5]) == ThemeFolder
    requires |f.parsed.dir| == 5 || f.parsed.dir[5] == '/'
    requires f.parsed.base !in FilesToIgnore && !(known.Some? && f.path in known.value)
    ensures RouteOf(f, known) == ToTheme
  {
    var d := f.parsed.dir;
    assert '/' !in d[..5] by {
      LowerSlash(d[..5], 5);
      assert d[..5][..5] == d[..5];
      assert AsciiLower(d[..5])[..5] == ThemeFolder;
    }
    SplitFirstAt(d, 5);
  }

  // -------------------------------------------------------------- templates

  /** The part of an image tag between its `src` and `draggable` attributes. */
  function ImgStyle(place: Option<Draw>): (ps: seq<Piece>)
    ensures place.None? ==> ps == [Text(" ")]
    ensures place.Some? ==> OnlyField(ps, "style", Position(place.value))
    ensures NoField(ps, "src") && AllSafe(ps)
  {
    match place
    case None => [Text(" ")]
    case Some(s) =>
      var ps := [Text(" "), Field("style", Position(s)), Text(" ")];
      assert ps[1] == Field("style", Position(s));
      ps
  }

  /** An image's one `src` is the entry's path, and it has a style exactly
      when it is placed at random. */
  lemma ImgAttributes(f: FileData, place: Option<Draw>)
    ensures OnlyField(ImgPieces(f, ImgStyle(place)), "src", f.path)
    ensures place.Some? ==> OnlyField(ImgPieces(f, ImgStyle(place)), "style", Position(place.value))
    ensures place.None? ==> NoField(ImgPieces(f, ImgStyle(place)), "style")
  {
    if place.Some? {
      ImgSource(f, ImgStyle(place), "style", Position(place.value));
    } else {
      ImgSource(f, ImgStyle(place), "style", "");
    }
  }

  function Imgs(fs: seq<FileData>, places: seq<Option<Draw>>): (r: seq<string>)
    requires |places| == |fs|
    ensures |r| == |fs|
    ensures forall i :: 0 <= i < |fs| ==> r[i] == Img(fs[i], ImgStyle(places[i]))
  {
    seq(|fs|, i requires 0 <= i < |fs| => Img(fs[i], ImgStyle(places[i])))
  }

  /** The random positions of `n` tiles, drawn in turn from `draws` starting at
      draw number `from`; none when placement is not random. */
  function Placements(random: bool, draws: nat -> Draw, from: nat, n: nat): (ps: seq<Option<Draw>>)
    ensures |ps| == n
    ensures forall i :: 0 <= i < n ==> ps[i] == (if random then Some(draws(from + i)) else None)
  {
    seq(n, i requires 0 <= i < n => if random then Some(draws(from + i)) else None)
  }

  const HeaderTag: Plain := Nl4 + "<header>"
  const HeaderOpen: Plain := HeaderTag + Nl6 + "<div "
  const MenuLine: Plain := ">" + Nl8 + "<button "
  const DraftText: Plain := ">save a draft "
  const DraftNote: Plain := "<span>(with instructions)</span>"
  const ButtonClosing: Plain := "</button>"
  const NextButton: Plain := Nl8 + "<button "
  const FinalText: Plain := ">save & finalize "
  const FinalNote: Plain := "<span>(without instructions)</span>"
  const HeaderClose: Plain := Nl6 + "</div>" + Nl4 + "</header>"
  const ClassName: Name := "class"
  const RoleName: Name := "role"
  const OnclickName: Name := "onclick"
  const InstructionsClass: Fixed := "instructions"
  const MenubarRole: Fixed := "menubar"
  const DraftCall: Fixed := "downloadWholePage()"
  const FinalCall: Fixed := "downloadWholePage(true)"

  /** One of the two save buttons of the header, from its `class` onwards. */
  function SaveButton(call: Fixed, caption: Plain, note: Plain): seq<Piece>
  {
    [Attribute(ClassName, InstructionsClass), Text(" "), Attribute(OnclickName, call),
     Text(caption), Text(note), Text(ButtonClosing)]
  }

  /** The instructions header with its two save buttons. */
  const Header: seq<Piece> :=
    [Text(HeaderOpen), Attribute(ClassName, InstructionsClass), Text(" "), Attribute(RoleName, MenubarRole),
     Text(MenuLine)] + SaveButton(DraftCall, DraftText, DraftNote)
    + [Text(NextButton)] + SaveButton(FinalCall, FinalText, FinalNote) + [Text(HeaderClose)]

  /** `createBody`: draws go first to the files, in order, then to the furniture. */
  function CreateBody(input: TemplateInput, draws: nat -> Draw): string
  {
    var n := |input.files|;
    Body(if input.displayInstructions then Header else [], Nl6, input.files,
      Placements(input.randomPlacement, draws, 0, n),
      Imgs(input.furniture, Placements(input.randomPlacement, draws, n, |input.furniture|)))
  }

  const ThemeHref: Fixed := "theme/theme.css"

  /** `createHtmlDocument`; `style` and `script` stand for what `createStyle` and
      `createScript` return for `input.displayInstructions`. */
  function CreateHtmlDocument(input: TemplateInput, style: Block, script: Block, draws: nat -> Draw): string
  {
    Document(Head(style, script, ThemeNote(ThemeHref)), CreateBody(input, draws))
  }

  /** `generateTemplate`: splice the new pairs into the existing document when
      there is one to append to, otherwise write a whole document. */
  function GenerateTemplate(input: TemplateInput, style: Block, script: Block, draws: nat -> Draw): string
    requires input.append.Some? ==> -1 <= input.append.value.appendToIndex < |input.append.value.existingFileContent|
  {
    match input.append {
      case Some(a) =>
        Splice(a.existingFileContent, a.appendToIndex,
          NewContent(Nl6, input.files, Placements(input.randomPlacement, draws, 0, |input.files|)))
      case None => CreateHtmlDocument(input, style, script, draws)
    }
  }

  lemma HeaderSafe()
    ensures AllSafe(Header) && TextFirst(Header)
  {
    var front := [Text(HeaderOpen), Attribute(ClassName, InstructionsClass), Text(" "), Attribute(RoleName, MenubarRole),
      Text(MenuLine)];
    AllSafeAppend(front, SaveButton(DraftCall, DraftText, DraftNote));
    var a := front + SaveButton(DraftCall, DraftText, DraftNote);
    AllSafeAppend(a, [Text(NextButton)]);
    AllSafeAppend(a + [Text(NextButton)], SaveButton(FinalCall, FinalText, FinalNote));
    AllSafeAppend(a + [Text(NextButton)] + SaveButton(FinalCall, FinalText, FinalNote), [Text(HeaderClose)]);
    assert Header[0] == Text(HeaderOpen);
  }

  /** Images of furniture that fits in an attribute hold no `id="`. */
  lemma ImgsIdFree(fs: seq<FileData>, places: seq<Option<Draw>>)
    requires |places| == |fs|
    requires forall i :: 0 <= i < |fs| ==> Embeddable(fs[i].path)
    ensures forall i :: 0 <= i < |fs| ==> IdFree(Imgs(fs, places)[i]) && StartsWith(Imgs(fs, places)[i], ImgTag)
  {
    forall i | 0 <= i < |fs| ensures IdFree(Imgs(fs, places)[i]) {
      ImgIdFree(fs[i], ImgStyle(places[i]));
    }
  }

  /** The round trip: for entries the scanner can read back and furniture that
      fits in an attribute, scanning a whole generated document yields exactly
      the files bucket, in order, and `parseFilesFromHtml` its set of paths. */
  lemma DocumentRoundTrip(input: TemplateInput, style: Block, script: Block, draws: nat -> Draw)
    requires input.append.None?
    requires AllRecoverable(input.files)
    requires forall i :: 0 <= i < |input.furniture| ==> Embeddable(input.furniture[i].path)
    ensures Ids(GenerateTemplate(input, style, script, draws)) == Paths(input.files)
    ensures Elems(Ids(GenerateTemplate(input, style, script, draws))) ==
      set i | 0 <= i < |input.files| :: input.files[i].path
  {
    var head := Head(style, script, ThemeNote(ThemeHref));
    ThemeNoteSafe(ThemeHref);
    HeadIdFree(style, script, ThemeNote(ThemeHref));
    HeadOpens(style, script, ThemeNote(ThemeHref));
    HeaderSafe();
    var n := |input.files|;
    var furniturePlaces := Placements(input.randomPlacement, draws, n, |input.furniture|);
    ImgsIdFree(input.furniture, furniturePlaces);
    DocumentIds(head, if input.displayInstructions then Header else [], Nl6, input.files,
      Placements(input.randomPlacement, draws, 0, n), Imgs(input.furniture, furniturePlaces));
    assert GenerateTemplate(input, style, script, draws) == Document(head, CreateBody(input, draws));
    ElemsPaths(input.files);
  }

  /** Append mode: the new pairs go in right after the insertion offset, so
      deleting them gives back the existing document; the insert always ends in
      a line break and indentation, so the result is strictly longer even with
      no new files; and it reads back as exactly the new entries' paths. */
  lemma AppendSplice(input: TemplateInput, style: Block, script: Block, draws: nat -> Draw)
    requires input.append.Some?
    requires -1 <= input.append.value.appendToIndex < |input.append.value.existingFileContent|
    ensures var existing := input.append.value.existingFileContent;
      var k := input.append.value.appendToIndex;
      var r := GenerateTemplate(input, style, script, draws);
      var ins := NewContent(Nl6, input.files, Placements(input.randomPlacement, draws, 0, |input.files|));
      |r| > |existing| && r[..k + 1] + r[k + 1 + |ins|..] == existing && r[k + 1..k + 1 + |ins|] == ins
    ensures AllRecoverable(input.files) ==>
      Ids(NewContent(Nl6, input.files, Placements(input.randomPlacement, draws, 0, |input.files|))) == Paths(input.files)
  {
    var existing := input.append.value.existingFileContent;
    var k := input.append.value.appendToIndex;
    var ins := NewContent(Nl6, input.files, Placements(input.randomPlacement, draws, 0, |input.files|));
    assert GenerateTemplate(input, style, script, draws) == Splice(existing, k, ins);
    if AllRecoverable(input.files) {
      NewContentIds(Nl6, input.files, Placements(input.randomPlacement, draws, 0, |input.files|));
    }
  }

  /** The instructions header follows the body's opening tag exactly when
      `displayInstructions` is set; otherwise `main` follows it directly. */
  lemma InstructionsHeader(input: TemplateInput, draws: nat -> Draw)
    ensures input.displayInstructions ==> StartsWith(CreateBody(input, draws), BodyOpen + Render(Header) + MainOpen)
    ensures !input.displayInstructions ==> StartsWith(CreateBody(input, draws), BodyOpen + MainOpen)
  {
    var n := |input.files|;
    var header := if input.displayInstructions then Header else [];
    BodyOpens(header, Nl6, input.files, Placements(input.randomPlacement, draws, 0, n),
      Imgs(input.furniture, Placements(input.randomPlacement, draws, n, |input.furniture|)));
    if !input.displayInstructions {
      assert BodyOpen + Render(header) + MainOpen == BodyOpen + MainOpen;
    }
  }

  // ------------------------------------------------------------ output name

  /** The file name `websiteFilePath` chooses, without the extension: `index`,
      or a timestamped one when an index exists and may not be overwritten. */
  function OutputName(indexExists: bool, overwrite: bool, date: string, time: string): (name: string)
    ensures StartsWith(name, DefaultOutputFilename) && '/' !in name
    ensures name == DefaultOutputFilename <==> !indexExists || overwrite
    ensures name != DefaultOutputFilename ==> name == StampedName(date, time)
  {
    if indexExists && !overwrite then StampedName(date, time) else DefaultOutputFilename
  }

  /** `websiteFilePath`: `join` stands for Node's `path.join`; `indexExists` is
      whether `directory/index.html` exists, and `date` and `time` the locale strings. */
  function WebsiteFilePath(directory: string, options: Options, indexExists: bool, date: string, time: string,
                           join: (string, string) -> string): (p: string)
    ensures !indexExists || options.overwriteFile ==> p == join(directory, "index.html")
    ensures indexExists && !options.overwriteFile ==> p == join(directory, StampedName(date, time) + ".html")
  {
    assert DefaultOutputFilename + ".html" == "index.html";
    join(directory, OutputName(indexExists, options.overwriteFile, date, time) + ".html")
  }
}
