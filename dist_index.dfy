/** The oldest, compiled version: the directory from `FOLDER`, a classifier that
    drops only `.DS_Store`, and a whole document with no append mode, written
    to `index.html` in that directory. */
module DistIndex {
  import opened Wrappers
  import opened JsText
  import opened NodePath
  import opened IdText
  import opened Scanner
  import opened Markup
  import opened Tiles
  import opened Buckets
  import opened Pages
  import opened Environment

  const CurrentDirectory: string := "."
  const FolderVar: string := "FOLDER"
  const FurnitureFolder: string := "furniture"
  const OutputFilename: string := "index.html"

  /** `getDirFromEnv`; `normalize` stands for Node's `path.normalize`. */
  function GetDirFromEnv(e: Env, normalize: string -> string): (d: string)
    ensures IsSet(e, FolderVar) ==> d == normalize(e[FolderVar])
    ensures !IsSet(e, FolderVar) ==> d == CurrentDirectory
  {
    var folderName := Lookup(e, FolderVar);
    if folderName.Some? && folderName.value != "" then normalize(folderName.value) else CurrentDirectory
  }

  /** The route of one iteration of `sortFiles`: only an entry named `.DS_Store`
      is dropped, furniture sits directly in `furniture`, and there is neither a
      theme bucket nor append mode. */
  function RouteOf(f: FileData): (r: Route)
    ensures r != ToTheme && r != Known
    ensures r == Ignored <==> f.parsed.name == ".DS_Store"
    ensures r == ToFurniture <==> f.parsed.name != ".DS_Store" && f.parsed.dir == FurnitureFolder
    ensures r == AsIndex <==>
      f.parsed.name != ".DS_Store" && f.parsed.dir != FurnitureFolder && f.path == OutputFilename
  {
    if f.parsed.name in {".DS_Store"} then Ignored
    else if f.parsed.dir == FurnitureFolder then ToFurniture
    else if f.path == OutputFilename then AsIndex
    else ToFiles
  }

  function Routes(fs: seq<FileData>): (rs: seq<Route>)
    ensures |rs| == |fs|
    ensures forall i :: 0 <= i < |fs| ==> rs[i] == RouteOf(fs[i])
  {
    seq(|fs|, i requires 0 <= i < |fs| => RouteOf(fs[i]))
  }

  datatype TemplateInput = TemplateInput(files: seq<FileData>, furniture: seq<FileData>, existingIndex: Option<FileData>)

  /** `sortFiles`: each bucket holds, in input order, exactly the entries routed
      to it, and `existingIndex` is the last `index.html` seen. */
  method SortFiles(files: seq<FileData>) returns (input: TemplateInput)
    ensures input.files == Pick(files, Routes(files), ToFiles)
    ensures input.furniture == Pick(files, Routes(files), ToFurniture)
    ensures input.existingIndex == LastPicked(files, Routes(files), AsIndex)
  {
    ghost var rs := Routes(files);
    var fs, furniture, existingIndex := [], [], None;
    for i := 0 to |files|
      invariant fs == Pick(files[..i], rs[..i], ToFiles)
      invariant furniture == Pick(files[..i], rs[..i], ToFurniture)
      invariant existingIndex == LastPicked(files[..i], rs[..i], AsIndex)
    {
      var file := files[i];
      LoopStep(files, rs, i);
      if file.parsed.name in {".DS_Store"} {
        assert rs[i] == Ignored;
        continue;
      }
      if file.parsed.dir == FurnitureFolder {
        assert rs[i] == ToFurniture;
        furniture := furniture + [file];
      } else if file.path == OutputFilename {
        assert rs[i] == AsIndex;
        existingIndex := Some(file);
      } else {
        assert rs[i] == ToFiles;
        fs := fs + [file];
      }
    }
    assert files[..|files|] == files && rs[..|files|] == rs;
    input := TemplateInput(fs, furniture, existingIndex);
  }

  /** An entry is in a bucket exactly when it is listed and routed there. */
  lemma BucketMembers(files: seq<FileData>, r: Route, f: FileData)
    ensures f in Pick(files, Routes(files), r) <==> f in files && RouteOf(f) == r
  {
    PickMembers(files, Routes(files), r, f);
  }

  /** Every entry reaches exactly one outcome, as often as it is listed, and the
      routes this version lacks stay empty. */
  lemma BucketsPartition(files: seq<FileData>)
    ensures Gather(files, Routes(files), [Ignored, Known, ToFurniture, ToTheme, AsIndex, ToFiles]) == multiset(files)
    ensures Pick(files, Routes(files), ToTheme) == [] && Pick(files, Routes(files), Known) == []
  {
    AllRoutesComplete();
    PickPartition(files, Routes(files), [Ignored, Known, ToFurniture, ToTheme, AsIndex, ToFiles]);
    PickNone(files, Routes(files), ToTheme);
    PickNone(files, Routes(files), Known);
  }

  /** What leads each button in the body: six spaces of indentation. */
  const PairLead: Plain := "      "

  /** The gap between an image's `src` and `draggable`: one space, never a style. */
  const ImgGap: Plain := " "

  function CreateBody(input: TemplateInput): string
  {
    Body([], PairLead, input.files, NoPlaces(|input.files|), GapImgs(input.furniture, ImgGap))
  }

  /** `generateTemplate`: always a whole document; `style` and `script` stand for
      `createStyle` and `createScript`. */
  function GenerateTemplate(input: TemplateInput, style: Block, script: Block): string
  {
    Document(Head(style, script, []), CreateBody(input))
  }

  /** The round trip: scanning the document gives back exactly the files bucket. */
  lemma RoundTrip(input: TemplateInput, style: Block, script: Block)
    requires AllRecoverable(input.files)
    requires forall i :: 0 <= i < |input.furniture| ==> Embeddable(input.furniture[i].path)
    ensures Ids(GenerateTemplate(input, style, script)) == Paths(input.files)
    ensures Elems(Ids(GenerateTemplate(input, style, script))) == set i | 0 <= i < |input.files| :: input.files[i].path
  {
    HeadIdFree(style, script, []);
    HeadOpens(style, script, []);
    var imgs := GapImgs(input.furniture, ImgGap);
    GapImgsIdFree(input.furniture, ImgGap);
    DocumentIds(Head(style, script, []), [], PairLead, input.files, NoPlaces(|input.files|), imgs);
    ElemsPaths(input.files);
  }

  /** The document is always written to `index.html`, whatever is there. */
  function OutputPath(directory: string): (p: string)
    ensures StartsWith(p, directory + "/") && EndsWith(p, OutputFilename)
    ensures |p| == |directory| + 1 + |OutputFilename|
  {
    var p := directory + "/" + OutputFilename;
    assert p[..|directory| + 1] == directory + "/";
    assert p[|p| - |OutputFilename|..] == OutputFilename;
    p
  }
}
