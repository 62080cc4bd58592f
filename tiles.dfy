/** The markup every version writes for one file: the button that opens a file
    viewer and the dialog that is the viewer. */
module Tiles {
  import opened Wrappers
  import opened JsText
  import opened NodePath
  import opened IdText
  import opened Scanner
  import opened Markup

  /** A listed path and its lexical split. */
  datatype FileData = FileData(path: string, parsed: ParsedPath)

  /** The `files.map(f => ({ path: f, parsed: parse(f) }))` step. */
  function ToFileData(paths: seq<string>): seq<FileData>
  {
    seq(|paths|, i requires 0 <= i < |paths| => FileData(paths[i], Parse(paths[i])))
  }

  function Paths(fs: seq<FileData>): seq<string>
  {
    seq(|fs|, i requires 0 <= i < |fs| => fs[i].path)
  }

  /** `isFolder`: an entry without an extension is taken to be a folder. */
  predicate IsFolder(f: FileData)
  {
    f.parsed.ext == ""
  }

  /** Folder detection is lexical: no dot after the first character of the last
      segment, or that segment is `..`. */
  lemma IsFolderMeans(p: string)
    ensures IsFolder(FileData(p, Parse(p))) <==>
      (BaseOf(p) == ".." || forall i :: 0 < i < |BaseOf(p)| ==> BaseOf(p)[i] != '.')
  {
  }

  /** `displayName`: the path, with a trailing `/` for a folder. */
  function DisplayName(f: FileData): (r: string)
    ensures |r| == |f.path| + (if IsFolder(f) then 1 else 0)
    ensures StartsWith(r, f.path)
    ensures IsFolder(f) ==> r[|r| - 1] == '/'
    ensures '"' !in f.path ==> '"' !in r
  {
    if IsFolder(f) then f.path + "/" else f.path
  }

  const MaxRandomHeight: nat := 1250
  const MaxRandomWidth: nat := 2500

  datatype Spot = Spot(top: nat, left: nat)

  /** One random position: `randomInt(0, MAX_RANDOM_HEIGHT)` then `randomInt(0, MAX_RANDOM_WIDTH)`. */
  type Draw = s: Spot | s.top <= MaxRandomHeight && s.left <= MaxRandomWidth witness Spot(0, 0)

  /** The value of the style attribute of a randomly placed tile. */
  function Position(s: Draw): (r: string)
    ensures '"' !in r && !EndsInIdEq(r)
    ensures StartsWith(r, "position: absolute; top: ")
  {
    var r := "position: absolute; top: " + NatToString(s.top) + "px; left: " + NatToString(s.left) + "px;";
    assert r[|r| - 1] == ';';
    r
  }

  const ButtonTag: Plain := "<button" + Nl8
  const ButtonMarkers: Plain := Nl8 + "data-fileviewer" + Nl8 + "data-draggable>" + Nl8
  const ButtonEnd: Plain := Nl6 + "</button>"

  /** `createButton` up to the `aria-controls` attribute. */
  const ButtonOpen: seq<Piece> :=
    [Text(ButtonTag), Attribute("class", "filename"), Text(Nl8), Attribute("aria-haspopup", "dialog"), Text(Nl8)]

  /** The style line of a randomly placed button. */
  function StyleLine(place: Option<Draw>): (ps: seq<Piece>)
    ensures place.None? ==> ps == []
    ensures place.Some? ==> OnlyField(ps, "style", Position(place.value))
    ensures NoField(ps, "aria-controls") && NoField(ps, "id") && AllSafe(ps)
  {
    match place
    case None => []
    case Some(s) =>
      var ps := [Text(Nl8), Field("style", Position(s))];
      assert ps[1] == Field("style", Position(s));
      ps
  }

  /** `createButton` after the style line: the markers and the display name. */
  function ButtonClose(f: FileData): (ps: seq<Piece>)
    ensures NoField(ps, "aria-controls") && NoField(ps, "id") && NoField(ps, "style")
    ensures '"' !in f.path ==> AllSafe(ps)
  {
    [Text(ButtonMarkers), Raw(DisplayName(f)), Text(ButtonEnd)]
  }

  /** `createButton` from the style line on. */
  function ButtonRest(f: FileData, place: Option<Draw>): seq<Piece>
  {
    StyleLine(place) + ButtonClose(f)
  }

  /** The part after `aria-controls` adds no `aria-controls` and no `id`, and
      holds the style exactly when the button is placed. */
  lemma ButtonRestFields(f: FileData, place: Option<Draw>)
    ensures NoField(ButtonRest(f, place), "aria-controls") && NoField(ButtonRest(f, place), "id")
    ensures place.Some? ==> OnlyField(ButtonRest(f, place), "style", Position(place.value))
    ensures place.None? ==> NoField(ButtonRest(f, place), "style")
    ensures '"' !in f.path ==> AllSafe(ButtonRest(f, place))
  {
    NoFieldAppend(StyleLine(place), ButtonClose(f), "aria-controls");
    NoFieldAppend(StyleLine(place), ButtonClose(f), "id");
    if place.Some? {
      OnlyFieldAppend(StyleLine(place), ButtonClose(f), "style", Position(place.value));
    } else {
      NoFieldAppend(StyleLine(place), ButtonClose(f), "style");
    }
    if '"' !in f.path {
      AllSafeAppend(StyleLine(place), ButtonClose(f));
    }
  }

  /** `createButton`'s pieces. */
  function ButtonPieces(f: FileData, place: Option<Draw>): seq<Piece>
  {
    ButtonOpen + ([Field("aria-controls", f.path)] + ButtonRest(f, place))
  }

  /** The fixed opening of a button has no input attributes at all. */
  lemma ButtonOpenFields(name: string)
    ensures NoField(ButtonOpen, name)
  {
    forall i | 0 <= i < |ButtonOpen| ensures !ButtonOpen[i].Field? {
    }
  }

  lemma ButtonControls(f: FileData, place: Option<Draw>)
    ensures OnlyField(ButtonPieces(f, place), "aria-controls", f.path)
  {
    var controls := [Field("aria-controls", f.path)];
    assert controls[0] == Field("aria-controls", f.path);
    var rest := ButtonRest(f, place);
    ButtonRestFields(f, place);
    OnlyFieldAppend(controls, rest, "aria-controls", f.path);
    ButtonOpenFields("aria-controls");
    OnlyFieldAppend(controls + rest, ButtonOpen, "aria-controls", f.path);
  }

  lemma ButtonNoId(f: FileData, place: Option<Draw>)
    ensures NoField(ButtonPieces(f, place), "id")
  {
    var controls := [Field("aria-controls", f.path)];
    var rest := ButtonRest(f, place);
    ButtonRestFields(f, place);
    NoFieldAppend(controls, rest, "id");
    ButtonOpenFields("id");
    NoFieldAppend(ButtonOpen, controls + rest, "id");
  }

  lemma ButtonStyle(f: FileData, place: Option<Draw>)
    ensures place.Some? ==> OnlyField(ButtonPieces(f, place), "style", Position(place.value))
    ensures place.None? ==> NoField(ButtonPieces(f, place), "style")
  {
    var controls := [Field("aria-controls", f.path)];
    var rest := ButtonRest(f, place);
    ButtonRestFields(f, place);
    ButtonOpenFields("style");
    if place.Some? {
      OnlyFieldAppend(rest, controls, "style", Position(place.value));
      OnlyFieldAppend(controls + rest, ButtonOpen, "style", Position(place.value));
    } else {
      NoFieldAppend(controls, rest, "style");
      NoFieldAppend(ButtonOpen, controls + rest, "style");
    }
  }

  /** A button's one `aria-controls` attribute is the path, it has a style
      attribute exactly when it is placed at random, and it has no `id`. */
  lemma ButtonAttributes(f: FileData, place: Option<Draw>)
    ensures OnlyField(ButtonPieces(f, place), "aria-controls", f.path)
    ensures place.Some? ==> OnlyField(ButtonPieces(f, place), "style", Position(place.value))
    ensures place.None? ==> NoField(ButtonPieces(f, place), "style")
    ensures NoField(ButtonPieces(f, place), "id")
  {
    ButtonControls(f, place);
    ButtonNoId(f, place);
    ButtonStyle(f, place);
  }

  lemma ButtonSafe(f: FileData, place: Option<Draw>)
    requires '"' !in f.path && !EndsInIdEq(f.path)
    ensures AllSafe(ButtonPieces(f, place))
  {
    var controls := [Field("aria-controls", f.path)];
    ButtonRestFields(f, place);
    AllSafeAppend(controls, ButtonRest(f, place));
    AllSafeAppend(ButtonOpen, controls + ButtonRest(f, place));
  }

  /** `createButton`. */
  function Button(f: FileData, place: Option<Draw>): (r: string)
    ensures StartsWith(r, ButtonTag)
  {
    var ps := ButtonPieces(f, place);
    assert Render(ps) == PieceText(ps[0]) + Render(ps[1..]);
    Render(ps)
  }

  const PreOpen: Plain := "<pre>"
  const PreClose: Plain := " folder</pre>"
  const ObjectTag: Plain := "<object "
  const ObjectEnd: Plain := "></object>"

  /** The viewer's content: a folder notice, or the file embedded as an object. */
  function ContentPieces(f: FileData): (ps: seq<Piece>)
    ensures IsFolder(f) ==> ps == [Text(PreOpen), Raw(DisplayName(f)), Text(PreClose)]
    ensures !IsFolder(f) ==> OnlyField(ps, "data", f.path)
    ensures NoField(ps, "id")
    ensures '"' !in f.path && !EndsInIdEq(f.path) ==> AllSafe(ps)
  {
    if IsFolder(f) then [Text(PreOpen), Raw(DisplayName(f)), Text(PreClose)]
    else
      var ps := [Text(ObjectTag), Attribute("class", "file"), Text(" "), Field("data", f.path), Text(" "),
        Attribute("draggable", "false"), Text(ObjectEnd)];
      assert ps[3] == Field("data", f.path);
      ps
  }

  const DialogMarker: Plain := " data-draggable>" + Nl8
  const FormTag: Plain := Nl8 + "<form "
  const CloseTag: Plain := "><button "
  const DialogEnd: Plain := ">close</button></form>" + Nl6 + "</dialog>"

  const DialogOpen: seq<Piece> := [Text(" "), Attribute("class", "fileviewer"), Text(DialogMarker)]
  const DialogClose: seq<Piece> :=
    [Text(FormTag), Attribute("method", "dialog"), Text(CloseTag), Attribute("class", "close-fileviewer"), Text(DialogEnd)]

  /** `createDialog` after its `id` attribute. */
  function DialogRest(f: FileData): (ps: seq<Piece>)
    ensures NoField(ps, "id")
  {
    assert NoField(DialogOpen, "id") && NoField(DialogClose, "id");
    NoFieldAppend(DialogOpen, ContentPieces(f), "id");
    NoFieldAppend(DialogOpen + ContentPieces(f), DialogClose, "id");
    DialogOpen + ContentPieces(f) + DialogClose
  }

  /** For a path that can stand in a quoted value, the rest of the dialog renders
      safely for the scanner. */
  lemma DialogRestSafe(f: FileData)
    requires '"' !in f.path && !EndsInIdEq(f.path)
    ensures AllSafe(DialogRest(f))
  {
    AllSafeAppend(DialogOpen, ContentPieces(f));
    AllSafeAppend(DialogOpen + ContentPieces(f), DialogClose);
  }

  /** `createDialog`'s opening: the tag and the `id` attribute. */
  function DialogHead(f: FileData): seq<Piece>
  {
    [Text("<")] + ([Text(DialogTag)] + [Field("id", f.path)])
  }

  /** `createDialog`'s pieces: the one `id` attribute is the path. */
  function DialogPieces(f: FileData): (ps: seq<Piece>)
    ensures OnlyField(ps, "id", f.path)
  {
    assert DialogHead(f)[2] == Field("id", f.path);
    OnlyFieldAppend(DialogHead(f), DialogRest(f), "id", f.path);
    DialogHead(f) + DialogRest(f)
  }

  lemma DialogHeadText(f: FileData)
    ensures Render(DialogHead(f)) == "<" + DialogIdAttr(f.path)
  {
    var id := [Field("id", f.path)];
    RenderCons(Field("id", f.path), []);
    assert id == [Field("id", f.path)] + [];
    RenderCons(Text(DialogTag), id);
    RenderCons(Text("<"), [Text(DialogTag)] + id);
  }

  /** `createDialog`: its text is the dialog opening the scanner reads, followed by
      markup free of `id="`. */
  function Dialog(f: FileData): (r: string)
    ensures r == "<" + DialogIdAttr(f.path) + Render(DialogRest(f))
  {
    RenderAppend(DialogHead(f), DialogRest(f));
    DialogHeadText(f);
    Render(DialogPieces(f))
  }

  /** A button and its dialog, as every version places them. */
  function Tile(f: FileData, place: Option<Draw>): string
  {
    Button(f, place) + Nl6 + Dialog(f)
  }

  /** The paths whose tiles the scanner reads back exactly: scannable, and not
      ending in `id=` (such a path followed by the closing quote of its
      `aria-controls` or `data` attribute would look like the start of an id). */
  predicate Recoverable(path: string)
  {
    Scannable(path) && !EndsInIdEq(path)
  }

  lemma ButtonIdFree(f: FileData, place: Option<Draw>)
    requires '"' !in f.path && !EndsInIdEq(f.path)
    ensures IdFree(Button(f, place))
  {
    ButtonSafe(f, place);
    RenderIdFree(ButtonPieces(f, place));
  }

  lemma DialogRestIdFree(f: FileData)
    requires '"' !in f.path && !EndsInIdEq(f.path)
    ensures IdFree(Render(DialogRest(f)))
  {
    DialogRestSafe(f);
    RenderIdFree(DialogRest(f));
  }

  /** Scanning a tile yields its own path and then whatever follows it. */
  lemma TileIds(f: FileData, place: Option<Draw>, rest: string)
    requires Recoverable(f.path)
    requires QuoteFreeStart(rest)
    ensures Ids(Tile(f, place) + rest) == [f.path] + Ids(rest)
  {
    var button := Button(f, place);
    var dRest := Render(DialogRest(f));
    var site := DialogIdAttr(f.path);
    ButtonIdFree(f, place);
    DialogRestIdFree(f);
    IdFreeText(button, Nl6 + "<");
    assert button + Nl6 + ("<" + site + dRest) + rest
        == (button + (Nl6 + "<")) + (site + (dRest + rest)) by {
      SeqAssoc(button + Nl6, "<" + site + dRest, rest);
      SeqAssoc("<" + site, dRest, rest);
      SeqAssoc("<", site, dRest + rest);
      SeqAssoc(button + Nl6, "<", site + (dRest + rest));
      SeqAssoc(button, Nl6, "<");
    }
    DialogIdAttrOpens(f.path, dRest + rest);
    IdsSkip(button + (Nl6 + "<"), site + (dRest + rest));
    IdsSite(f.path, dRest + rest);
    IdsSkip(dRest, rest);
  }

  /** The first ten characters of a tile are quote-free. */
  lemma TileStart(f: FileData, place: Option<Draw>, rest: string)
    ensures QuoteFreeStart(Tile(f, place) + rest)
  {
    var t := Tile(f, place) + rest;
    assert t[..|ButtonTag|] == ButtonTag;
  }
}
