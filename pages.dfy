/** The parts of the generated document that every version shares: the document
    frame, the head, the list of button/dialog pairs, the furniture section and
    the append-mode splice, with the lemmas that carry the scanner round trip
    through them. */
module Pages {
  import opened Wrappers
  import opened JsText
  import opened IdText
  import opened Scanner
  import opened Markup
  import opened Tiles

  /** The text of the embedded style sheet or browser script. Its content is not
      part of this model; the round trip needs only that it holds no `id="` and
      opens with ten quote-free characters (it opens with a line break and a tag). */
  type Block = s: string | IdFree(s) && QuoteFreeStart(s) witness ""

  lemma PlainIdFree(s: Plain)
    ensures IdFree(s)
  {
    IdFreeText("", s);
    assert "" + s == s;
  }

  /** `<!DOCTYPE html>` and the `html` opening tag. */
  const DocType: Plain := "<!DOCTYPE html>\n<html "
  const DocOpen: seq<Piece> := [Text(DocType), Attribute("lang", "en"), Text(">\n")]
  const DocClose: Plain := "\n</html>"

  /** `createHtmlDocument`: the head and the body inside the `html` element. */
  function Document(head: string, body: string): string
  {
    Render(DocOpen) + head + "\n" + body + DocClose
  }

  const HeadMeta: Plain := "  <head>" + Nl4 + "<meta "
  const MetaNext: Plain := ">" + Nl4 + "<meta "
  const TitleOpen: Plain := ">" + Nl4 + "<title>"
  const TitleStart: Plain := "welcome to a place on my computer "
  const TitleEnd: Plain := "i've created just for you"
  const TitleClose: Plain := "</title>\n"

  const ContentType: Fixed := "text/html; charset=UTF-8"
  const Viewport: Fixed := "width=device-width, " + "initial-scale=1"

  /** The head up to the title, which every version writes alike. */
  const HeadTop: seq<Piece> :=
    [Text(HeadMeta), Attribute("http-equiv", "Content-Type"), Text(" "),
     Attribute("content", ContentType), Text(MetaNext), Attribute("name", "viewport"),
     Text(" "), Attribute("content", Viewport), Text(TitleOpen),
     Text(TitleStart), Text(TitleEnd), Text(TitleClose)]

  const NoteStart: Plain := "\n    <!-- Add custom styles "
  const NoteEnd: Plain := "from the folder party " + "theme generator here -->"
  const LinkOpen: Plain := Nl4 + "<!-- <link "
  const LinkClose: Plain := " /> -->\n"
  const HeadEnd: Plain := "  </head>"

  /** The commented-out theme link that the later versions put at the end of the head. */
  function ThemeNote(href: Fixed): seq<Piece>
  {
    [Text(NoteStart + NoteEnd), Text(LinkOpen), Attribute("href", href), Text(" "),
     Attribute("rel", "stylesheet"), Text(LinkClose)]
  }

  /** `createHead`: the fixed opening, the style sheet, the script, then `note`
      (the theme link, or nothing) and the closing tag. */
  function Head(style: Block, script: Block, note: seq<Piece>): string
  {
    Render(HeadTop) + style + "\n" + script + "\n" + Render(note + [Text(HeadEnd)])
  }

  /** A piece list that begins with at least three characters of fixed text. */
  predicate TextFirst(ps: seq<Piece>)
  {
    |ps| > 0 && ps[0].Text? && |ps[0].text| >= 3
  }

  lemma TextFirstStart(ps: seq<Piece>)
    requires TextFirst(ps)
    ensures forall i :: 0 <= i < |Render(ps)| && i < 3 ==> Render(ps)[i] != '"'
  {
    assert ps == [ps[0]] + ps[1..];
    RenderCons(ps[0], ps[1..]);
  }

  /** Safe pieces, when rendered after text free of `id="`, keep it free of `id="`. */
  lemma IdFreeThenRender(a: string, ps: seq<Piece>)
    requires IdFree(a) && AllSafe(ps) && TextFirst(ps)
    ensures IdFree(a + Render(ps))
  {
    RenderIdFree(ps);
    TextFirstStart(ps);
    IdFreeJoin(a, Render(ps));
  }

  lemma HeadTopIdFree()
    ensures IdFree(Render(HeadTop))
  {
    RenderIdFree(HeadTop);
  }

  /** The head contains no `id="`, whatever the style sheet and script (within
      `Block`) and whichever safe note it carries. */
  lemma HeadIdFree(style: Block, script: Block, note: seq<Piece>)
    requires AllSafe(note) && (note == [] || TextFirst(note))
    ensures IdFree(Head(style, script, note))
  {
    var top := Render(HeadTop);
    HeadTopIdFree();
    IdFreeJoin(top, style);
    IdFreeText(top + style, "\n");
    IdFreeJoin(top + style + "\n", script);
    IdFreeText(top + style + "\n" + script, "\n");
    var tail := note + [Text(HeadEnd)];
    AllSafeAppend(note, [Text(HeadEnd)]);
    assert tail[0] == (if note == [] then Text(HeadEnd) else note[0]);
    IdFreeThenRender(top + style + "\n" + script + "\n", tail);
  }

  /** No quote among the first three characters: what may follow text free of
      `id="` without completing one. */
  predicate QuoteFreeHead(t: string)
  {
    forall i :: 0 <= i < |t| && i < 3 ==> t[i] != '"'
  }

  lemma HeadOpens(style: Block, script: Block, note: seq<Piece>)
    ensures QuoteFreeHead(Head(style, script, note))
  {
    var h := Head(style, script, note);
    TextFirstStart(HeadTop);
    assert h[..3] == Render(HeadTop)[..3];
  }

  lemma ThemeNoteSafe(href: Fixed)
    ensures AllSafe(ThemeNote(href)) && TextFirst(ThemeNote(href))
  {
  }

  /** One `createButtonDialogPair` per entry: `lead`, then the tile. */
  function Pairs(lead: Plain, fs: seq<FileData>, places: seq<Option<Draw>>): (r: seq<string>)
    requires |places| == |fs|
    ensures |r| == |fs|
  {
    if |fs| == 0 then [] else [lead + Tile(fs[0], places[0])] + Pairs(lead, fs[1..], places[1..])
  }

  /** One pair per entry, in order. */
  lemma {:induction false} PairsAt(lead: Plain, fs: seq<FileData>, places: seq<Option<Draw>>, i: nat)
    requires |places| == |fs| && i < |fs|
    ensures Pairs(lead, fs, places)[i] == lead + Tile(fs[i], places[i])
  {
    var head := [lead + Tile(fs[0], places[0])];
    assert Pairs(lead, fs, places) == head + Pairs(lead, fs[1..], places[1..]);
    if i > 0 {
      PairsAt(lead, fs[1..], places[1..], i - 1);
      assert fs[1..][i - 1] == fs[i] && places[1..][i - 1] == places[i];
    }
  }

  /** Positions for `n` tiles none of which is placed at random. */
  function NoPlaces(n: nat): (ps: seq<Option<Draw>>)
    ensures |ps| == n && forall i :: 0 <= i < n ==> ps[i].None?
  {
    seq(n, i => None)
  }

  /** The pairs joined by line breaks, as `createBody` and the splice write them. */
  function PairsText(lead: Plain, fs: seq<FileData>, places: seq<Option<Draw>>): string
    requires |places| == |fs|
  {
    Join(Pairs(lead, fs, places), "\n")
  }

  /** A path that can stand inside a quoted attribute value without ending it or
      making that quote the opening of an `id="`. */
  predicate Embeddable(path: string)
  {
    '"' !in path && !EndsInIdEq(path)
  }

  /** Every path of the list can be read back from its tile. */
  predicate AllRecoverable(fs: seq<FileData>)
  {
    forall i :: 0 <= i < |fs| ==> Recoverable(fs[i].path)
  }

  lemma PathsCons(fs: seq<FileData>)
    requires |fs| > 0
    ensures Paths(fs) == [fs[0].path] + Paths(fs[1..])
  {
  }

  /** The joined pairs, one entry at a time. */
  lemma PairsTextCons(lead: Plain, fs: seq<FileData>, places: seq<Option<Draw>>)
    requires |places| == |fs| && |fs| > 0
    ensures |fs| == 1 ==> PairsText(lead, fs, places) == lead + Tile(fs[0], places[0])
    ensures |fs| > 1 ==>
      PairsText(lead, fs, places) == lead + Tile(fs[0], places[0]) + "\n" + PairsText(lead, fs[1..], places[1..])
  {
    var ps := Pairs(lead, fs, places);
    assert ps[1..] == Pairs(lead, fs[1..], places[1..]);
  }

  /** Scanning one pair and what follows it. */
  lemma PairIds(lead: Plain, f: FileData, place: Option<Draw>, after: string)
    requires Recoverable(f.path) && QuoteFreeStart(after)
    ensures Ids(lead + Tile(f, place) + after) == [f.path] + Ids(after)
    ensures QuoteFreeStart(lead + Tile(f, place) + after)
  {
    var tile := Tile(f, place);
    PlainIdFree(lead);
    TileIds(f, place, after);
    TileStart(f, place, after);
    IdsSkip(lead, tile + after);
    QuoteFreeStartAppend(lead, tile + after);
    assert lead + tile + after == lead + (tile + after);
  }

  /** A line break in front of quote-free-starting text changes nothing for the scanner. */
  lemma BreakIds(more: string)
    requires QuoteFreeStart(more)
    ensures Ids("\n" + more) == Ids(more)
    ensures QuoteFreeStart("\n" + more)
  {
    PlainIdFree("\n");
    IdsSkip("\n", more);
    QuoteFreeStartAppend("\n", more);
  }

  /** One step of `PairsIds`: the first pair in front of the rest. */
  lemma PairsIdsStep(lead: Plain, fs: seq<FileData>, places: seq<Option<Draw>>, rest: string)
    requires |places| == |fs| && |fs| > 1 && Recoverable(fs[0].path)
    requires Ids(PairsText(lead, fs[1..], places[1..]) + rest) == Paths(fs[1..]) + Ids(rest)
    requires QuoteFreeStart(PairsText(lead, fs[1..], places[1..]) + rest)
    ensures Ids(PairsText(lead, fs, places) + rest) == Paths(fs) + Ids(rest)
    ensures QuoteFreeStart(PairsText(lead, fs, places) + rest)
  {
    var tile, tail := Tile(fs[0], places[0]), PairsText(lead, fs[1..], places[1..]);
    var whole := PairsText(lead, fs, places) + rest;
    assert whole == lead + tile + ("\n" + (tail + rest)) by {
      PairsTextCons(lead, fs, places);
      SeqAssoc(lead + tile + "\n", tail, rest);
      SeqAssoc(lead + tile, "\n", tail + rest);
    }
    BreakIds(tail + rest);
    PairIds(lead, fs[0], places[0], "\n" + (tail + rest));
    calc {
      Ids(whole);
      [fs[0].path] + Ids("\n" + (tail + rest));
      [fs[0].path] + (Paths(fs[1..]) + Ids(rest));
      { SeqAssoc([fs[0].path], Paths(fs[1..]), Ids(rest)); }
      ([fs[0].path] + Paths(fs[1..])) + Ids(rest);
      { PathsCons(fs); }
      Paths(fs) + Ids(rest);
    }
  }

  /** `PairsIds` for no entries. */
  lemma PairsIdsNone(lead: Plain, fs: seq<FileData>, places: seq<Option<Draw>>, rest: string)
    requires |places| == |fs| == 0
    ensures Ids(PairsText(lead, fs, places) + rest) == Paths(fs) + Ids(rest)
    ensures QuoteFreeStart(PairsText(lead, fs, places) + rest) == QuoteFreeStart(rest)
  {
    assert PairsText(lead, fs, places) + rest == rest;
    assert Paths(fs) == [];
  }

  lemma AllRecoverableTail(fs: seq<FileData>)
    requires |fs| > 0 && AllRecoverable(fs)
    ensures AllRecoverable(fs[1..])
  {
    forall i | 0 <= i < |fs[1..]| ensures Recoverable(fs[1..][i].path) {
      assert fs[1..][i] == fs[i + 1];
    }
  }

  /** `PairsIds` for a single entry. */
  lemma PairsIdsOne(lead: Plain, fs: seq<FileData>, places: seq<Option<Draw>>, rest: string)
    requires |places| == |fs| == 1 && Recoverable(fs[0].path) && QuoteFreeStart(rest)
    ensures Ids(PairsText(lead, fs, places) + rest) == Paths(fs) + Ids(rest)
    ensures QuoteFreeStart(PairsText(lead, fs, places) + rest)
  {
    PairsTextCons(lead, fs, places);
    assert Paths(fs) == [fs[0].path];
    PairIds(lead, fs[0], places[0], rest);
  }

  /** Scanning the joined pairs yields the entries' paths in order, then whatever
      follows; and the joined pairs keep the text behind them quote-free at its start. */
  lemma {:induction false} PairsIds(lead: Plain, fs: seq<FileData>, places: seq<Option<Draw>>, rest: string)
    requires |places| == |fs| && AllRecoverable(fs) && QuoteFreeStart(rest)
    ensures Ids(PairsText(lead, fs, places) + rest) == Paths(fs) + Ids(rest)
    ensures QuoteFreeStart(PairsText(lead, fs, places) + rest)
    decreases |fs|
  {
    if |fs| == 0 {
      PairsIdsNone(lead, fs, places, rest);
    } else if |fs| == 1 {
      PairsIdsOne(lead, fs, places, rest);
    } else {
      AllRecoverableTail(fs);
      PairsIds(lead, fs[1..], places[1..], rest);
      PairsIdsStep(lead, fs, places, rest);
    }
  }

  const ImgTag: Plain := "<img "

  const ImgClose: Plain := " data-draggable />"

  /** One image of `createFurniture`: its source, then what the version puts
      between the source and `draggable` (a gap, or a gap around a style). */
  function ImgPieces(f: FileData, middle: seq<Piece>): seq<Piece>
  {
    [Text(ImgTag), Field("src", f.path)] + middle + [Attribute("draggable", "false"), Text(ImgClose)]
  }

  function Img(f: FileData, middle: seq<Piece>): (r: string)
    ensures StartsWith(r, ImgTag)
  {
    var ps := ImgPieces(f, middle);
    assert Render(ps) == PieceText(ps[0]) + Render(ps[1..]);
    Render(ps)
  }

  /** An image's one `src` is the entry's path, and any other input attribute
      it has comes from the middle part. */
  lemma ImgSource(f: FileData, middle: seq<Piece>, name: string, value: string)
    requires NoField(middle, "src") && name != "src"
    ensures OnlyField(ImgPieces(f, middle), "src", f.path)
    ensures OnlyField(middle, name, value) ==> OnlyField(ImgPieces(f, middle), name, value)
    ensures NoField(middle, name) ==> NoField(ImgPieces(f, middle), name)
  {
    var head := [Text(ImgTag), Field("src", f.path)];
    var tail := [Attribute("draggable", "false"), Text(ImgClose)];
    assert head[1] == Field("src", f.path);
    NoFieldAppend(middle, tail, "src");
    OnlyFieldAppend(head, middle + tail, "src", f.path);
    assert head + (middle + tail) == ImgPieces(f, middle);
    if OnlyField(middle, name, value) {
      OnlyFieldAppend(middle, tail, name, value);
      OnlyFieldAppend(middle + tail, head, name, value);
    }
    if NoField(middle, name) {
      NoFieldAppend(middle, tail, name);
      NoFieldAppend(head, middle + tail, name);
    }
  }

  /** An image of furniture whose path fits in an attribute holds no `id="`. */
  lemma ImgIdFree(f: FileData, middle: seq<Piece>)
    requires Embeddable(f.path) && AllSafe(middle)
    ensures IdFree(Img(f, middle))
  {
    var head := [Text(ImgTag), Field("src", f.path)];
    var tail := [Attribute("draggable", "false"), Text(ImgClose)];
    AllSafeAppend(head, middle);
    AllSafeAppend(head + middle, tail);
    RenderIdFree(ImgPieces(f, middle));
  }

  /** `createFurniture` in the versions that never place an image at random:
      one image per entry, in order, each with the same plain gap between its
      `src` and `draggable`. */
  function GapImgs(fs: seq<FileData>, gap: Plain): (r: seq<string>)
    ensures |r| == |fs|
    ensures forall i :: 0 <= i < |fs| ==> r[i] == Img(fs[i], [Text(gap)])
  {
    seq(|fs|, i requires 0 <= i < |fs| => Img(fs[i], [Text(gap)]))
  }

  /** Such an image's only input attribute is its `src`, the entry's path; it has no style. */
  lemma GapImgPlain(f: FileData, gap: Plain)
    ensures OnlyField(ImgPieces(f, [Text(gap)]), "src", f.path)
    ensures NoField(ImgPieces(f, [Text(gap)]), "style")
  {
    ImgSource(f, [Text(gap)], "style", "");
  }

  /** Such images of embeddable paths hold no `id="`, and each opens with `<img `. */
  lemma GapImgsIdFree(fs: seq<FileData>, gap: Plain)
    requires forall i :: 0 <= i < |fs| ==> Embeddable(fs[i].path)
    ensures forall i :: 0 <= i < |fs| ==> IdFree(GapImgs(fs, gap)[i]) && StartsWith(GapImgs(fs, gap)[i], ImgTag)
  {
    forall i | 0 <= i < |fs| ensures IdFree(GapImgs(fs, gap)[i]) && StartsWith(GapImgs(fs, gap)[i], ImgTag) {
      ImgIdFree(fs[i], [Text(gap)]);
    }
  }

  /** Joined pieces of markup free of `id="` that each open with `<img ` are free of `id="`. */
  lemma {:induction false} JoinIdFree(xs: seq<string>, sep: Plain)
    requires forall i :: 0 <= i < |xs| ==> IdFree(xs[i]) && StartsWith(xs[i], ImgTag)
    ensures IdFree(Join(xs, sep))
    ensures |xs| > 0 ==> StartsWith(Join(xs, sep), ImgTag)
  {
    if |xs| == 1 {
    } else if |xs| > 1 {
      JoinIdFree(xs[1..], sep);
      var more := Join(xs[1..], sep);
      IdFreeText(xs[0], sep);
      assert more[..|ImgTag|] == ImgTag;
      IdFreeJoin(xs[0] + sep, more);
      assert Join(xs, sep) == xs[0] + sep + more;
      assert Join(xs, sep)[..|ImgTag|] == xs[0][..|ImgTag|];
    }
  }

  const SectionTag: Plain := "<section "
  const SectionClose: Plain := Nl6 + "</section>"

  /** `createFurniture`: the images joined inside the furniture section, which
      opens with the marker `getAppendIndex` looks for. */
  function FurnitureSection(imgs: seq<string>): string
  {
    FurnitureOpen + Nl8 + Join(imgs, Nl8) + SectionClose
  }

  lemma FurnitureOpenIdFree()
    ensures IdFree(FurnitureOpen + Nl8)
  {
    PlainIdFree(SectionTag);
    IdFreeAttr(SectionTag, "aria-label", "furniture");
    IdFreeText(SectionTag + Attr("aria-label", "furniture"), ">");
    IdFreeText(FurnitureOpen, Nl8);
  }

  lemma FurnitureSectionIdFree(imgs: seq<string>)
    requires forall i :: 0 <= i < |imgs| ==> IdFree(imgs[i]) && StartsWith(imgs[i], ImgTag)
    ensures IdFree(FurnitureSection(imgs))
  {
    var open := FurnitureOpen + Nl8;
    FurnitureOpenIdFree();
    JoinIdFree(imgs, Nl8);
    var j := Join(imgs, Nl8);
    if |imgs| > 0 {
      assert j[..|ImgTag|] == ImgTag;
    }
    IdFreeJoin(open, j);
    IdFreeText(open + j, SectionClose);
  }

  /** The splice of append mode: `insert` goes in after offset `k` of the old
      text, so deleting it gives back the old text and the old text around it
      is untouched. */
  function Splice(existing: string, k: int, insert: string): (r: string)
    requires -1 <= k < |existing|
    ensures |r| == |existing| + |insert|
    ensures r[..k + 1] == existing[..k + 1]
    ensures r[k + 1..k + 1 + |insert|] == insert
    ensures r[k + 1 + |insert|..] == existing[k + 1..]
    ensures r[..k + 1] + r[k + 1 + |insert|..] == existing
  {
    var r := existing[..k + 1] + insert + existing[k + 1..];
    assert r[..k + 1] == existing[..k + 1];
    assert r[k + 1 + |insert|..] == existing[k + 1..];
    r
  }

  /** What append mode inserts: the new pairs, then a line break and indentation. */
  function NewContent(lead: Plain, fs: seq<FileData>, places: seq<Option<Draw>>): (r: string)
    requires |places| == |fs|
    ensures |r| >= |Nl6|
  {
    PairsText(lead, fs, places) + Nl6
  }

  /** The inserted text reads back as exactly the new entries' paths, in order. */
  lemma NewContentIds(lead: Plain, fs: seq<FileData>, places: seq<Option<Draw>>)
    requires |places| == |fs| && AllRecoverable(fs)
    ensures Ids(NewContent(lead, fs, places)) == Paths(fs)
  {
    PairsIds(lead, fs, places, Nl6);
    PlainIdFree(Nl6);
    IdsOfIdFree(Nl6);
  }

  const BodyOpen: Plain := "\n  <body>"
  const MainOpen: Plain := Nl4 + "<main>"
  const MainClose: Plain := Nl4 + "</main>\n  </body>"

  /** `createBody`: an optional header, then inside `main` the joined pairs and
      the furniture section. */
  function Body(header: seq<Piece>, lead: Plain, fs: seq<FileData>, places: seq<Option<Draw>>, imgs: seq<string>): string
    requires |places| == |fs|
  {
    BodyOpen + Render(header) + MainOpen + PairsText(lead, fs, places) + Nl6 + FurnitureSection(imgs) + MainClose
  }

  lemma PrefixRegroup(bo: string, h: string, mo: string, p: string, n6: string, f: string, mc: string)
    ensures bo + h + mo + p + n6 + f + mc == (bo + h + mo) + (p + n6 + f + mc)
  {
  }

  /** The body opens with its tag, then the header (nothing when it is empty),
      then `main`. */
  lemma BodyOpens(header: seq<Piece>, lead: Plain, fs: seq<FileData>, places: seq<Option<Draw>>, imgs: seq<string>)
    requires |places| == |fs|
    ensures StartsWith(Body(header, lead, fs, places, imgs), BodyOpen + Render(header) + MainOpen)
  {
    var front := BodyOpen + Render(header) + MainOpen;
    PrefixRegroup(BodyOpen, Render(header), MainOpen, PairsText(lead, fs, places), Nl6, FurnitureSection(imgs), MainClose);
    var back := PairsText(lead, fs, places) + Nl6 + FurnitureSection(imgs) + MainClose;
    assert (front + back)[..|front|] == front;
  }

  /** The set of paths of a sequence of entries. */
  lemma ElemsPaths(fs: seq<FileData>)
    ensures Elems(Paths(fs)) == set i | 0 <= i < |fs| :: fs[i].path
  {
    var ids := Paths(fs);
    forall x ensures x in Elems(ids) <==> exists i :: 0 <= i < |fs| && fs[i].path == x {
      if x in ids {
        var i :| 0 <= i < |ids| && ids[i] == x;
        assert fs[i].path == x;
      }
      if exists i :: 0 <= i < |fs| && fs[i].path == x {
        var i :| 0 <= i < |fs| && fs[i].path == x;
        assert ids[i] == x;
      }
    }
  }

  lemma DocRegroup(r: string, head: string, bo: string, h: string, mo: string, p: string, n6: string,
                   f: string, mc: string, dc: string)
    ensures r + head + "\n" + (bo + h + mo + p + n6 + f + mc) + dc
      == (r + head + "\n" + bo + h + mo) + (p + (n6 + f + mc + dc))
  {
  }

  /** The markup in front of the pairs holds no `id="`. */
  lemma PreludeIdFree(head: string, header: seq<Piece>)
    requires IdFree(head) && QuoteFreeHead(head)
    requires AllSafe(header) && (header == [] || TextFirst(header))
    ensures IdFree(Render(DocOpen) + head + "\n" + BodyOpen + Render(header) + MainOpen)
  {
    var a := Render(DocOpen);
    RenderIdFree(DocOpen);
    IdFreeJoin(a, head);
    IdFreeText(a + head, "\n");
    IdFreeText(a + head + "\n", BodyOpen);
    var b := a + head + "\n" + BodyOpen;
    if header == [] {
      assert b + Render(header) == b;
    } else {
      IdFreeThenRender(b, header);
    }
    IdFreeText(b + Render(header), MainOpen);
  }

  /** The markup behind the pairs holds no `id="`. */
  lemma PostludeIdFree(imgs: seq<string>)
    requires forall i :: 0 <= i < |imgs| ==> IdFree(imgs[i]) && StartsWith(imgs[i], ImgTag)
    ensures IdFree(Nl6 + FurnitureSection(imgs) + MainClose + DocClose)
  {
    var f := FurnitureSection(imgs);
    FurnitureSectionIdFree(imgs);
    PlainIdFree(Nl6);
    IdFreeJoin(Nl6, f);
    IdFreeText(Nl6 + f, MainClose);
    IdFreeText(Nl6 + f + MainClose, DocClose);
  }

  /** The markup behind the pairs opens quote-free. */
  lemma PostludeOpens(imgs: seq<string>)
    ensures QuoteFreeStart(Nl6 + FurnitureSection(imgs) + MainClose + DocClose)
  {
    var t := Nl6 + FurnitureSection(imgs) + MainClose + DocClose;
    assert t[..|Nl6 + SectionTag|] == Nl6 + SectionTag;
  }

  /** The scanner round trip over a whole document: whatever the style sheet and
      script, the dialog ids read back are exactly the entries' paths, in order. */
  lemma DocumentIds(head: string, header: seq<Piece>, lead: Plain, fs: seq<FileData>,
                    places: seq<Option<Draw>>, imgs: seq<string>)
    requires IdFree(head) && QuoteFreeHead(head)
    requires AllSafe(header) && (header == [] || TextFirst(header))
    requires |places| == |fs| && AllRecoverable(fs)
    requires forall i :: 0 <= i < |imgs| ==> IdFree(imgs[i]) && StartsWith(imgs[i], ImgTag)
    ensures Ids(Document(head, Body(header, lead, fs, places, imgs))) == Paths(fs)
  {
    var pre := Render(DocOpen) + head + "\n" + BodyOpen + Render(header) + MainOpen;
    var pairs := PairsText(lead, fs, places);
    var post := Nl6 + FurnitureSection(imgs) + MainClose + DocClose;
    DocRegroup(Render(DocOpen), head, BodyOpen, Render(header), MainOpen, pairs, Nl6,
      FurnitureSection(imgs), MainClose, DocClose);
    assert Document(head, Body(header, lead, fs, places, imgs)) == pre + (pairs + post);
    PreludeIdFree(head, header);
    PostludeIdFree(imgs);
    PostludeOpens(imgs);
    PairsIds(lead, fs, places, post);
    IdsSkip(pre, pairs + post);
    IdsOfIdFree(post);
    assert Paths(fs) + [] == Paths(fs);
  }
}
