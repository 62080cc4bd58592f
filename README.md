# folder party generator: a Dafny model

folder party turns a folder into one HTML page. Each file in the folder gets a
button. The button opens a dialog that shows the file. Anything in a
`furniture` folder becomes a draggable image. The generator lists the folder
and splits each relative path the way Node's `path.parse` does. It reads its
options from environment variables. It sorts the paths into buckets and writes
the page. In append mode it does not write a new page: it reads the existing
one, finds the files that page already shows by their dialog ids, and splices
buttons for the new files into the old text.

The repository holds four generations of the generator. All four are modelled:

| generation | file | module |
|---|---|---|
| current | `generator/src/generate.ts` | `Generate` |
| earlier TypeScript | `generator/src/index.ts` | `EarlyTs`, `GeneratorIndex` |
| earlier TypeScript | `src/index.ts` | `EarlyTs`, `SrcIndex` |
| oldest, compiled | `dist/index.js` | `DistIndex` |

The two earlier TypeScript versions share their option decoding, classifier,
body and document frame. They differ in three places: which part of the path
the ignore check looks at, whether the head carries the commented-out
`theme.css` link, and when the output file name is timestamped. Their style
sheets differ too (`generator/src/index.ts` adds `:root` variables), but style
and script are `Block` parameters of the model. `EarlyTs` holds what the two
share and takes the ignore key and the head's note as parameters.

The shared modules are:

- `JsText`: the JavaScript string operations used.
- `NodePath`: the POSIX `path.parse`.
- `IdText` and `Scanner`: the dialog-id regular expression, written as a
  left-to-right matcher, and `getAppendIndex`.
- `Markup`: templates as lists of pieces, so one lemma shows that fixed
  template text holds no `id="`.
- `Tiles`: the button and dialog for one file.
- `Buckets`: what the classifying loop puts in each bucket.
- `Pages`: the document frame, head, body, furniture section and splice.
- `Naming`: the timestamped output name.
- `Environment`: the variable map.

Each classifying loop is a method with loop invariants. So is each
option-building sequence and the id-collecting loop. Each such method is
proved equal to a function of its inputs, and the properties are lemmas about
that function.

The round trip "scanning a generated page gives back its files" holds for
paths that are quote-free, at least two characters long, do not start with a
line terminator, and do not end in `id=`. The last condition is easy to miss.
Take a file path such as `a.txt dialog id=`. Its dialog shows
`<object class="file" data="a.txt dialog id=" draggable="false">`, and the
quote that closes `data` completes `dialog id="`. The pattern's `.` then takes
the space after that quote, and `[^"]+` takes `draggable=`. So the scan reads
back ` draggable=`, which is not a file (Scanner.SpuriousIdAfterValue). A
furniture image's `src` does the same. The button's `aria-controls` cannot: a
line break follows its closing quote, and `.` does not match a line break
(Scanner.NoIdAfterControls). A folder path such as `x dialog id=` does no
harm. Its dialog shows the path followed by `/`, so no quote completes `id="`.
The model still excludes such paths, so its condition is stronger than needed
for folders.

## Model

| member | source | states |
|---|---|---|
| JsText.IndexOf | generator/src/generate.ts:110-116 | `indexOf`: -1, or the first offset at which the pattern occurs; it occurs at no earlier offset |
| JsText.LastIndexOfChar | generator/src/generate.ts:201 | the last offset of a character, or -1 exactly when it is absent; it is absent after that offset |
| JsText.AsciiLower | generator/src/generate.ts:182-184 | `toLowerCase` keeps the length and lowers each character (ASCII letters only) |
| JsText.SplitFirst | generator/src/generate.ts:180-181 | `split(sep)[0]`: the longest prefix without the separator, followed in the input by the separator or the end |
| JsText.ReplaceChar | generator/src/generate.ts:225-226 | replacing every path separator keeps the length and changes exactly those positions |
| JsText.ReplaceSpaceRuns | generator/src/generate.ts:225-226 | replacing each `\s+` run leaves no whitespace, never lengthens the text, and leaves whitespace-free text unchanged |
| JsText.DropSpacesRun | generator/src/generate.ts:225-226 | the run that `\s+` matches is the whole whitespace run, up to the next character that is not whitespace |
| JsText.ReplacePlainPrefix | generator/src/generate.ts:225-226 | text without whitespace passes through the replacement unchanged |
| JsText.ReplaceRun | generator/src/generate.ts:225-226 | a whitespace run of any length between whitespace-free text and the rest becomes exactly one replacement character |
| JsText.NatToString | generator/src/generate.ts:754 | a pixel offset is written as at least one decimal digit, one digit exactly below ten |
| NodePath.BaseOf | generator/src/generate.ts:201 | the base is the slash-free end of the path, right after its last `/` |
| NodePath.DirOf | generator/src/generate.ts:201 | the directory is empty for a top-level path; otherwise path = dir + "/" + base |
| NodePath.ExtOf | generator/src/generate.ts:741-743 | the extension is a suffix of the base that starts at its last dot; it is empty exactly when the base is `..` or has no dot after its first character |
| NodePath.NameOf | generator/src/generate.ts:201 | name + ext == base |
| NodePath.Parse | generator/src/generate.ts:201 | `parse` returns the base, directory and extension above, with name + ext == base |
| NodePath.ExtAt | generator/src/generate.ts:201 | a base whose last dot is at k > 0 has the extension from k and the name before k |
| NodePath.ParseTopLevel | src/index.ts:133 | a top-level file with one dot parses to an empty directory, with the text before the dot as its name |
| Scanner.MatchHere | generator/src/generate.ts:25 | a match starts `dialog`, has `id="` where `\s?` puts it, and captures the text from just after that quote up to the first quote after a character that is not a line terminator, ending the match there; with no match, text that fits as far as that character has no later quote that could close the group |
| Scanner.Ids | generator/src/generate.ts:97 | no contract; `matchAll` with the pattern of line 25, match after match, in document order. Its properties are in Scanner.IdsShape, Scanner.ShortIdNeverFound, Scanner.IdsSkip, Scanner.IdsOfIdFree and Scanner.ParseFilesFromHtml |
| Scanner.ParseFilesFromHtml | generator/src/generate.ts:95-106 | the loop collects exactly the set of captured ids; the same code appears at `generator/src/index.ts:81-92` and `src/index.ts:70-81` |
| Scanner.IdsShape | generator/src/generate.ts:25 | every captured id has at least two characters, does not start with a line terminator, and has no quote after its first character |
| Scanner.ShortIdNeverFound | generator/src/generate.ts:25 | a path of fewer than two code points (an empty or one-code-point path) is never read back |
| Scanner.SpuriousIdAfterValue | generator/src/generate.ts:762 | a value ending in `dialog id=`, whose closing quote is followed by a character that is neither a quote nor a line terminator and then by a quote-free name and a quote, matches there and captures that character and name (` draggable=` for a file's `data`), not a path |
| Scanner.NoIdAfterControls | generator/src/generate.ts:753 | when a line terminator follows the quote that completes `dialog id="` (as after `aria-controls`), there is no match at that point |
| Scanner.IdsSkip | generator/src/generate.ts:25 | text without `id="` adds no ids in front of text that has no quote in its first ten characters |
| Scanner.IdsOfIdFree | generator/src/generate.ts:25 | text without `id="` yields no ids |
| Scanner.IdsSite | generator/src/generate.ts:763 | `dialog id="path"` is read back as exactly `path` when the path can be scanned |
| Scanner.GetAppendIndex | generator/src/generate.ts:108-123 | the three-way priority with the `> 0` tests; the result lies in [-1, length-1]; the same code appears at `generator/src/index.ts:94-109` and `src/index.ts:83-98` |
| Tiles.IsFolderMeans | generator/src/generate.ts:741-743 | an entry is a folder exactly when its base is `..` or has no dot after its first character |
| Tiles.IsFolder | generator/src/generate.ts:741-743 | no contract; its properties are in Tiles.IsFolderMeans and in the contracts of Tiles.DisplayName and Tiles.ContentPieces |
| Tiles.DisplayName | generator/src/generate.ts:745-747 | the path, with a `/` appended exactly for a folder; no quote added; the same code appears at `dist/index.js:281-286` |
| Tiles.Position | generator/src/generate.ts:754 | the random style is quote-free and starts `position: absolute; top: ` |
| Tiles.StyleLine | generator/src/generate.ts:753-754 | the style line is absent without placement; with placement it is the sole `style` attribute |
| Tiles.ButtonClose | generator/src/generate.ts:755-758 | the button's markers and display name add no `aria-controls`, `id` or `style` |
| Tiles.ButtonAttributes | generator/src/generate.ts:749-759 | `aria-controls` is the path verbatim; a `style` appears exactly when placed; there is no `id`; the no-placement case appears at `dist/index.js:287-296` |
| Tiles.ButtonSafe | generator/src/generate.ts:749-759 | for a quote-free path, every piece of the button is safe to scan |
| Tiles.Button | generator/src/generate.ts:749 | the button starts with its tag |
| Tiles.ContentPieces | generator/src/generate.ts:762 | a folder shows `<pre>` + display name + ` folder</pre>`; a file shows an `<object>` whose only `data` is the path; the same code appears at `dist/index.js:298` |
| Tiles.DialogRest | generator/src/generate.ts:763-766 | the dialog after its opening has no `id` |
| Tiles.DialogRestSafe | generator/src/generate.ts:763-766 | for a path that can stand in a quoted value, the dialog after its opening renders safely for the scanner |
| Tiles.DialogPieces | generator/src/generate.ts:763 | the dialog's only `id` is the path verbatim; the same code appears at `dist/index.js:299` |
| Tiles.DialogHeadText | generator/src/generate.ts:763 | the dialog opens with `<dialog id="path"` |
| Tiles.Dialog | generator/src/generate.ts:761-767 | the dialog is its opening followed by markup without `id="` |
| Tiles.ButtonIdFree | generator/src/generate.ts:749-759 | a button holds no `id="` |
| Tiles.DialogRestIdFree | generator/src/generate.ts:763-766 | the dialog after its opening holds no `id="` |
| Tiles.TileIds | generator/src/generate.ts:735-739 | one button/dialog pair reads back as exactly its path |
| Tiles.Tile | generator/src/generate.ts:735-739 | no contract; its properties are in Tiles.TileIds and Tiles.TileStart |
| Tiles.TileStart | generator/src/generate.ts:735-739 | a pair starts with ten quote-free characters |
| Buckets.Pick | generator/src/generate.ts:162-191 | a bucket is never longer than the input |
| Buckets.LastPicked | generator/src/generate.ts:186-187 | `existingIndex` is absent exactly when nothing is routed there, else it is the last entry routed there |
| Buckets.PickSnoc | generator/src/generate.ts:162-191 | one more iteration extends exactly the bucket of its route |
| Buckets.LoopStep | generator/src/generate.ts:162-191 | one iteration appends the entry to its own bucket and leaves the others, and the remembered index, unchanged |
| Buckets.PickAppend | generator/src/generate.ts:162-191 | buckets keep input order: the bucket of a concatenation is the concatenation of the buckets |
| Buckets.PickHas | generator/src/generate.ts:162-191 | an entry whose position is routed to a bucket is in that bucket |
| Buckets.PickFrom | generator/src/generate.ts:162-191 | every entry of a bucket comes from a position routed there |
| Buckets.PickMembers | generator/src/generate.ts:162-191 | an entry is in a bucket exactly when some position holding it is routed there |
| Buckets.PickNone | generator/src/index.ts:156-162 | a route that no entry takes has an empty bucket |
| Buckets.PickPartition | generator/src/generate.ts:162-191 | the buckets and the two ways of being dropped partition the input, with multiplicities |
| Buckets.BucketsWithinInput | generator/src/generate.ts:162-191 | the furniture, theme, index and files buckets together hold no more than the input |
| Pages.HeadTopIdFree | generator/src/generate.ts:293-296 | the meta tags and title hold no `id="` |
| Pages.HeadIdFree | generator/src/generate.ts:293-304 | the head holds no `id="` whatever the style and script, with or without the theme note |
| Pages.HeadOpens | generator/src/generate.ts:293-294 | the head opens with quote-free text |
| Pages.Head | generator/src/generate.ts:293-304 | no contract; its properties are in Pages.HeadTopIdFree, Pages.HeadIdFree and Pages.HeadOpens |
| Pages.ThemeNoteSafe | generator/src/generate.ts:301-302 | the commented-out theme link is safe to scan |
| Pages.Pairs | generator/src/generate.ts:729 | one pair per entry |
| Pages.PairsAt | generator/src/generate.ts:729 | the i-th pair is the lead followed by the i-th entry's button and dialog |
| Pages.PairIds | generator/src/generate.ts:735-739 | a pair and its lead read back as exactly its path, whatever follows |
| Pages.BreakIds | generator/src/generate.ts:729 | the `\n` joining pairs adds no id |
| Pages.PairsIds | generator/src/generate.ts:729 | the joined pairs read back as exactly the entries' paths, in order |
| Pages.Img | generator/src/generate.ts:772 | an image starts with `<img ` |
| Pages.ImgSource | generator/src/generate.ts:772 | an image's only `src` is the entry's path; its other attributes come from the middle part |
| Pages.ImgIdFree | generator/src/generate.ts:772 | an image holds no `id="` |
| Pages.JoinIdFree | generator/src/generate.ts:771-773 | the joined images hold no `id="` |
| Pages.FurnitureOpenIdFree | generator/src/generate.ts:770 | the furniture section's opening holds no `id="` |
| Pages.FurnitureSectionIdFree | generator/src/generate.ts:769-775 | the furniture section holds no `id="` |
| Pages.FurnitureSection | generator/src/generate.ts:769-775 | no contract; its properties are in Pages.FurnitureSectionIdFree, Pages.PostludeIdFree and Pages.PostludeOpens |
| Pages.Splice | generator/src/generate.ts:275-280 | the old text before k+1 and from k+1 is kept, the insert sits between, and deleting it gives back the old text |
| Pages.NewContent | generator/src/generate.ts:278 | the insert is at least as long as its closing line break and indentation |
| Pages.NewContentIds | generator/src/generate.ts:278 | the insert reads back as exactly the new entries' paths |
| Pages.BodyOpens | generator/src/generate.ts:720-729 | the body opens with `<body>`, then the header if any, then `<main>` |
| Pages.Body | generator/src/generate.ts:720-733 | no contract; its properties are in Pages.BodyOpens and Pages.DocumentIds |
| Pages.PreludeIdFree | generator/src/generate.ts:285-291 | everything before the first pair holds no `id="` |
| Pages.PostludeIdFree | generator/src/generate.ts:730-732 | everything after the last pair holds no `id="` |
| Pages.PostludeOpens | generator/src/generate.ts:730-732 | everything after the last pair opens with ten quote-free characters, so it cannot close an id the pairs left open |
| Pages.DocumentIds | generator/src/generate.ts:285-291 | a whole document reads back as exactly its entries' paths, in order |
| Pages.Document | generator/src/generate.ts:285-291 | no contract; its properties are in Pages.DocumentIds |
| Naming.Stamp | generator/src/generate.ts:225-226 | a stamped date or time has no `/` and no whitespace |
| Naming.StampedName | generator/src/generate.ts:225-227 | the timestamped name is `index_` + date + `_` + time, never `index`, and has no `/` |
| Generate.ParseBool | generator/src/generate.ts:781-794 | true exactly for `"1"` and `"true"`; false for `""`, `"0"`, `"false"` and every other string |
| Generate.Flag | generator/src/generate.ts:53-56 | a set flag is `parseBool` of its value; an unset or empty one keeps its default |
| Environment.Lookup | generator/src/generate.ts:48-68 | `e[name]` is a value exactly when the variable is in the environment, and then it is that variable's value |
| Generate.GetOptionsFromEnv | generator/src/generate.ts:40-74 | the field-by-field builder returns exactly the decoded options |
| Generate.DecodedOptions | generator/src/generate.ts:40-74 | no contract; its properties are in Generate.GetOptionsFromEnv, Generate.NothingSet, Generate.AppendFlag, Generate.OverwriteFlag, Generate.RandomFlag and Generate.InstructionsFlag |
| Generate.NothingSet | generator/src/generate.ts:41-47 | with nothing set: append false, directory `.`, instructions true, overwrite false, random false |
| Generate.AppendFlag | generator/src/generate.ts:58-61 | setting `APPEND` changes only the append flag, to `parseBool` of its value |
| Generate.OverwriteFlag | generator/src/generate.ts:53-56 | setting `OVERWRITE` changes only the overwrite flag, to `parseBool` of its value |
| Generate.RandomFlag | generator/src/generate.ts:63-66 | setting `RANDOM_POSITION` changes only random placement, to `parseBool` of its value |
| Generate.InstructionsFlag | generator/src/generate.ts:68-71 | setting `INSTRUCTIONS` changes only the instructions flag; an empty value keeps it true |
| Generate.FolderSetting | generator/src/generate.ts:48-51 | a non-empty `FOLDER` is normalised into the directory; an empty one keeps `.` |
| Generate.RouteOf | generator/src/generate.ts:162-191 | dropped exactly when the base is ignored; known exactly when not ignored and already shown; then furniture, theme, index or files by the lower-cased first directory segment and the path |
| Generate.Routes | generator/src/generate.ts:162-191 | one route per entry |
| Generate.AppendRead | generator/src/generate.ts:148-160 | there is an append state exactly when append is on and the read succeeds; it holds the text, the set of ids scanned from it and an insertion offset in [-1, length-1] |
| Generate.SortFilesIntoInput | generator/src/generate.ts:139-198 | the loop fills each bucket with exactly the entries routed to it, in order, keeps the last `index.html` and copies the flags |
| Generate.BucketMembers | generator/src/generate.ts:162-191 | an entry is in a bucket exactly when it is listed and routed there |
| Generate.BucketsPartition | generator/src/generate.ts:162-191 | every entry reaches exactly one outcome, as often as it is listed |
| Generate.BucketsExclude | generator/src/generate.ts:164-175 | no bucket holds an ignored base or, in append mode, a path already shown; the files bucket never holds `index.html` |
| Generate.FurnitureAnyDepth | generator/src/generate.ts:180-183 | anything under a top-level folder that lower-cases to `furniture` is furniture, at any depth |
| Generate.ThemeAnyDepth | generator/src/generate.ts:180-185 | anything under a top-level folder that lower-cases to `theme` is theme content, at any depth |
| Generate.ImgStyle | generator/src/generate.ts:772 | without placement the image has a single-space gap; with placement its only `style` is the position |
| Generate.ImgAttributes | generator/src/generate.ts:772 | an image's `src` is its path; a `style` appears exactly when it is placed |
| Generate.Imgs | generator/src/generate.ts:771-773 | one image per furniture entry, in order |
| Generate.Placements | generator/src/generate.ts:753-754 | positions are drawn, in order, for every element exactly when placement is random |
| Generate.HeaderSafe | generator/src/generate.ts:723-728 | the instructions header is safe to scan |
| Generate.ImgsIdFree | generator/src/generate.ts:769-775 | no furniture image holds `id="` |
| Generate.DocumentRoundTrip | generator/src/generate.ts:285-291 | scanning a whole document gives the files bucket, in order, and `parseFilesFromHtml` gives its set of paths |
| Generate.AppendSplice | generator/src/generate.ts:272-283 | deleting the insert gives back the old document, the result is strictly longer, and the insert reads back as the new entries |
| Generate.GenerateTemplate | generator/src/generate.ts:272-283 | no contract; its properties are in Generate.DocumentRoundTrip and Generate.AppendSplice |
| Generate.CreateHtmlDocument | generator/src/generate.ts:285-291 | no contract; its properties are in Generate.DocumentRoundTrip |
| Generate.InstructionsHeader | generator/src/generate.ts:720-728 | the header is in the body exactly when instructions are on |
| Generate.CreateBody | generator/src/generate.ts:720-733 | no contract; its properties are in Generate.InstructionsHeader and Generate.DocumentRoundTrip |
| Generate.OutputName | generator/src/generate.ts:217-228 | the name is `index` exactly when no index exists or overwrite is on, otherwise the timestamped name |
| Generate.WebsiteFilePath | generator/src/generate.ts:210-231 | `join(directory, "index.html")`, or the timestamped file when an index exists and overwrite is off |
| EarlyTs.NotZero | generator/src/index.ts:44-52 | a value counts as on exactly when it is not the string `"0"` |
| EarlyTs.GetOptionsFromEnv | generator/src/index.ts:32-60 | the field-by-field builder returns exactly the decoded options; the same code appears at `src/index.ts:32-60` |
| EarlyTs.DecodedOptions | generator/src/index.ts:32-60 | no contract; its properties are in EarlyTs.GetOptionsFromEnv, EarlyTs.NothingSet, EarlyTs.FlagsNotZero and EarlyTs.RandomSetsAppend; the same code appears at `src/index.ts:32-60` |
| EarlyTs.NothingSet | generator/src/index.ts:33-38 | with nothing set: directory `.`, all three flags false |
| EarlyTs.FlagsNotZero | generator/src/index.ts:44-52 | overwrite is on exactly when `OVERWRITE` is set and not `"0"`; without `RANDOM` the same holds for append |
| EarlyTs.RandomSetsAppend | generator/src/index.ts:54-57 | random placement is never on; with `RANDOM` set, append is on unless `APPEND` is exactly `"0"`; the same code appears at `src/index.ts:54-57` |
| EarlyTs.RouteOf | generator/src/index.ts:142-162 | dropped exactly when the key is ignored; known exactly when already shown; furniture exactly for `dir` `furniture`; index exactly for `index.html`; never theme |
| EarlyTs.Routes | generator/src/index.ts:142-162 | one route per entry |
| EarlyTs.AppendRead | generator/src/index.ts:127-139 | there is an append state exactly when append is on and the read succeeds; it holds the text, its ids and an offset in range |
| EarlyTs.SortFilesIntoInput | generator/src/index.ts:121-166 | the loop fills each bucket with exactly the entries routed to it, in order, and keeps the last `index.html`; the same loop appears at `src/index.ts:110-155`, with the name as its ignore key |
| EarlyTs.BucketMembers | generator/src/index.ts:142-162 | an entry is in a bucket exactly when it is listed and routed there |
| EarlyTs.BucketsPartition | generator/src/index.ts:142-162 | every entry reaches exactly one outcome, and there is no theme bucket |
| EarlyTs.BucketsExclude | generator/src/index.ts:148-154 | no bucket holds an ignored key or, in append mode, a path already shown |
| Pages.GapImgs | generator/src/index.ts:639-645 | one image per furniture entry, in order: the i-th is the i-th entry's image with the version's gap; the same list with a one-space gap appears at `dist/index.js:304-310` |
| Pages.GapImgPlain | generator/src/index.ts:642 | an image's only `src` is its path, and it has no style; likewise at `dist/index.js:307` |
| Pages.GapImgsIdFree | generator/src/index.ts:639-645 | images of paths that can be embedded hold no `id="` and each opens with `<img ` |
| EarlyTs.DocumentRoundTrip | generator/src/index.ts:233-239 | scanning a whole document gives the files bucket, in order, and its set of paths |
| EarlyTs.AppendSplice | generator/src/index.ts:220-231 | deleting the insert gives back the old document, the result is strictly longer, and the insert reads back as the new entries; the same code appears at `src/index.ts:208-219` |
| EarlyTs.GenerateTemplate | generator/src/index.ts:220-231 | no contract; its properties are in EarlyTs.DocumentRoundTrip and EarlyTs.AppendSplice; the same code appears at `src/index.ts:208-219` |
| EarlyTs.CreateHtmlDocument | generator/src/index.ts:233-239 | no contract; its properties are in EarlyTs.DocumentRoundTrip; the same code, with a head that takes no argument, appears at `src/index.ts:221-227` |
| EarlyTs.CreateBody | generator/src/index.ts:596-603 | no contract; its properties are in EarlyTs.DocumentRoundTrip; the same code appears at `src/index.ts:526-533` |
| GeneratorIndex.RoundTrip | generator/src/index.ts:220-252 | a whole document, theme note included, reads back as the files bucket |
| GeneratorIndex.Template | generator/src/index.ts:220-252 | no contract; its properties are in GeneratorIndex.RoundTrip and, through EarlyTs.GenerateTemplate, EarlyTs.AppendSplice |
| GeneratorIndex.Routing | generator/src/index.ts:18 | the base-name check drops `.DS_Store`, `furniture` and `index.js` at any depth; furniture sits directly in `furniture` |
| GeneratorIndex.OutputName | generator/src/index.ts:185-195 | `index` exactly when no index exists or overwrite is on, otherwise the timestamped name |
| GeneratorIndex.WebsiteFilePath | generator/src/index.ts:178-199 | directory + "/" + the name + ".html" |
| SrcIndex.RoundTrip | src/index.ts:208-237 | a whole document, without a theme note, reads back as the files bucket |
| SrcIndex.Template | src/index.ts:208-237 | no contract; its properties are in SrcIndex.RoundTrip and, through EarlyTs.GenerateTemplate, EarlyTs.AppendSplice |
| SrcIndex.NameCheck | src/index.ts:133 | a top-level file is dropped when the text before its dot is ignored, where the base check needs the whole base |
| SrcIndex.StemDot | src/index.ts:133 | a top-level path that starts with a stem ending in its one dot, and has no later dot, splits at that dot and has no `/` |
| SrcIndex.IndexKept | src/index.ts:133 | `index.<ext>` is not dropped, though the base check drops `index.js` |
| SrcIndex.FurnitureFileDropped | src/index.ts:133 | any top-level `furniture.<ext>` is dropped |
| SrcIndex.OutputName | src/index.ts:174-184 | `index` exactly when overwrite is on; otherwise the timestamped name, with no existence check |
| SrcIndex.WebsiteFilePath | src/index.ts:167-187 | directory + "/index.html" with overwrite on, otherwise the timestamped file |
| DistIndex.GetDirFromEnv | dist/index.js:12-18 | a non-empty `FOLDER` is normalised; otherwise the directory is `.` |
| DistIndex.RouteOf | dist/index.js:27-41 | dropped exactly when the name is `.DS_Store`; furniture exactly for `dir` `furniture`; index exactly for `index.html`; never theme or known |
| DistIndex.Routes | dist/index.js:27-41 | one route per entry |
| DistIndex.SortFiles | dist/index.js:22-43 | the loop fills each bucket with exactly the entries routed to it, in order, and keeps the last `index.html` |
| DistIndex.BucketMembers | dist/index.js:27-41 | an entry is in a bucket exactly when it is listed and routed there |
| DistIndex.BucketsPartition | dist/index.js:27-41 | every entry reaches exactly one outcome; there are no theme or known outcomes |
| DistIndex.RoundTrip | dist/index.js:66-75 | the document, always written whole, reads back as the files bucket, in order |
| DistIndex.GenerateTemplate | dist/index.js:66-75 | no contract; its properties are in DistIndex.RoundTrip |
| DistIndex.CreateBody | dist/index.js:270-280 | no contract; its properties are in DistIndex.RoundTrip |
| DistIndex.OutputPath | dist/index.js:57 | the output is always directory + "/index.html" |

## Left out

- Reading the directory, reading the old document, the existence check and writing the output are file-system I/O. The listing, the old text or its absence (`existing`), and `indexExists` are parameters.
- `main`, `template` and the console messages are left out. They are I/O and logging.
- `path.normalize` and `path.join` are library calls. They are function parameters.
- `toLocaleDateString` and `toLocaleTimeString` depend on the locale and the clock. Their strings are parameters. The path separator is taken to be `/`, as on POSIX.
- `randomInt` uses `Math.random` and float rounding. Its results come from a parameter `draws`. The model only needs that a position is quote-free text.
- The embedded style sheet and browser script are left out. They are browser behaviour. Each is a `Block` parameter: text with no `id="`, opening with ten quote-free characters.
- JsText.AsciiLower: lowers only ASCII letters, unlike the full Unicode `toLowerCase`.
- Scanner.ShortIdNeverFound: lengths, the two-character minimum and the regular expression's `.` are counted here in code points, not in the UTF-16 code units of JavaScript strings. A path of one astral character, such as U+1F600, is two code units, so the source's `.` and `[^"]+` each take one of them and the path is read back. The model counts it as unreadable. The same applies to `Scannable` and to every length in the model, because a `string` here is a sequence of code points.
- Generate.GenerateTemplate: requires the append offset to lie in [-1, length-1]. That always holds for what `sortFilesIntoInput` builds (Generate.AppendRead).
- Generate.DocumentRoundTrip: proved only for paths with no quote, at least two characters, no leading line terminator, and not ending in `id=`. Other paths may not read back.
- EarlyTs: random placement is not modelled. Neither earlier TypeScript version ever sets it, so their random style branches cannot run.
- SrcIndex.IndexKept: the claim that `index.html` goes on to become the existing index is stated only by EarlyTs.RouteOf. It is not restated for a literal path.

## Findings

| source | as written | input that shows it | evidently intended | confidence | as-written member | corrected member |
|---|---|---|---|---|---|---|
| generator/src/index.ts:54-57 | the `RANDOM` branch sets the append flag from `APPEND`, and never sets random placement | `RANDOM=1` with `APPEND` unset: append mode turns on, and images are not placed at random | `RANDOM` sets random placement only, as the current version does with `RANDOM_POSITION` | high; not executed | EarlyTs.RandomSetsAppend | Generate.RandomFlag |
