# docx-you-want: the `Docx` builder core

`docx-you-want` is meant to turn a set of SVG pages into a Word document. For
each page the builder appends a drawing paragraph to `doc_string`, the text
meant for `word/document.xml`. The paragraph shows a PNG rendering of the page
and layers the original SVG over it through Office's SVG extension. Both images
are declared as relationship entries in `rels_string`, the text meant for
`word/_rels/document.xml.rels`. `src/lib.rs` opens those two files
but does not yet write the strings into them.

This project models the in-memory core of that builder, the `Docx` struct of
`src/lib.rs`:

- the id counter `next_id`;
- the two strings the builder appends to, `doc_string` (the paragraphs) and
  `rels_string` (the relationship entries);
- the helpers it uses: `px_to_emu`, `get_filename`, `get_png_path`;
- the operations that change it: `Docx::new`, `next_id`, `add_to_doc`,
  `add_relationship`, and the in-memory part of `add_image_svg`.

Modules, one file each:

- `Wrappers`: `Option`, the library's `Error` enum, `Result<T>`, and `Outcome`
  for `Result<()>`.
- `Decimal`: the decimal text Rust's `Display` writes for integers, with its
  round trip and injectivity.
- `Units`: `px_to_emu` over exact reals. The `as i32` cast truncates toward
  zero and saturates at the bounds of `i32`; both are written out.
- `Paths`:
  - a path as a list of components;
  - `Path::file_name` and `Path::join`;
  - `str::replace`;
  - `get_filename` and `get_png_path`.
- `Xml`: an element tree standing for the `format_xml::xml!` output, with its
  rendering to text and path and attribute lookups.
- `Template`: the page paragraph and the `<Relationship>` entry, element by
  element, and what can be read off them. This covers the extents, `wp:docPr`,
  the two `r:embed` references and the entry's attributes.
- `Counts`: occurrence counts in a sequence, used to compare multisets.
- `Builder`:
  - the class `Docx`, whose real fields are the counter and the two strings;
  - ghost fields `blocks` and `rels`, the structured view of the strings;
  - the invariant `Valid()`, which ties the strings to that view and holds the
    pairing of ids;
  - the lemmas about the two streams;
  - the `test_add_svg` scenario.

The central invariant is `Builder.Paired`, kept by every operation through
`Docx.Valid()`:

- page `i` took ids `2i` (svg) and `2i + 1` (png);
- the manifest declares `rId0` .. `rId<next_id - 1>` in that order;
- `next_id` is twice the page count.

From it, `Builder.CrossStream`, `Builder.TextsAgree` and `Builder.CounterEven` derive four facts:

- the `r:embed` references in the paragraphs' element trees, which
  `doc_string` renders, and the ids of the relationships, which
  `rels_string` renders, are the same multiset;
- both are exactly `rId0` .. `rId<next_id - 1>`;
- no relationship id repeats;
- the counter is even.

## Model

| member | source | states |
|---|---|---|
| Units.TruncateTowardZero | src/lib.rs:47 | the `as` cast keeps the integer part: within one of the value, on its side of zero |
| Units.SaturateI32 | src/lib.rs:47 | the cast's result lies in the `i32` range, is the value itself inside it and the nearer bound outside it |
| Units.PxToEmu | src/lib.rs:44-48 | one pixel is 9525 EMU; a size whose exact EMU value lies inside the `i32` range converts to that value truncated toward zero (the floor for a non-negative size); a value at or above `i32::MAX` gives `i32::MAX`, one at or below `i32::MIN` gives `i32::MIN`; the result is an `i32`, non-negative for a non-negative size |
| Units.PxToEmuIsFloor | src/lib.rs:44-48 | a non-negative size whose EMU value fits converts to exactly the floor of `px * 9525` |
| Units.PxToEmuMonotone | src/lib.rs:44-48 | a larger pixel size never converts to fewer EMU |
| Units.TruncateMonotone | src/lib.rs:47 | truncation toward zero is monotone |
| Units.PxToEmuExamples | src/lib.rs:44-48 | 720 px is 6858000 EMU and 1018 px is 9696450 EMU |
| Decimal.DigitChar | src/lib.rs:142-143 | a digit below ten is written as the character that reads back as it |
| Decimal.DigitValue | src/lib.rs:142-143 | a digit character reads as a value below ten, written back as the same character |
| Decimal.NatToStringDigits | src/lib.rs:142-143 | the decimal text of a natural number is non-empty, all digits, with no leading zero unless it is "0" |
| Decimal.NatToStringRoundTrip | src/lib.rs:142-143 | reading back the decimal text of `n` gives `n` |
| Decimal.NatToStringInjective | src/lib.rs:142-143 | two numbers have the same decimal text exactly when they are equal |
| Decimal.NatToString | src/lib.rs:142-143 | the decimal digits of a natural number, most significant first (definition; its properties are `Decimal.NatToStringDigits`, `Decimal.NatToStringRoundTrip` and `Decimal.NatToStringInjective`) |
| Decimal.IntToString | src/lib.rs:158-160 | a signed integer's text starts with a minus sign exactly when it is negative; a negative number is the minus sign followed by the decimal text of its magnitude, any other number is its plain decimal text |
| Decimal.IntToStringInjective | src/lib.rs:158-160 | two integers have the same text exactly when they are equal |
| Paths.FileName | src/lib.rs:51 | `file_name` is present exactly when the last component is a normal name, and then it is that name |
| Paths.Join | src/lib.rs:78 | joining a name under a prefix gives a path whose file name is that name and whose parent is the prefix |
| Paths.GetFilename | src/lib.rs:50-52 | the unwrapped file name is the path's last normal component |
| Paths.ReplaceAll | src/lib.rs:76-77 | replacing by a pattern of the same length keeps the length, and introduces no character not in the input or the replacement; where each character goes is stated by `Paths.ReplaceSvgPointwise` |
| Paths.ReplaceAllWithoutMatch | src/lib.rs:76-77 | a name without `svg` is left unchanged |
| Paths.ReplaceSvgFirst | src/lib.rs:76-77 | the replaced name starts with `p` when the name starts with `svg`, and with its own first character otherwise, and is as long as the name |
| Paths.NoSvgAtSeam | src/lib.rs:76-77 | a character kept in front of a replaced rest does not form an `svg` with it |
| Paths.SvgOccurrencesDisjoint | src/lib.rs:76-77 | two occurrences of `svg` never overlap: a later one starts at least three characters after an earlier one |
| Paths.SvgReplacedAt | src/lib.rs:76-77 | reference definition, character by character: the matching letter of `png` where an occurrence of `svg` covers the position, the original character elsewhere |
| Paths.ReplaceSvgPointwise | src/lib.rs:76-77 | the replacement has the input's length and agrees with `SvgReplacedAt` at every position |
| Paths.ReplaceSvgInsideOccurrence | src/lib.rs:76-77 | inside an occurrence of `svg` at `k` the result reads `png`, letter for letter |
| Paths.ReplaceSvgOutsideOccurrences | src/lib.rs:76-77 | a character that no occurrence of `svg` covers stays where it was, unchanged |
| Paths.ReplaceSvgLeavesNone | src/lib.rs:76-77 | after the replacement no `svg` remains anywhere, including across a seam |
| Paths.ReplaceSvgKeepsName | src/lib.rs:76-78 | the replaced name is still a valid file name |
| Paths.ReplaceSvgChanges | src/lib.rs:76-77 | the replacement leaves the name unchanged exactly when it holds no `svg` |
| Paths.GetPngPath | src/lib.rs:75-78 | the png path has the prefix as its parent, and as its file name the svg's name with every `svg` replaced by `png`, so it holds no `svg` |
| Paths.PngNameOfTestPage | src/lib.rs:75-78 | the test page `2.svg` gets the PNG `2.png` |
| Xml.AttrText | src/lib.rs:207 | one attribute as written in a start tag: a space, the name, `=` and the value in double quotes (definition) |
| Xml.Render | src/lib.rs:146-199 | the markup of an element: the start tag with its attributes, then either `/>` or its children's markup and the end tag (definition; the entry's text is `Builder.RelEntryText`) |
| Xml.RenderAll | src/lib.rs:146 | the markup of sibling elements, one after another (definition; its append law is `Xml.RenderAllAppend`) |
| Xml.RenderAllAppend | src/lib.rs:146 | appending one more element to a sequence appends its markup to the text |
| Template.RId | src/lib.rs:142-143 | `format!("rId{}", id)`: `rId` followed by the decimal text of the id (definition; read back by `Template.RIdForm`) |
| Template.BlockXml | src/lib.rs:146-199 | the `<w:p>` drawing paragraph of one page, element by element with the source's tags, attributes and constants (definition; read back by the `Template` lemmas below) |
| Template.RelXml | src/lib.rs:207 | the `<Relationship>` entry with `Id`, the image `Type` and `Target` (definition; read back by `Template.RelFields` and `Builder.RelEntryText`) |
| Template.RIdForm | src/lib.rs:142-143 | a relationship id is `rId` followed by the decimal digits of the id, which read back as the id |
| Template.FirstRIds | src/lib.rs:142-143 | ids 0 and 1 give `rId0` and `rId1` |
| Template.RIdInjective | src/lib.rs:142-143 | two ids give the same relationship id exactly when they are equal |
| Template.InlineIsFound | src/lib.rs:146-157 | the paragraph's `w:r/w:drawing/wp:inline` is the inline drawing of the page |
| Template.PictureIsFound | src/lib.rs:157-166 | the inline drawing's `a:graphic/a:graphicData/pic:pic` is the page's picture |
| Template.BlockExtents | src/lib.rs:144-145 | `wp:extent` and the shape's `a:ext` carry the same `cx` and `cy`: the page's EMU width and height |
| Template.BlockDocPr | src/lib.rs:160 | `wp:docPr` has id and name both equal to the svg id |
| Template.BlockEmbeds | src/lib.rs:172-175 | `a:blip` embeds the png's relationship id and `asvg:svgBlip` embeds the svg's |
| Template.BlockReferences | src/lib.rs:146-199 | the only `r:embed` values in a page paragraph are the png id, then the svg id |
| Template.RelFields | src/lib.rs:204-208 | an entry carries its id, the fixed image relationship type and its target, and embeds nothing |
| Builder.DocTextAppend | src/lib.rs:146 | pushing one page block appends its paragraph's markup to `doc_string` |
| Builder.RelsTextAppend | src/lib.rs:206 | pushing one relationship appends its entry's markup to `rels_string` |
| Builder.EmbedsAreReferences | src/lib.rs:172-175 | the `r:embed` values read off the paragraphs are, page after page, each page's png id then its svg id |
| Builder.MediaTarget | src/lib.rs:205 | `format!("media/{}", filename)` (definition) |
| Builder.TestPageTargets | src/lib.rs:326-327 | the test page's two targets are `media/2.svg` and `media/2.png` |
| Builder.Paired | src/lib.rs:133-143 | the pairing invariant: page `i` took ids `2i` (svg) and `2i + 1` (png), the `j`-th relationship has id `rId<j>`, and the counter is twice the page count and the number of relationships |
| Builder.Docx.Valid | src/lib.rs:81-89 | the builder invariant: `doc_string` is the paragraphs of the pages so far, `rels_string` the entries of the relationships so far, the media directory is `word/media`, and `Paired` holds |
| Builder.DocPrIdsDistinct | src/lib.rs:160 | under the pairing invariant two different pages never carry the same `wp:docPr` id |
| Builder.PairedAppend | src/lib.rs:139-143 | a page that takes the next two ids, svg first, and declares them in that order keeps the pairing invariant and advances the counter by two |
| Builder.CounterEven | src/lib.rs:133-141 | under the invariant the counter is even, and half of it is the number of pages |
| Builder.DeclaredAreAllIds | src/lib.rs:139-209 | the manifest declares `rId0` .. `rId<next_id - 1>`, in that order |
| Builder.RelIdsDistinct | src/lib.rs:142-143 | no two relationships share an id |
| Builder.ReferencesMatch | src/lib.rs:172-175 | the ids the pages refer to are the declared ids, each as often as it is declared |
| Builder.DeclaredIdSet | src/lib.rs:139-209 | the set of declared ids is `{rId0 .. rId<next_id - 1>}` |
| Builder.ReferencedAreAllIds | src/lib.rs:139-209 | the set of referenced ids is `{rId0 .. rId<next_id - 1>}` |
| Builder.CrossStream | src/lib.rs:139-209 | references and declarations agree as multisets, the manifest is `rId0` .. `rId<next_id - 1>` in order, ids are distinct, and the referenced set is exactly that range |
| Builder.TextsAgree | src/lib.rs:139-209 | the `r:embed` values read off the paragraphs' element trees (which `doc_string` renders) and the ids of the `rels` records (which `rels_string` renders) are the same multiset, and those ids are distinct |
| Builder.Docx.constructor | src/lib.rs:98-107 | a new builder has counter 0, both strings empty, and its media directory under `word/media` |
| Builder.Docx.NextId | src/lib.rs:133-137 | returns the counter as it was and advances it by one |
| Builder.Docx.AddRelationship | src/lib.rs:204-209 | appends one entry with the given id and target `media/<filename>` to `rels_string`, and nothing else changes |
| Builder.Docx.AppendBlock | src/lib.rs:146-199 | appends one page paragraph to `doc_string` |
| Builder.Docx.AddToDoc | src/lib.rs:139-202 | takes ids `n` and `n + 1`, svg first; appends the paragraph with those ids and the EMU size; appends the svg entry, then the png entry; keeps the invariant; the strings only grow at their ends |
| Builder.Docx.AddImageSvg | src/lib.rs:123-131 | a parse failure is returned and nothing changes; a failed copy gives `IoError` and nothing changes; otherwise one page is added, the png named by replacing `svg` with `png` in the svg's file name |
| Builder.AddSvgScenario | src/lib.rs:265-329 | after `new()`, adding `tests/2.svg` succeeds, and then: counter 2, one page with ids 0 and 1 and extent 7560055 by 10692003, and entries `rId0` to `media/2.svg` and `rId1` to `media/2.png` |
| Builder.DocTextSingle | src/lib.rs:269-323 | a document of one page is exactly that page's paragraph |
| Builder.RelsTextPair | src/lib.rs:324-328 | a manifest of two entries is the first entry's markup, then the second's |
| Builder.RelEntryText | src/lib.rs:207 | the text of one entry: a self-closing `Relationship` with `Id`, `Type`, `Target` in that order |
| Builder.ManifestOfTwo | src/lib.rs:324-328 | the manifest after one page is the two entries' texts, back to back |

## Left out

- File system:
  - the temporary directory and `copy_base_files`;
  - `get_children` and the `doc`/`rels` file handles;
  - `add_images`, which does nothing with its argument;
  - deleting the directory on drop.
  The constructor takes the directory path as an input.
- SVG parsing and PNG rendering (`usvg`, `resvg`, `tiny_skia`, `svg_to_png`, `read_svg`, `save_png`) are foreign code.
  - `Builder.Docx.AddImageSvg` takes the parse outcome and the image size as inputs.
  - It takes whether `copy` succeeded as an input.
  - The source discards `save_png`'s result, so the model has no input for it.
- Units.PxToEmu: computes over exact reals, not `f64`, so rounding error in `px / 96.0 * 914400.0` is not modelled. In `f64` the quotient `px / 96.0` is rounded, and the truncating cast can then land one below the exact `px * 9525`. Among the integer sizes 1 to 4999 this happens for 302 values. The first is 13 px: `f64` arithmetic gives 123824 there, the model 123825. The sizes used in `Units.PxToEmuExamples` (720 and 1018) are exact in `f64` too.
- Builder.Docx.NextId: the counter is unbounded; the overflow of the `i32` field after 2^31 ids is not modelled.
- The panic of `Path::file_name().unwrap()` in `get_filename` and `get_png_path` is a precondition.
- Builder.Docx.AddImageSvg / Paths.GetPngPath: the `IoError` that `get_png_path` returns when `to_str()` fails (src/lib.rs:76) is not modelled. The program reaches it through `add_image_svg` (src/lib.rs:125) for a parseable SVG whose file name is not valid Unicode, which a Unix path may be. Names in the model are Unicode `string`s, so this case cannot arise in it.
- The `ok_or(IoError)` on the file name in `add_image_svg` (src/lib.rs:127) is not modelled: it cannot fail once `get_png_path` has unwrapped the same name.
- The XML is modelled as an element tree:
  - the whitespace and indentation of the macro output are not reproduced;
  - escaping of attribute values is not modelled; the interpolated ids and targets are written as they are;
  - the doubled braces `{{…}}` of the `a:ext` uri (src/lib.rs:174) are written as single braces, as a `format!`-style macro emits them.
- Builder.AddSvgScenario: states the expected page and entries structurally. The text of the two strings follows through `Valid()`, `Builder.DocTextSingle` and `Builder.ManifestOfTwo`, not as literal characters.
- The `From` conversions into `Error` are not modelled; the error kind is chosen directly.
- `src/main.rs` is not part of this model.
- The tests `test`, `test_dir`, `test_tmp_dir_drop` and `test_svg_to_png` check only files and foreign libraries.
