/**
 * The in-memory state of `Docx` (src/lib.rs): the id counter and the two
 * strings it appends to, the main-document fragment and the relationship
 * manifest, with the invariant that ties the references of the one to the
 * declarations of the other.
 */
module Builder {
  import opened Wrappers
  import opened Units
  import opened Paths
  import opened Xml
  import opened Template
  import opened Counts

  /** `usvg::Size`: an image's intrinsic size in pixels. */
  datatype Size = Size(width: real, height: real)

  /** The paragraph of each page block, in order. */
  function Paragraphs(blocks: seq<PageBlock>): seq<Element> {
    seq(|blocks|, i requires 0 <= i < |blocks| => BlockXml(blocks[i]))
  }
  /** `doc_string` once the given pages are appended, in order. */
  function DocText(blocks: seq<PageBlock>): string { RenderAll(Paragraphs(blocks)) }

  /** The entry of each relationship, in order. */
  function Entries(rels: seq<Relationship>): seq<Element> {
    seq(|rels|, i requires 0 <= i < |rels| => RelXml(rels[i]))
  }
  /** `rels_string` once the given relationships are appended, in order. */
  function RelsText(rels: seq<Relationship>): string { RenderAll(Entries(rels)) }

  lemma DocTextAppend(blocks: seq<PageBlock>, b: PageBlock)
    ensures DocText(blocks + [b]) == DocText(blocks) + Render(BlockXml(b))
  {
    assert Paragraphs(blocks + [b]) == Paragraphs(blocks) + [BlockXml(b)];
    RenderAllAppend(Paragraphs(blocks), BlockXml(b));
  }

  lemma RelsTextAppend(rels: seq<Relationship>, r: Relationship)
    ensures RelsText(rels + [r]) == RelsText(rels) + Render(RelXml(r))
  {
    assert Entries(rels + [r]) == Entries(rels) + [RelXml(r)];
    RenderAllAppend(Entries(rels), RelXml(r));
  }

  /** The ids one page block refers to: the raster fill's, then the SVG extension's. */
  function BlockRefs(b: PageBlock): seq<Value> {
    [Text(RId(b.pngId)), Text(RId(b.svgId))]
  }

  /** The ids the first `n` blocks refer to, block after block. */
  function References(blocks: seq<PageBlock>, n: nat := |blocks|): seq<Value>
    requires n <= |blocks|
    decreases n
  {
    if n == 0 then [] else References(blocks, n - 1) + BlockRefs(blocks[n - 1])
  }

  /** Every `r:embed` attribute in the XML of the first `n` blocks, in document order. */
  function EmbedsInText(blocks: seq<PageBlock>, n: nat := |blocks|): seq<Value>
    requires n <= |blocks|
    decreases n
  {
    if n == 0 then [] else EmbedsInText(blocks, n - 1) + Values(BlockXml(blocks[n - 1]), "r:embed")
  }

  /** The references are read off the XML: no other `r:embed` occurs in a block. */
  lemma {:induction false} EmbedsAreReferences(blocks: seq<PageBlock>, n: nat)
    requires n <= |blocks|
    ensures EmbedsInText(blocks, n) == References(blocks, n)
    decreases n
  {
    if n > 0 {
      EmbedsAreReferences(blocks, n - 1);
      BlockReferences(blocks[n - 1]);
    }
  }

  /** The `Id` attribute of the first `n` relationships, in manifest order. */
  function Declared(rels: seq<Relationship>, n: nat := |rels|): seq<Value>
    requires n <= |rels|
    decreases n
  {
    if n == 0 then [] else Declared(rels, n - 1) + [Text(rels[n - 1].id)]
  }

  /** The relationship path of a media file: `format!("media/{}", filename)`. */
  function MediaTarget(filename: string): string {
    "media/" + filename
  }

  /** The targets of the test page's two files. */
  lemma TestPageTargets()
    ensures MediaTarget("2.svg") == "media/2.svg" && MediaTarget("2.png") == "media/2.png"
  {
  }

  /**
   * The state `add_to_doc` keeps from `new()`: page `i` took ids `2i` and
   * `2i + 1`, the relationships are declared in id order, svg first, and the
   * counter is the number of ids handed out.
   */
  ghost predicate Paired(nextId: nat, blocks: seq<PageBlock>, rels: seq<Relationship>) {
    && nextId == 2 * |blocks|
    && |rels| == nextId
    && (forall i :: 0 <= i < |blocks| ==> blocks[i].svgId == 2 * i && blocks[i].pngId == 2 * i + 1)
    && (forall j :: 0 <= j < |rels| ==> rels[j].id == RId(j))
  }

  /** Adding one page, with the next two ids, keeps the pairing. */
  lemma PairedAppend(nextId: nat, blocks: seq<PageBlock>, rels: seq<Relationship>, b: PageBlock, svg: Relationship, png: Relationship)
    requires Paired(nextId, blocks, rels)
    requires b.svgId == nextId && b.pngId == nextId + 1
    requires svg.id == RId(nextId) && png.id == RId(nextId + 1)
    ensures Paired(nextId + 2, blocks + [b], rels + [svg] + [png])
  {
  }

  /** Ids are handed out two per page, so the counter is even, half of it the page count. */
  lemma CounterEven(nextId: nat, blocks: seq<PageBlock>, rels: seq<Relationship>)
    requires Paired(nextId, blocks, rels)
    ensures nextId % 2 == 0 && nextId / 2 == |blocks|
  {
  }

  lemma {:induction false} DeclaredInOrder(rels: seq<Relationship>, n: nat)
    requires n <= |rels|
    ensures |Declared(rels, n)| == n
    ensures forall j :: 0 <= j < n ==> Declared(rels, n)[j] == Text(rels[j].id)
    decreases n
  {
    if n > 0 {
      DeclaredInOrder(rels, n - 1);
    }
  }

  /** The manifest declares `rId0` .. `rId<nextId - 1>`, in that order. */
  lemma DeclaredAreAllIds(nextId: nat, blocks: seq<PageBlock>, rels: seq<Relationship>)
    requires Paired(nextId, blocks, rels)
    ensures |Declared(rels)| == nextId && forall k :: 0 <= k < nextId ==> Declared(rels)[k] == Text(RId(k))
  {
    DeclaredInOrder(rels, |rels|);
  }

  /** No two relationships share an id. */
  lemma RelIdsDistinct(nextId: nat, blocks: seq<PageBlock>, rels: seq<Relationship>)
    requires Paired(nextId, blocks, rels)
    ensures forall i, j :: 0 <= i < j < |rels| ==> rels[i].id != rels[j].id
  {
    forall i, j | 0 <= i < j < |rels| ensures rels[i].id != rels[j].id {
      RIdInjective(i, j);
    }
  }

  /** Each page's drawing has its own `wp:docPr` id: two pages never share one. */
  lemma DocPrIdsDistinct(nextId: nat, blocks: seq<PageBlock>, rels: seq<Relationship>, i: nat, j: nat)
    requires Paired(nextId, blocks, rels) && i < j < |blocks|
    ensures AttrAt(BlockXml(blocks[i]), DocPrPath, "id") != AttrAt(BlockXml(blocks[j]), DocPrPath, "id")
  {
    BlockDocPr(blocks[i]);
    BlockDocPr(blocks[j]);
  }

  /** `rId0` .. `rId<2n - 1>` in order: the ids of `n` pages, each page's svg id before its png id. */
  function PageIds(n: nat): seq<Value>
    decreases n
  {
    if n == 0 then [] else PageIds(n - 1) + [Text(RId(2 * (n - 1))), Text(RId(2 * (n - 1) + 1))]
  }

  /** The same ids, each page's png id before its svg id. */
  function PageIdsSwapped(n: nat): seq<Value>
    decreases n
  {
    if n == 0 then [] else PageIdsSwapped(n - 1) + [Text(RId(2 * (n - 1) + 1)), Text(RId(2 * (n - 1)))]
  }

  lemma {:induction false} PageIdsInOrder(n: nat)
    ensures |PageIds(n)| == 2 * n
    ensures forall k :: 0 <= k < 2 * n ==> PageIds(n)[k] == Text(RId(k))
    decreases n
  {
    if n > 0 {
      PageIdsInOrder(n - 1);
    }
  }

  /** Swapping within pairs changes no id's number of occurrences. */
  lemma {:induction false} PageIdsCount(n: nat, v: Value)
    ensures Count(PageIdsSwapped(n), v) == Count(PageIds(n), v)
    decreases n
  {
    if n > 0 {
      var x, y := Text(RId(2 * (n - 1))), Text(RId(2 * (n - 1) + 1));
      PageIdsCount(n - 1, v);
      CountConcat(PageIdsSwapped(n - 1), [y, x], v);
      CountConcat(PageIds(n - 1), [x, y], v);
      CountSwap(x, y, v);
    }
  }

  /** Page after page the document refers to its png id, then its svg id. */
  lemma {:induction false} ReferencesArePageIds(nextId: nat, blocks: seq<PageBlock>, rels: seq<Relationship>, n: nat)
    requires Paired(nextId, blocks, rels) && n <= |blocks|
    ensures References(blocks, n) == PageIdsSwapped(n)
    decreases n
  {
    if n > 0 {
      ReferencesArePageIds(nextId, blocks, rels, n - 1);
      assert blocks[n - 1].svgId == 2 * (n - 1) && blocks[n - 1].pngId == 2 * (n - 1) + 1;
    }
  }

  /** The manifest declares the pages' ids, page after page, svg before png. */
  lemma DeclaredArePageIds(nextId: nat, blocks: seq<PageBlock>, rels: seq<Relationship>)
    requires Paired(nextId, blocks, rels)
    ensures Declared(rels) == PageIds(|blocks|)
  {
    DeclaredAreAllIds(nextId, blocks, rels);
    PageIdsInOrder(|blocks|);
  }

  /** The pages refer to the ids of the relationships, each as often as it is declared. */
  lemma ReferencesMatch(nextId: nat, blocks: seq<PageBlock>, rels: seq<Relationship>)
    requires Paired(nextId, blocks, rels)
    ensures multiset(References(blocks)) == multiset(Declared(rels))
  {
    ReferencesArePageIds(nextId, blocks, rels, |blocks|);
    DeclaredArePageIds(nextId, blocks, rels);
    forall v {
      PageIdsCount(|blocks|, v);
    }
    SameCounts(References(blocks), Declared(rels));
  }

  lemma DeclaredIdSet(nextId: nat, blocks: seq<PageBlock>, rels: seq<Relationship>)
    requires Paired(nextId, blocks, rels)
    ensures (set r | r in Declared(rels)) == (set k | 0 <= k < nextId :: Text(RId(k)))
  {
    DeclaredAreAllIds(nextId, blocks, rels);
    var decl := Declared(rels);
    forall r | r in decl ensures r in (set k | 0 <= k < nextId :: Text(RId(k))) {
      var k :| 0 <= k < |decl| && decl[k] == r;
    }
    forall k | 0 <= k < nextId ensures Text(RId(k)) in decl {
      assert decl[k] == Text(RId(k));
    }
  }

  /** Two sequences with the same multiset hold the same elements. */
  lemma SameElements<T>(a: seq<T>, b: seq<T>)
    requires multiset(a) == multiset(b)
    ensures (set x | x in a) == (set x | x in b)
  {
    forall x ensures x in a <==> x in b {
      assert x in a <==> x in multiset(a);
      assert x in b <==> x in multiset(b);
    }
  }

  /** The ids referred to are exactly `rId0` .. `rId<nextId - 1>`. */
  lemma ReferencedAreAllIds(nextId: nat, blocks: seq<PageBlock>, rels: seq<Relationship>)
    requires Paired(nextId, blocks, rels)
    ensures (set r | r in References(blocks)) == (set k | 0 <= k < nextId :: Text(RId(k)))
  {
    ReferencesMatch(nextId, blocks, rels);
    SameElements(References(blocks), Declared(rels));
    DeclaredIdSet(nextId, blocks, rels);
  }

  /**
   * The cross-stream invariant: the ids the document refers to are exactly
   * the ids the manifest declares, each once on both sides, and both are
   * `rId0` .. `rId<nextId - 1>`.
   */
  lemma CrossStream(nextId: nat, blocks: seq<PageBlock>, rels: seq<Relationship>)
    requires Paired(nextId, blocks, rels)
    ensures multiset(References(blocks)) == multiset(Declared(rels))
    ensures |Declared(rels)| == nextId && forall k :: 0 <= k < nextId ==> Declared(rels)[k] == Text(RId(k))
    ensures forall i, j :: 0 <= i < j < |rels| ==> rels[i].id != rels[j].id
    ensures (set r | r in References(blocks)) == (set k | 0 <= k < nextId :: Text(RId(k)))
  {
    ReferencesMatch(nextId, blocks, rels);
    DeclaredAreAllIds(nextId, blocks, rels);
    RelIdsDistinct(nextId, blocks, rels);
    ReferencedAreAllIds(nextId, blocks, rels);
  }

  /**
   * Read off the two texts: every id a block's XML embeds is declared in the
   * manifest, and every declared id is embedded, each exactly once.
   */
  lemma TextsAgree(nextId: nat, blocks: seq<PageBlock>, rels: seq<Relationship>)
    requires Paired(nextId, blocks, rels)
    ensures multiset(EmbedsInText(blocks)) == multiset(Declared(rels))
    ensures forall i, j :: 0 <= i < j < |rels| ==> rels[i].id != rels[j].id
  {
    EmbedsAreReferences(blocks, |blocks|);
    ReferencesMatch(nextId, blocks, rels);
    RelIdsDistinct(nextId, blocks, rels);
  }

  /**
   * `Docx`: the temporary package directory, its media directory, the id
   * counter and the two strings it builds. `blocks` and `rels` are the
   * structured content of `docString` and `relsString`.
   */
  class Docx {
    const dir: Path
    const mediaDir: Path
    var nextId: nat
    var docString: string
    var relsString: string
    ghost var blocks: seq<PageBlock>
    ghost var rels: seq<Relationship>

    ghost predicate Valid()
      reads this
    {
      && mediaDir == dir + [Normal("word"), Normal("media")]
      && docString == DocText(blocks)
      && relsString == RelsText(rels)
      && Paired(nextId, blocks, rels)
    }

    /**
     * `Docx::new` once the temporary directory `dir` exists and the
     * skeleton is copied into it: counter 0 and both strings empty.
     */
    constructor (dir: Path)
      ensures Valid()
      ensures this.dir == dir && mediaDir == dir + [Normal("word"), Normal("media")]
      ensures nextId == 0 && docString == "" && relsString == ""
      ensures blocks == [] && rels == []
    {
      this.dir := dir;
      mediaDir := dir + [Normal("word"), Normal("media")];
      nextId := 0;
      docString := "";
      relsString := "";
      blocks := [];
      rels := [];
    }

    /** `Docx::next_id`: hand out the counter and advance it by one. */
    method NextId() returns (id: nat)
      modifies this`nextId
      ensures id == old(nextId)
      ensures nextId == old(nextId) + 1
    {
      id := nextId;
      nextId := nextId + 1;
    }

    /** `Docx::add_relationship`: append one image relationship to `rels_string`. */
    method AddRelationship(rid: string, filename: string)
      requires relsString == RelsText(rels)
      modifies this`relsString, this`rels
      ensures rels == old(rels) + [Relationship(rid, MediaTarget(filename))]
      ensures relsString == old(relsString) + Render(RelXml(Relationship(rid, MediaTarget(filename))))
      ensures relsString == RelsText(rels)
    {
      var target := MediaTarget(filename);
      RelsTextAppend(rels, Relationship(rid, target));
      relsString := relsString + Render(RelXml(Relationship(rid, target)));
      rels := rels + [Relationship(rid, target)];
    }

    /** The first half of `add_to_doc`'s output: one page block appended to `doc_string`. */
    method AppendBlock(block: PageBlock)
      requires docString == DocText(blocks)
      modifies this`docString, this`blocks
      ensures blocks == old(blocks) + [block]
      ensures docString == old(docString) + Render(BlockXml(block))
      ensures docString == DocText(blocks)
    {
      DocTextAppend(blocks, block);
      docString := docString + Render(BlockXml(block));
      blocks := blocks + [block];
    }

    /**
     * `Docx::add_to_doc`: take the next two ids, svg first, append the page
     * block to `doc_string` and the svg and png relationships to
     * `rels_string`.
     */
    method AddToDoc(svg: Path, png: Path, size: Size)
      requires Valid()
      requires FileName(svg).Some? && FileName(png).Some?
      modifies this`nextId, this`docString, this`relsString, this`blocks, this`rels
      ensures Valid()
      ensures nextId == old(nextId) + 2
      ensures blocks == old(blocks) + [PageBlock(old(nextId), old(nextId) + 1, PxToEmu(size.width), PxToEmu(size.height))]
      ensures rels == old(rels) + [Relationship(RId(old(nextId)), MediaTarget(GetFilename(svg)))]
                                + [Relationship(RId(old(nextId) + 1), MediaTarget(GetFilename(png)))]
      ensures docString == old(docString) + Render(BlockXml(blocks[|blocks| - 1]))
      ensures relsString == old(relsString) + Render(RelXml(rels[|rels| - 2])) + Render(RelXml(rels[|rels| - 1]))
    {
      ghost var blocks0, rels0 := blocks, rels;
      var svgId := NextId();
      var pngId := NextId();
      var svgRid := RId(svgId);
      var pngRid := RId(pngId);
      var width := PxToEmu(size.width);
      var height := PxToEmu(size.height);
      var block := PageBlock(svgId, pngId, width, height);
      AppendBlock(block);
      AddRelationship(svgRid, GetFilename(svg));
      AddRelationship(pngRid, GetFilename(png));
      PairedAppend(svgId, blocks0, rels0, block,
                   Relationship(svgRid, MediaTarget(GetFilename(svg))), Relationship(pngRid, MediaTarget(GetFilename(png))));
    }

    /**
     * `Docx::add_image_svg` with its I/O given as inputs: `tree` is what
     * reading and parsing the SVG gave, `copied` whether copying it into the
     * media directory succeeded. The PNG is rendered beside it first; that
     * outcome is discarded by the source, so it does not appear here.
     */
    method AddImageSvg(svg: Path, tree: Result<Size>, copied: bool) returns (r: Outcome)
      requires Valid()
      requires tree.Ok? ==> FileName(svg).Some?
      modifies this`nextId, this`docString, this`relsString, this`blocks, this`rels
      ensures Valid()
      ensures tree.Err? ==> r == Fail(tree.error)
      ensures tree.Ok? && !copied ==> r == Fail(IoError)
      ensures r.Fail? ==> nextId == old(nextId) && docString == old(docString) && relsString == old(relsString)
                          && blocks == old(blocks) && rels == old(rels)
      ensures tree.Ok? && copied ==> && r == Pass
                                     && nextId == old(nextId) + 2
                                     && blocks == old(blocks) + [PageBlock(old(nextId), old(nextId) + 1,
                                                                           PxToEmu(tree.value.width), PxToEmu(tree.value.height))]
                                     && rels == old(rels) + [Relationship(RId(old(nextId)), MediaTarget(GetFilename(svg)))]
                                                          + [Relationship(RId(old(nextId) + 1), MediaTarget(ReplaceAll(GetFilename(svg), Svg, Png)))]
    {
      if tree.Err? {
        return Fail(tree.error);
      }
      var png := GetPngPath(mediaDir, svg);
      var svgCopy := Join(mediaDir, GetFilename(svg));
      if !copied {
        return Fail(IoError);
      }
      AddToDoc(svgCopy, png, tree.value);
      r := Pass;
    }
  }

  /**
   * The `test_add_svg` scenario: a new builder, then `tests/2.svg`, whose
   * size converts to 7560055 by 10692003 EMU. Adding it succeeds, the page takes ids 0 and 1, and
   * the manifest lists the SVG and then the PNG under `media/`.
   */
  method AddSvgScenario(dir: Path, testsDir: Path, size: Size) returns (docx: Docx, r: Outcome)
    requires PxToEmu(size.width) == 7560055 && PxToEmu(size.height) == 10692003
    ensures r == Pass
    ensures docx.Valid() && docx.nextId == 2
    ensures docx.blocks == [PageBlock(0, 1, 7560055, 10692003)]
    ensures docx.rels == [Relationship("rId0", "media/2.svg"), Relationship("rId1", "media/2.png")]
  {
    docx := new Docx(dir);
    var svg := testsDir + [Normal("2.svg")];
    assert FileName(svg) == Some("2.svg");
    r := docx.AddImageSvg(svg, Ok(size), true);
    assert GetFilename(svg) == "2.svg";
    FirstRIds();
    PngNameOfTestPage();
    TestPageTargets();
  }

  /** A document of one page is that page's paragraph. */
  lemma DocTextSingle(b: PageBlock)
    ensures DocText([b]) == Render(BlockXml(b))
  {
    DocTextAppend([], b);
    assert [] + [b] == [b];
    assert Paragraphs([]) == [];
  }

  /** A manifest of two entries is the first entry's markup, then the second's. */
  lemma RelsTextPair(r0: Relationship, r1: Relationship)
    ensures RelsText([r0, r1]) == Render(RelXml(r0)) + Render(RelXml(r1))
  {
    RelsTextAppend([], r0);
    assert [] + [r0] == [r0];
    assert Entries([]) == [];
    RelsTextAppend([r0], r1);
    assert [r0] + [r1] == [r0, r1];
  }

  /** The markup of one entry: its id, the image type and its target, self-closing. */
  lemma RelEntryText(r: Relationship)
    ensures Render(RelXml(r)) == "<Relationship" + (AttrText("Id", r.id) + (AttrText("Type", ImageRelType) + AttrText("Target", r.target))) + "/>"
  {
    var attrs := RelXml(r).attrs;
    assert attrs[1..][1..][1..] == [];
    assert RenderAttrs(attrs[1..][1..]) == AttrText("Target", r.target);
    assert RenderAttrs(attrs[1..]) == AttrText("Type", ImageRelType) + AttrText("Target", r.target);
    assert RenderAttrs(attrs) == AttrText("Id", r.id) + (AttrText("Type", ImageRelType) + AttrText("Target", r.target));
    assert "<" + "Relationship" == "<Relationship";
  }

  /**
   * A manifest of two entries, as `test_add_svg` expects it after one page:
   * each entry with its id, the image type and its target, one after the other.
   */
  lemma ManifestOfTwo(r0: Relationship, r1: Relationship)
    ensures RelsText([r0, r1]) == ("<Relationship" + (AttrText("Id", r0.id) + (AttrText("Type", ImageRelType) + AttrText("Target", r0.target))) + "/>") + ("<Relationship" + (AttrText("Id", r1.id) + (AttrText("Type", ImageRelType) + AttrText("Target", r1.target))) + "/>")
  {
    RelsTextPair(r0, r1);
    RelEntryText(r0);
    RelEntryText(r1);
  }
}
