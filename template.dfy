/**
 * The two XML fragments the builder appends: the `<w:p>` drawing paragraph
 * of one page (src/lib.rs, `add_to_doc`) and one `<Relationship>` entry
 * (`add_relationship`). The template is kept element by element. The
 * whitespace of the macro output is not reproduced, attribute values are not
 * escaped, and the doubled braces of the `a:ext` uri are written single.
 */
module Template {
  import opened Wrappers
  import opened Decimal
  import opened Xml

  /** One page: its two asset ids and its extent in EMU. */
  datatype PageBlock = PageBlock(svgId: nat, pngId: nat, cx: int, cy: int)

  /** One relationship entry: its id and its target path; the type is always the image type. */
  datatype Relationship = Relationship(id: string, target: string)

  const DrawingNs: string := "http://schemas.openxmlformats.org/drawingml/2006/main"
  const PictureNs: string := "http://schemas.openxmlformats.org/drawingml/2006/picture"
  const SvgNs: string := "http://schemas.microsoft.com/office/drawing/2016/SVG/main"
  const SvgBlipExtUri: string := "{96DAC541-7B7A-43D3-8B79-37D633B846F1}"
  const ImageRelType: string := "http://schemas.openxmlformats.org/officeDocument/2006/relationships/image"

  /** `format!("rId{}", id)`. */
  function RId(id: nat): string {
    "rId" + NatToString(id)
  }

  /** A relationship id is `rId` followed by the decimal digits of the id, which read back as the id. */
  lemma RIdForm(id: nat)
    ensures |RId(id)| > 3 && RId(id)[..3] == "rId"
    ensures AllDigits(RId(id)[3..]) && DigitsValue(RId(id)[3..]) == id
  {
    NatToStringRoundTrip(id);
    assert RId(id)[3..] == NatToString(id);
  }

  /** The first two ids, as the first page takes them. */
  lemma FirstRIds()
    ensures RId(0) == "rId0" && RId(1) == "rId1"
  {
    assert NatToString(0) == "0" && NatToString(1) == "1";
  }

  /** Distinct ids give distinct relationship ids. */
  lemma RIdInjective(a: nat, b: nat)
    ensures RId(a) == RId(b) <==> a == b
  {
    if RId(a) == RId(b) {
      assert NatToString(a) == RId(a)[3..] == RId(b)[3..] == NatToString(b);
      NatToStringInjective(a, b);
    }
  }

  function Leaf(tag: string, attrs: seq<Attribute>): Element {
    Element(tag, attrs, [])
  }

  function Extent(tag: string, cx: int, cy: int): Element {
    Leaf(tag, [Attribute("cx", Number(cx)), Attribute("cy", Number(cy))])
  }

  /** The raster fill, `r:embed` the PNG, with the SVG layered on it by the extension. */
  function BlipFill(pngRid: string, svgRid: string): Element {
    Element("pic:blipFill", [], [
      Element("a:blip", [Attribute("r:embed", Text(pngRid))], [
        Element("a:extLst", [], [
          Element("a:ext", [Attribute("uri", Text(SvgBlipExtUri))], [
            Leaf("asvg:svgBlip", [Attribute("xmlns:asvg", Text(SvgNs)), Attribute("r:embed", Text(svgRid))])
          ])
        ])
      ]),
      Element("a:stretch", [], [Leaf("a:fillRect", [])])
    ])
  }

  function ShapeProperties(cx: int, cy: int): Element {
    Element("pic:spPr", [], [
      Element("a:xfrm", [], [
        Leaf("a:off", [Attribute("x", Text("0")), Attribute("y", Text("0"))]),
        Extent("a:ext", cx, cy)
      ]),
      Element("a:prstGeom", [Attribute("prst", Text("rect"))], [Leaf("a:avLst", [])])
    ])
  }

  function Picture(b: PageBlock): Element {
    Element("pic:pic", [Attribute("xmlns:pic", Text(PictureNs))], [
      Element("pic:nvPicPr", [], [
        Leaf("pic:cNvPr", [Attribute("id", Text("1")), Attribute("name", Text(""))]),
        Leaf("pic:cNvPicPr", [])
      ]),
      BlipFill(RId(b.pngId), RId(b.svgId)),
      ShapeProperties(b.cx, b.cy)
    ])
  }

  function Inline(b: PageBlock): Element {
    Element("wp:inline", [Attribute("distT", Text("0")), Attribute("distB", Text("0")), Attribute("distL", Text("0")), Attribute("distR", Text("0"))], [
      Extent("wp:extent", b.cx, b.cy),
      Leaf("wp:effectExtent", [Attribute("l", Text("0")), Attribute("t", Text("0")), Attribute("r", Text("0")), Attribute("b", Text("0"))]),
      Leaf("wp:docPr", [Attribute("id", Number(b.svgId)), Attribute("name", Number(b.svgId))]),
      Element("wp:cNvGraphicFramePr", [], [
        Leaf("a:graphicFrameLocks", [Attribute("xmlns:a", Text(DrawingNs)), Attribute("noChangeAspect", Text("1"))])
      ]),
      Element("a:graphic", [Attribute("xmlns:a", Text(DrawingNs))], [
        Element("a:graphicData", [Attribute("uri", Text(PictureNs))], [Picture(b)])
      ])
    ])
  }

  /** The `<w:p>` paragraph of one page. */
  function BlockXml(b: PageBlock): Element {
    Element("w:p", [], [
      Element("w:pPr", [], [
        Leaf("w:widowControl", []),
        Leaf("w:jc", [Attribute("w:val", Text("left"))])
      ]),
      Element("w:r", [], [
        Element("w:rPr", [], [Leaf("w:noProof", [])]),
        Element("w:drawing", [], [Inline(b)])
      ])
    ])
  }

  /** The `<Relationship>` entry of one asset. */
  function RelXml(r: Relationship): Element {
    Leaf("Relationship", [Attribute("Id", Text(r.id)), Attribute("Type", Text(ImageRelType)), Attribute("Target", Text(r.target))])
  }

  const InlinePath: seq<string> := ["w:r", "w:drawing", "wp:inline"]
  const ExtentPath: seq<string> := InlinePath + ["wp:extent"]
  const DocPrPath: seq<string> := InlinePath + ["wp:docPr"]
  const PicturePath: seq<string> := InlinePath + ["a:graphic", "a:graphicData", "pic:pic"]
  const BlipPath: seq<string> := PicturePath + ["pic:blipFill", "a:blip"]
  const SvgBlipPath: seq<string> := BlipPath + ["a:extLst", "a:ext", "asvg:svgBlip"]
  const ShapeExtentPath: seq<string> := PicturePath + ["pic:spPr", "a:xfrm", "a:ext"]

  lemma {:induction false} InlineIsFound(b: PageBlock)
    ensures Find(BlockXml(b), InlinePath) == Some(Inline(b))
  {
    var r := BlockXml(b).children[1];
    assert FirstWithTag(BlockXml(b).children, "w:r") == Some(r);
    assert FirstWithTag(r.children, "w:drawing") == Some(r.children[1]);
    assert Find(Inline(b), []) == Some(Inline(b));
  }

  lemma {:induction false} InlinePictureIsFound(b: PageBlock)
    ensures Find(Inline(b), ["a:graphic", "a:graphicData", "pic:pic"]) == Some(Picture(b))
  {
    var g := Inline(b).children[4];
    assert FirstWithTag(Inline(b).children, "a:graphic") == Some(g);
    assert FirstWithTag(g.children, "a:graphicData") == Some(g.children[0]);
    assert Find(Picture(b), []) == Some(Picture(b));
  }

  lemma {:induction false} PictureIsFound(b: PageBlock)
    ensures Find(BlockXml(b), PicturePath) == Some(Picture(b))
  {
    InlineIsFound(b);
    FindConcat(BlockXml(b), InlinePath, ["a:graphic", "a:graphicData", "pic:pic"]);
    InlinePictureIsFound(b);
  }

  lemma {:induction false} ExtentFields(tag: string, cx: int, cy: int)
    ensures AttrValue(Extent(tag, cx, cy).attrs, "cx") == Some(Number(cx))
    ensures AttrValue(Extent(tag, cx, cy).attrs, "cy") == Some(Number(cy))
  {
    var attrs := Extent(tag, cx, cy).attrs;
    assert attrs[1..] == [Attribute("cy", Number(cy))];
  }

  lemma {:induction false} InlineExtentIsFound(b: PageBlock)
    ensures Find(Inline(b), ["wp:extent"]) == Some(Extent("wp:extent", b.cx, b.cy))
  {
    var x := Inline(b).children[0];
    assert FirstWithTag(Inline(b).children, "wp:extent") == Some(x);
    assert Find(x, []) == Some(x);
  }

  lemma {:induction false} DocPrIsFound(b: PageBlock)
    ensures Find(Inline(b), ["wp:docPr"]) == Some(Inline(b).children[2])
  {
    var d := Inline(b).children[2];
    assert FirstWithTag(Inline(b).children, "wp:docPr") == Some(d);
    assert Find(d, []) == Some(d);
  }

  lemma {:induction false} ShapeExtentIsFound(b: PageBlock)
    ensures Find(Picture(b), ["pic:spPr", "a:xfrm", "a:ext"]) == Some(Extent("a:ext", b.cx, b.cy))
  {
    var pic := Picture(b);
    var sp := pic.children[2];
    var xfrm := sp.children[0];
    assert FirstWithTag(pic.children, "pic:spPr") == Some(sp);
    assert FirstWithTag(sp.children, "a:xfrm") == Some(xfrm);
    assert FirstWithTag(xfrm.children, "a:ext") == Some(xfrm.children[1]);
    assert Find(xfrm.children[1], []) == Some(xfrm.children[1]);
  }

  lemma {:induction false} BlipIsFound(b: PageBlock)
    ensures Find(Picture(b), ["pic:blipFill", "a:blip"]) == Some(BlipFill(RId(b.pngId), RId(b.svgId)).children[0])
  {
    var pic := Picture(b);
    var fill := pic.children[1];
    var blip := fill.children[0];
    assert FirstWithTag(pic.children, "pic:blipFill") == Some(fill);
    assert FirstWithTag(fill.children, "a:blip") == Some(blip);
    assert Find(blip, []) == Some(blip);
  }

  lemma {:induction false} SvgBlipIsFound(pngRid: string, svgRid: string)
    ensures Find(BlipFill(pngRid, svgRid).children[0], ["a:extLst", "a:ext", "asvg:svgBlip"])
         == Some(Leaf("asvg:svgBlip", [Attribute("xmlns:asvg", Text(SvgNs)), Attribute("r:embed", Text(svgRid))]))
  {
    var blip := BlipFill(pngRid, svgRid).children[0];
    var lst := blip.children[0];
    var ext := lst.children[0];
    var svgBlip := ext.children[0];
    assert FirstWithTag(blip.children, "a:extLst") == Some(lst);
    assert FirstWithTag(lst.children, "a:ext") == Some(ext);
    assert FirstWithTag(ext.children, "asvg:svgBlip") == Some(svgBlip);
    assert Find(svgBlip, []) == Some(svgBlip);
  }

  /** Both extents of a page block, the inline one and the shape one, carry the page's EMU size. */
  lemma {:induction false} BlockExtents(b: PageBlock)
    ensures AttrAt(BlockXml(b), ExtentPath, "cx") == Some(Number(b.cx))
    ensures AttrAt(BlockXml(b), ExtentPath, "cy") == Some(Number(b.cy))
    ensures AttrAt(BlockXml(b), ShapeExtentPath, "cx") == Some(Number(b.cx))
    ensures AttrAt(BlockXml(b), ShapeExtentPath, "cy") == Some(Number(b.cy))
  {
    InlineIsFound(b);
    FindConcat(BlockXml(b), InlinePath, ["wp:extent"]);
    InlineExtentIsFound(b);
    ExtentFields("wp:extent", b.cx, b.cy);
    PictureIsFound(b);
    FindConcat(BlockXml(b), PicturePath, ["pic:spPr", "a:xfrm", "a:ext"]);
    ShapeExtentIsFound(b);
    ExtentFields("a:ext", b.cx, b.cy);
  }

  /** The drawing's `wp:docPr` id and name are both the SVG id. */
  lemma {:induction false} BlockDocPr(b: PageBlock)
    ensures AttrAt(BlockXml(b), DocPrPath, "id") == Some(Number(b.svgId))
    ensures AttrAt(BlockXml(b), DocPrPath, "name") == Some(Number(b.svgId))
  {
    InlineIsFound(b);
    FindConcat(BlockXml(b), InlinePath, ["wp:docPr"]);
    DocPrIsFound(b);
    var d := Inline(b).children[2];
    assert d.attrs[1..] == [Attribute("name", Number(b.svgId))];
    assert AttrValue(d.attrs[1..], "name") == Some(Number(b.svgId));
  }

  /** The raster fill `a:blip` embeds the PNG id and the `asvg:svgBlip` on top of it the SVG id. */
  lemma {:induction false} BlockEmbeds(b: PageBlock)
    ensures AttrAt(BlockXml(b), BlipPath, "r:embed") == Some(Text(RId(b.pngId)))
    ensures AttrAt(BlockXml(b), SvgBlipPath, "r:embed") == Some(Text(RId(b.svgId)))
  {
    PictureIsFound(b);
    FindConcat(BlockXml(b), PicturePath, ["pic:blipFill", "a:blip"]);
    BlipIsFound(b);
    FindConcat(BlockXml(b), BlipPath, ["a:extLst", "a:ext", "asvg:svgBlip"]);
    SvgBlipIsFound(RId(b.pngId), RId(b.svgId));
    var attrs := [Attribute("xmlns:asvg", Text(SvgNs)), Attribute("r:embed", Text(RId(b.svgId)))];
    assert attrs[1..] == [Attribute("r:embed", Text(RId(b.svgId)))];
    assert AttrValue(attrs[1..], "r:embed") == Some(Text(RId(b.svgId)));
  }

  /** An element none of whose attributes, here or below, is an `r:embed`. */
  lemma {:induction false} NoEmbedLeaf(tag: string, attrs: seq<Attribute>)
    requires forall i :: 0 <= i < |attrs| ==> attrs[i].name != "r:embed"
    ensures Values(Leaf(tag, attrs), "r:embed") == []
  {
    AttrValuesNone(attrs, "r:embed");
  }

  /** The values under two siblings are the first's, then the second's. */
  lemma {:induction false} ValuesPair(x: Element, y: Element, name: string)
    ensures ValuesAll([x, y], name) == Values(x, name) + Values(y, name)
  {
    assert [x, y] == [x] + [y];
    ValuesAllConcat([x], [y], name);
    ValuesAllSingle(x, name);
    ValuesAllSingle(y, name);
  }

  lemma {:induction false} BlipFillReferences(pngRid: string, svgRid: string)
    ensures Values(BlipFill(pngRid, svgRid), "r:embed") == [Text(pngRid), Text(svgRid)]
  {
    var fill := BlipFill(pngRid, svgRid);
    var blip := fill.children[0];
    var lst := blip.children[0];
    var ext := lst.children[0];
    var svgBlip := ext.children[0];
    AttrValuesConcat([Attribute("xmlns:asvg", Text(SvgNs))], [Attribute("r:embed", Text(svgRid))], "r:embed");
    assert Values(svgBlip, "r:embed") == [Text(svgRid)];
    ValuesAllSingle(svgBlip, "r:embed");
    AttrValuesNone(ext.attrs, "r:embed");
    assert Values(ext, "r:embed") == [Text(svgRid)];
    ValuesAllSingle(ext, "r:embed");
    assert Values(lst, "r:embed") == [Text(svgRid)];
    ValuesAllSingle(lst, "r:embed");
    assert blip.attrs[1..] == [];
    assert AttrValues(blip.attrs, "r:embed") == [Text(pngRid)];
    assert Values(blip, "r:embed") == [Text(pngRid), Text(svgRid)];
    var stretch := fill.children[1];
    NoEmbedLeaf("a:fillRect", []);
    ValuesAllSingle(stretch.children[0], "r:embed");
    assert Values(stretch, "r:embed") == [];
    ValuesPair(blip, stretch, "r:embed");
  }

  lemma {:induction false} XfrmReferences(cx: int, cy: int)
    ensures Values(ShapeProperties(cx, cy).children[0], "r:embed") == []
  {
    var xfrm := ShapeProperties(cx, cy).children[0];
    NoEmbedLeaf("a:off", [Attribute("x", Text("0")), Attribute("y", Text("0"))]);
    NoEmbedLeaf("a:ext", Extent("a:ext", cx, cy).attrs);
    ValuesPair(xfrm.children[0], xfrm.children[1], "r:embed");
  }

  lemma {:induction false} GeometryReferences(cx: int, cy: int)
    ensures Values(ShapeProperties(cx, cy).children[1], "r:embed") == []
  {
    var geom := ShapeProperties(cx, cy).children[1];
    NoEmbedLeaf("a:avLst", []);
    ValuesAllSingle(geom.children[0], "r:embed");
    AttrValuesNone(geom.attrs, "r:embed");
  }

  lemma {:induction false} ShapeReferences(cx: int, cy: int)
    ensures Values(ShapeProperties(cx, cy), "r:embed") == []
  {
    var sp := ShapeProperties(cx, cy);
    XfrmReferences(cx, cy);
    GeometryReferences(cx, cy);
    ValuesPair(sp.children[0], sp.children[1], "r:embed");
  }

  lemma {:induction false} NonVisualReferences(b: PageBlock)
    ensures Values(Picture(b).children[0], "r:embed") == []
  {
    var nv := Picture(b).children[0];
    NoEmbedLeaf("pic:cNvPr", [Attribute("id", Text("1")), Attribute("name", Text(""))]);
    NoEmbedLeaf("pic:cNvPicPr", []);
    ValuesPair(nv.children[0], nv.children[1], "r:embed");
  }

  lemma {:induction false} PictureReferences(b: PageBlock)
    ensures Values(Picture(b), "r:embed") == [Text(RId(b.pngId)), Text(RId(b.svgId))]
  {
    var pic := Picture(b);
    var cs := pic.children;
    BlipFillReferences(RId(b.pngId), RId(b.svgId));
    ShapeReferences(b.cx, b.cy);
    NonVisualReferences(b);
    assert cs == [cs[0]] + [cs[1], cs[2]];
    ValuesAllConcat([cs[0]], [cs[1], cs[2]], "r:embed");
    ValuesAllSingle(cs[0], "r:embed");
    ValuesPair(cs[1], cs[2], "r:embed");
    AttrValuesNone(pic.attrs, "r:embed");
  }

  lemma {:induction false} GraphicReferences(b: PageBlock)
    ensures Values(Inline(b).children[4], "r:embed") == [Text(RId(b.pngId)), Text(RId(b.svgId))]
  {
    var g := Inline(b).children[4];
    var gd := g.children[0];
    PictureReferences(b);
    ValuesAllSingle(Picture(b), "r:embed");
    AttrValuesNone(gd.attrs, "r:embed");
    ValuesAllSingle(gd, "r:embed");
    AttrValuesNone(g.attrs, "r:embed");
  }

  lemma {:induction false} ExtentsReferences(b: PageBlock)
    ensures ValuesAll([Inline(b).children[0], Inline(b).children[1]], "r:embed") == []
  {
    var cs := Inline(b).children;
    NoEmbedLeaf("wp:extent", cs[0].attrs);
    NoEmbedLeaf("wp:effectExtent", cs[1].attrs);
    ValuesPair(cs[0], cs[1], "r:embed");
  }

  lemma {:induction false} DrawingPropertiesReferences(b: PageBlock)
    ensures ValuesAll([Inline(b).children[2], Inline(b).children[3]], "r:embed") == []
  {
    var cs := Inline(b).children;
    NoEmbedLeaf("wp:docPr", cs[2].attrs);
    var fp := cs[3];
    NoEmbedLeaf("a:graphicFrameLocks", fp.children[0].attrs);
    ValuesAllSingle(fp.children[0], "r:embed");
    ValuesPair(cs[2], cs[3], "r:embed");
  }

  lemma {:induction false} InlineReferences(b: PageBlock)
    ensures Values(Inline(b), "r:embed") == [Text(RId(b.pngId)), Text(RId(b.svgId))]
  {
    var inl := Inline(b);
    var cs := inl.children;
    ExtentsReferences(b);
    DrawingPropertiesReferences(b);
    GraphicReferences(b);
    assert cs == [cs[0], cs[1]] + [cs[2], cs[3]] + [cs[4]];
    ValuesAllSingle(cs[4], "r:embed");
    ValuesAllConcat([cs[0], cs[1]], [cs[2], cs[3]], "r:embed");
    ValuesAllConcat([cs[0], cs[1]] + [cs[2], cs[3]], [cs[4]], "r:embed");
    AttrValuesNone(inl.attrs, "r:embed");
  }

  /** The relationship ids a page block refers to, in document order: the PNG's, then the SVG's. */
  lemma {:induction false} BlockReferences(b: PageBlock)
    ensures Values(BlockXml(b), "r:embed") == [Text(RId(b.pngId)), Text(RId(b.svgId))]
  {
    var e := BlockXml(b);
    var ppr := e.children[0];
    NoEmbedLeaf("w:widowControl", []);
    NoEmbedLeaf("w:jc", [Attribute("w:val", Text("left"))]);
    ValuesPair(ppr.children[0], ppr.children[1], "r:embed");
    assert Values(ppr, "r:embed") == [];
    var r := e.children[1];
    var rpr := r.children[0];
    NoEmbedLeaf("w:noProof", []);
    ValuesAllSingle(rpr.children[0], "r:embed");
    assert Values(rpr, "r:embed") == [];
    var drawing := r.children[1];
    InlineReferences(b);
    ValuesAllSingle(Inline(b), "r:embed");
    assert Values(drawing, "r:embed") == [Text(RId(b.pngId)), Text(RId(b.svgId))];
    ValuesPair(rpr, drawing, "r:embed");
    assert Values(r, "r:embed") == [Text(RId(b.pngId)), Text(RId(b.svgId))];
    ValuesPair(ppr, r, "r:embed");
  }

  /** A relationship entry carries its id, the image type and its target, and embeds nothing. */
  lemma {:induction false} RelFields(r: Relationship)
    ensures AttrValue(RelXml(r).attrs, "Id") == Some(Text(r.id))
    ensures AttrValue(RelXml(r).attrs, "Type") == Some(Text(ImageRelType))
    ensures AttrValue(RelXml(r).attrs, "Target") == Some(Text(r.target))
    ensures Values(RelXml(r), "r:embed") == []
  {
    var attrs := RelXml(r).attrs;
    assert attrs[1..][1..] == [Attribute("Target", Text(r.target))];
    assert AttrValue(attrs[1..][1..], "Target") == Some(Text(r.target));
    AttrValuesNone(attrs, "r:embed");
  }
}
