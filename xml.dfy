/**
 * A small element tree standing for the XML the `format_xml::xml!` macro
 * writes: elements with attributes and children, an element without
 * children written self-closing.
 */
module Xml {
  import opened Wrappers
  import opened Decimal

  /**
   * An attribute value as the template holds it: fixed text, or an integer
   * interpolated into the template and written in decimal when rendered.
   */
  datatype Value = Text(text: string) | Number(n: int)

  datatype Attribute = Attribute(name: string, value: Value)

  /** How a value is written: text as it is, a number by its `Display` form. */
  function ValueText(v: Value): string {
    match v
    case Text(s) => s
    case Number(n) => IntToString(n)
  }

  datatype Element = Element(tag: string, attrs: seq<Attribute>, children: seq<Element>)

  /** One attribute as written in a start tag: a space, the name, and the value in double quotes. */
  function AttrText(name: string, value: string): string {
    " " + name + "=\"" + value + "\""
  }

  function RenderAttrs(attrs: seq<Attribute>): string {
    if attrs == [] then ""
    else AttrText(attrs[0].name, ValueText(attrs[0].value)) + RenderAttrs(attrs[1..])
  }

  /** The markup of an element. */
  function Render(e: Element): string
    decreases e
  {
    "<" + e.tag + RenderAttrs(e.attrs)
      + if e.children == [] then "/>" else ">" + RenderAll(e.children) + "</" + e.tag + ">"
  }

  /** The markup of a sequence of sibling elements, one after another. */
  function RenderAll(es: seq<Element>): string
    decreases es
  {
    if es == [] then "" else Render(es[0]) + RenderAll(es[1..])
  }

  /** One more sibling adds its markup at the end. */
  lemma {:induction false} RenderAllAppend(es: seq<Element>, e: Element)
    ensures RenderAll(es + [e]) == RenderAll(es) + Render(e)
    decreases |es|
  {
    if es == [] {
      assert es + [e] == [e];
      assert [e][1..] == [];
    } else {
      assert (es + [e])[0] == es[0];
      assert (es + [e])[1..] == es[1..] + [e];
      RenderAllAppend(es[1..], e);
    }
  }

  /** The value of the first attribute called `name`. */
  function AttrValue(attrs: seq<Attribute>, name: string): (v: Option<Value>)
    ensures v.Some? <==> exists i :: 0 <= i < |attrs| && attrs[i].name == name
    ensures v.Some? ==> exists i :: 0 <= i < |attrs| && attrs[i] == Attribute(name, v.value)
  {
    if attrs == [] then None
    else if attrs[0].name == name then Some(attrs[0].value)
    else AttrValue(attrs[1..], name)
  }

  /** The first of the elements with tag `tag`. */
  function FirstWithTag(es: seq<Element>, tag: string): (c: Option<Element>)
    ensures c.Some? ==> c.value in es && c.value.tag == tag
    ensures c.None? ==> forall e :: e in es ==> e.tag != tag
  {
    if es == [] then None
    else if es[0].tag == tag then Some(es[0])
    else FirstWithTag(es[1..], tag)
  }

  /** The element reached from `e` by following the first child with each tag of `path`. */
  function Find(e: Element, path: seq<string>): Option<Element>
    decreases |path|
  {
    if path == [] then Some(e)
    else match FirstWithTag(e.children, path[0])
      case None => None
      case Some(c) => Find(c, path[1..])
  }

  /** The value of attribute `name` on the element at `path`. */
  function AttrAt(e: Element, path: seq<string>, name: string): Option<Value> {
    match Find(e, path)
    case None => None
    case Some(t) => AttrValue(t.attrs, name)
  }

  /** Every value of an attribute called `name` in the tree, in document order. */
  function Values(e: Element, name: string): seq<Value>
    decreases e
  {
    AttrValues(e.attrs, name) + ValuesAll(e.children, name)
  }

  function ValuesAll(es: seq<Element>, name: string): seq<Value>
    decreases es
  {
    if es == [] then [] else Values(es[0], name) + ValuesAll(es[1..], name)
  }

  function AttrValues(attrs: seq<Attribute>, name: string): seq<Value> {
    if attrs == [] then []
    else (if attrs[0].name == name then [attrs[0].value] else []) + AttrValues(attrs[1..], name)
  }

  /** Following a path in two parts is following the first part, then the second from there. */
  lemma {:induction false} FindConcat(e: Element, p: seq<string>, q: seq<string>)
    ensures Find(e, p + q) == match Find(e, p) case None => None case Some(t) => Find(t, q)
    decreases |p|
  {
    if p == [] {
      assert p + q == q;
    } else {
      assert (p + q)[0] == p[0] && (p + q)[1..] == p[1..] + q;
      match FirstWithTag(e.children, p[0])
      case None =>
      case Some(c) => FindConcat(c, p[1..], q);
    }
  }

  /** No attribute of that name, no values. */
  lemma {:induction false} AttrValuesNone(attrs: seq<Attribute>, name: string)
    requires forall i :: 0 <= i < |attrs| ==> attrs[i].name != name
    ensures AttrValues(attrs, name) == []
  {
    if attrs != [] {
      AttrValuesNone(attrs[1..], name);
    }
  }

  /** The values of a list of attributes are those of its parts, in order. */
  lemma {:induction false} AttrValuesConcat(xs: seq<Attribute>, ys: seq<Attribute>, name: string)
    ensures AttrValues(xs + ys, name) == AttrValues(xs, name) + AttrValues(ys, name)
  {
    if xs == [] {
      assert xs + ys == ys;
    } else {
      assert (xs + ys)[1..] == xs[1..] + ys;
      AttrValuesConcat(xs[1..], ys, name);
    }
  }

  /** The values in a list of sibling elements are those of its parts, in order. */
  lemma {:induction false} ValuesAllConcat(xs: seq<Element>, ys: seq<Element>, name: string)
    ensures ValuesAll(xs + ys, name) == ValuesAll(xs, name) + ValuesAll(ys, name)
  {
    if xs == [] {
      assert xs + ys == ys;
    } else {
      assert (xs + ys)[1..] == xs[1..] + ys;
      ValuesAllConcat(xs[1..], ys, name);
    }
  }

  lemma ValuesAllSingle(e: Element, name: string)
    ensures ValuesAll([e], name) == Values(e, name)
  {
    assert [e][1..] == [];
  }
}
