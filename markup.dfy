/** The component tree of `lithe-core` and its serialisation to markup.
    A component renders by appending text to a growing buffer: an element as
    an opening tag with its attributes, its children in order and a closing
    tag; a void element as a self-closed tag; text as itself.  Nothing is
    escaped. */
module Markup {

  /** An attribute as an element stores it: `(key, value)`. */
  type Attribute = (string, string)

  /** The three kinds of component: `Element`, `VoidElement`, and a text
      (`String` or `&str`). */
  datatype Component =
    | Elem(tag: string, attributes: seq<Attribute>, children: seq<Component>)
    | Void(tag: string, attributes: seq<Attribute>)
    | Text(text: string)

  /** ` key="value"`, both copied verbatim. */
  function AttributeText(a: Attribute): string
  {
    " " + a.0 + "=\"" + a.1 + "\""
  }

  /** The attributes in insertion order. */
  function AttributesText(attributes: seq<Attribute>): string
  {
    if attributes == [] then ""
    else AttributesText(attributes[..|attributes| - 1]) + AttributeText(attributes[|attributes| - 1])
  }

  /** `<tag k="v" ...`, shared by both kinds of element. */
  function OpenTag(tag: string, attributes: seq<Attribute>): string
  {
    "<" + tag + AttributesText(attributes)
  }

  /** The text `render` appends for a component. */
  function Rendered(c: Component): string
    decreases c
  {
    match c
    case Elem(tag, attributes, children) =>
      OpenTag(tag, attributes) + ">" + RenderedAll(children) + "</" + tag + ">"
    case Void(tag, attributes) =>
      OpenTag(tag, attributes) + " />"
    case Text(text) => text
  }

  /** The children's texts, one after the other. */
  function RenderedAll(cs: seq<Component>): string
    decreases cs
  {
    if cs == [] then "" else RenderedAll(cs[..|cs| - 1]) + Rendered(cs[|cs| - 1])
  }

  /** The `String` that `render` appends to. */
  class Buffer {
    var text: string

    /** `String::new()` */
    constructor ()
      ensures text == ""
    {
      text := "";
    }

    /** `push_str` (and `push` of one character). */
    method PushStr(s: string)
      modifies this
      ensures text == old(text) + s
    {
      text := text + s;
    }
  }

  /** `<tag` and then ` key="value"` for each attribute in turn, as both
      `render` impls do. */
  method RenderOpenTag(tag: string, attributes: seq<Attribute>, buf: Buffer)
    modifies buf
    ensures buf.text == old(buf.text) + OpenTag(tag, attributes)
  {
    buf.PushStr("<");
    buf.PushStr(tag);
    ghost var start := buf.text;
    for i := 0 to |attributes|
      invariant buf.text == start + AttributesText(attributes[..i])
    {
      ghost var before := buf.text;
      var (key, value) := attributes[i];
      buf.PushStr(" ");
      buf.PushStr(key);
      buf.PushStr("=\"");
      buf.PushStr(value);
      buf.PushStr("\"");
      AppendAttribute(before, attributes[i]);
      assert attributes[..i + 1][..i] == attributes[..i];
      Regroup(start, AttributesText(attributes[..i]), AttributeText(attributes[i]));
    }
    assert attributes[..|attributes|] == attributes;
    Regroup(old(buf.text), "<", tag);
    Regroup(old(buf.text), "<" + tag, AttributesText(attributes));
  }

  /** The five pieces `render` pushes for one attribute make up its text. */
  lemma AppendAttribute(t: string, a: Attribute)
    ensures t + " " + a.0 + "=\"" + a.1 + "\"" == t + AttributeText(a)
  {
  }

  /** The pieces `render` pushes for an element make up its text. */
  lemma ElementPieces(t: string, open: string, inner: string, tag: string)
    ensures t + open + ">" + inner + "</" + tag + ">" == t + (open + ">" + inner + "</" + tag + ">")
  {
  }

  lemma Regroup(x: string, y: string, z: string)
    ensures x + y + z == x + (y + z)
  {
  }

  /** `Component::render`: appends the component's text to the buffer and
      changes nothing else, so what was there stays a prefix. */
  method Render(c: Component, buf: Buffer)
    modifies buf
    ensures buf.text == old(buf.text) + Rendered(c)
    ensures old(buf.text) <= buf.text
    decreases c, 1
  {
    match c {
      case Elem(tag, attributes, children) =>
        RenderOpenTag(tag, attributes, buf);
        buf.PushStr(">");
        RenderChildren(children, buf);
        buf.PushStr("</");
        buf.PushStr(tag);
        buf.PushStr(">");
        ElementPieces(old(buf.text), OpenTag(tag, attributes), RenderedAll(children), tag);
      case Void(tag, attributes) =>
        RenderOpenTag(tag, attributes, buf);
        buf.PushStr(" />");
        Regroup(old(buf.text), OpenTag(tag, attributes), " />");
      case Text(text) =>
        buf.PushStr(text);
    }
  }

  /** The loop over an element's children: each renders in turn. */
  method RenderChildren(children: seq<Component>, buf: Buffer)
    modifies buf
    ensures buf.text == old(buf.text) + RenderedAll(children)
    decreases children, 0
  {
    for i := 0 to |children|
      invariant buf.text == old(buf.text) + RenderedAll(children[..i])
    {
      Render(children[i], buf);
      ChildrenPrefixStep(children, i);
      Regroup(old(buf.text), RenderedAll(children[..i]), Rendered(children[i]));
    }
    assert children[..|children|] == children;
  }

  /** `render_to_string`: rendering into a fresh, empty buffer, so the result
      is exactly the component's own text. */
  method RenderToString(c: Component) returns (s: string)
    ensures s == Rendered(c)
    ensures c.Text? ==> s == c.text
  {
    var buf := new Buffer();
    Render(c, buf);
    s := buf.text;
  }

  /** Attributes render piecewise: the text of a concatenation is the
      concatenation of the texts. */
  lemma {:induction false} AttributesTextAppend(a: seq<Attribute>, b: seq<Attribute>)
    ensures AttributesText(a + b) == AttributesText(a) + AttributesText(b)
    decreases |b|
  {
    if b == [] {
      assert a + b == a;
    } else {
      var init, last := b[..|b| - 1], b[|b| - 1];
      AttributesTextAppend(a, init);
      InitOfAppend(a, b);
      var x, y, z := AttributesText(a), AttributesText(init), AttributeText(last);
      assert AttributesText(a + b) == x + y + z;
      Regroup(x, y, z);
    }
  }

  /** Insertion order: the `i`-th attribute's ` key="value"` comes after
      those of the attributes before it and before those after it. */
  lemma AttributeInPlace(attributes: seq<Attribute>, i: nat)
    requires i < |attributes|
    ensures AttributesText(attributes) ==
      AttributesText(attributes[..i]) + AttributeText(attributes[i]) + AttributesText(attributes[i + 1..])
  {
    AttributesTextSplit(attributes, i + 1);
    AttributesPrefixStep(attributes, i);
  }

  /** Dropping the last element of `a + b`, for a non-empty `b`. */
  lemma InitOfAppend<T>(a: seq<T>, b: seq<T>)
    requires b != []
    ensures (a + b)[..|a + b| - 1] == a + b[..|b| - 1]
    ensures (a + b)[|a + b| - 1] == b[|b| - 1]
  {
  }

  /** A sequence is its part before `k` followed by its part from `k`. */
  lemma Reassembled<T>(s: seq<T>, k: nat)
    requires k <= |s|
    ensures s[..k] + s[k..] == s
  {
  }

  /** The attributes before and from position `k`. */
  lemma AttributesTextSplit(attributes: seq<Attribute>, k: nat)
    requires k <= |attributes|
    ensures AttributesText(attributes) == AttributesText(attributes[..k]) + AttributesText(attributes[k..])
  {
    Reassembled(attributes, k);
    AttributesTextAppend(attributes[..k], attributes[k..]);
  }

  /** One more attribute of a prefix. */
  lemma AttributesPrefixStep(attributes: seq<Attribute>, i: nat)
    requires i < |attributes|
    ensures AttributesText(attributes[..i + 1]) == AttributesText(attributes[..i]) + AttributeText(attributes[i])
  {
    assert attributes[..i + 1][..i] == attributes[..i];
  }

  /** Children render piecewise. */
  lemma {:induction false} RenderedAllAppend(a: seq<Component>, b: seq<Component>)
    ensures RenderedAll(a + b) == RenderedAll(a) + RenderedAll(b)
    decreases |b|
  {
    if b == [] {
      assert a + b == a;
    } else {
      var init, last := b[..|b| - 1], b[|b| - 1];
      RenderedAllAppend(a, init);
      InitOfAppend(a, b);
      var x, y, z := RenderedAll(a), RenderedAll(init), Rendered(last);
      assert RenderedAll(a + b) == (x + y) + z;
      Regroup(x, y, z);
    }
  }

  /** Child order: the `i`-th child's text comes after the texts of the
      children before it and before those of the children after it. */
  lemma ChildInPlace(children: seq<Component>, i: nat)
    requires i < |children|
    ensures RenderedAll(children) ==
      RenderedAll(children[..i]) + Rendered(children[i]) + RenderedAll(children[i + 1..])
  {
    RenderedAllSplit(children, i + 1);
    ChildrenPrefixStep(children, i);
  }

  /** The children before and from position `k`. */
  lemma RenderedAllSplit(children: seq<Component>, k: nat)
    requires k <= |children|
    ensures RenderedAll(children) == RenderedAll(children[..k]) + RenderedAll(children[k..])
  {
    Reassembled(children, k);
    RenderedAllAppend(children[..k], children[k..]);
  }

  /** One more child of a prefix. */
  lemma ChildrenPrefixStep(children: seq<Component>, i: nat)
    requires i < |children|
    ensures RenderedAll(children[..i + 1]) == RenderedAll(children[..i]) + Rendered(children[i])
  {
    assert children[..i + 1][..i] == children[..i];
  }
}
