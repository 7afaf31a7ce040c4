/** The element builders of `lithe-core`: an `Element` and a `VoidElement`
    hold a tag and attributes (an `Element` also children), the builder
    methods push onto those lists in place, and the tag functions create
    elements with nothing in them yet. */
module Elements {
  import opened Markup
  import opened Text

  /** `Element`: a tag with attributes and children. */
  class Element {
    var tag: string
    var attributes: seq<Attribute>
    var children: seq<Component>

    /** `Element::new`: no attributes, no children. */
    constructor (tag: string)
      ensures this.tag == tag && attributes == [] && children == []
    {
      this.tag := tag;
      attributes := [];
      children := [];
    }

    /** The component this element is. */
    function View(): Component
      reads this
    {
      Elem(tag, attributes, children)
    }

    /** `set_attribute`: one `(key, value)` pair more, at the end; tag and
        children unchanged. */
    method SetAttribute(key: string, value: string)
      modifies this
      ensures attributes == old(attributes) + [(key, value)]
      ensures tag == old(tag) && children == old(children)
    {
      attributes := attributes + [(key, value)];
    }

    /** `child`: one child more, at the end; tag and attributes unchanged.
        The child is moved into the element, so it is held as a value. */
    method Child(c: Component)
      modifies this
      ensures children == old(children) + [c]
      ensures tag == old(tag) && attributes == old(attributes)
    {
      children := children + [c];
    }
  }

  /** `VoidElement`: a tag with attributes and no children. */
  class VoidElement {
    var tag: string
    var attributes: seq<Attribute>

    /** `VoidElement::new`: no attributes. */
    constructor (tag: string)
      ensures this.tag == tag && attributes == []
    {
      this.tag := tag;
      attributes := [];
    }

    /** The component this element is. */
    function View(): Component
      reads this
    {
      Void(tag, attributes)
    }
  }

  method Div() returns (e: Element)
    ensures fresh(e) && e.View() == Elem("div", [], [])
  {
    e := new Element("div");
  }

  method Span() returns (e: Element)
    ensures fresh(e) && e.View() == Elem("span", [], [])
  {
    e := new Element("span");
  }

  method P() returns (e: Element)
    ensures fresh(e) && e.View() == Elem("p", [], [])
  {
    e := new Element("p");
  }

  method A() returns (e: Element)
    ensures fresh(e) && e.View() == Elem("a", [], [])
  {
    e := new Element("a");
  }

  method Br() returns (e: VoidElement)
    ensures fresh(e) && e.View() == Void("br", [])
  {
    e := new VoidElement("br");
  }

  method Img() returns (e: VoidElement)
    ensures fresh(e) && e.View() == Void("img", [])
  {
    e := new VoidElement("img");
  }

  /** A new element renders as an opening tag directly followed by its
      closing tag, a new void element as a self-closed tag. */
  lemma FreshElementsRender()
    ensures Rendered(Elem("div", [], [])) == "<div></div>"
    ensures Rendered(Elem("span", [], [])) == "<span></span>"
    ensures Rendered(Elem("p", [], [])) == "<p></p>"
    ensures Rendered(Elem("a", [], [])) == "<a></a>"
    ensures Rendered(Void("br", [])) == "<br />"
    ensures Rendered(Void("img", [])) == "<img />"
  {
  }

  /** What `set_attribute` does to the markup: ` key="value"` appears right
      before the `>` that ends the opening tag, and nothing else changes. */
  lemma SetAttributeRendering(tag: string, attributes: seq<Attribute>, children: seq<Component>, key: string, value: string)
    ensures Rendered(Elem(tag, attributes + [(key, value)], children)) ==
      OpenTag(tag, attributes) + " " + key + "=\"" + value + "\"" + ">" + RenderedAll(children) + "</" + tag + ">"
  {
    assert (attributes + [(key, value)])[..|attributes|] == attributes;
    Regroup("<" + tag, AttributesText(attributes), AttributeText((key, value)));
    AppendAttribute(OpenTag(tag, attributes), (key, value));
  }

  /** What `child` does to the markup: the child's text appears right before
      the closing tag, and nothing else changes. */
  lemma ChildRendering(tag: string, attributes: seq<Attribute>, children: seq<Component>, c: Component)
    ensures Rendered(Elem(tag, attributes, children + [c])) ==
      OpenTag(tag, attributes) + ">" + RenderedAll(children) + Rendered(c) + "</" + tag + ">"
  {
    assert (children + [c])[..|children|] == children;
    Regroup(OpenTag(tag, attributes) + ">", RenderedAll(children), Rendered(c));
  }

  /** A void element never has a closing tag: its text ends in ` />`. */
  lemma VoidSelfClosed(tag: string, attributes: seq<Attribute>)
    ensures EndsWith(Rendered(Void(tag, attributes)), " />")
  {
  }
}
