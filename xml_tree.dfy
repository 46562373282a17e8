/**
 * The document a `DOMParser` hands to the XML import, as an element tree, and
 * the DOM queries the import uses on it: `querySelector`, `querySelectorAll`,
 * `textContent` and `getAttribute`. The serialisation of a tree as markup
 * (with no escaping) is here too, for the export.
 */
module XmlTree {
  import opened Wrappers

  datatype Attr = Attr(name: string, value: string)

  datatype Node =
    | Element(tag: string, attrs: seq<Attr>, children: seq<Node>)
    | Text(text: string)

  /** The ancestor tag of the selectors `correctOrder one` ... `correctOrder four`. */
  const OrderTag := "correctOrder"

  /** The two kinds of selector the import uses: a tag name, and a tag name below a `correctOrder` element. */
  datatype Selector = Tag(name: string) | InOrder(name: string)

  /** An element met in document order, and whether some ancestor of it is a `correctOrder` element. */
  datatype Located = Located(node: Node, underOrder: bool)

  /**
   * The elements of a forest in document (pre-)order; `underOrder` says
   * whether an ancestor above the forest is a `correctOrder` element.
   */
  function Walk(ns: seq<Node>, underOrder: bool): (r: seq<Located>)
    decreases ns
  {
    if ns == [] then []
    else match ns[0]
      case Text(_) => Walk(ns[1..], underOrder)
      case Element(tag, _, children) =>
        [Located(ns[0], underOrder)] + Walk(children, underOrder || tag == OrderTag) + Walk(ns[1..], underOrder)
  }

  /** The elements strictly below `l`'s element, in document order. */
  function Below(l: Located): seq<Located> {
    match l.node
    case Text(_) => []
    case Element(tag, _, children) => Walk(children, l.underOrder || tag == OrderTag)
  }

  /** The document's own elements: `document.querySelector` also sees the root. */
  function DocumentElements(root: Node): seq<Located> {
    Walk([root], false)
  }

  predicate Matches(l: Located, sel: Selector) {
    match sel
    case Tag(name) => l.node.Element? && l.node.tag == name
    case InOrder(name) => l.node.Element? && l.node.tag == name && l.underOrder
  }

  /** `querySelector(sel)` over the elements `ls`: the first that matches. */
  function First(ls: seq<Located>, sel: Selector): (r: Option<Located>)
    ensures r.Some? ==> Matches(r.value, sel) && r.value in ls
    ensures r.None? <==> forall i :: 0 <= i < |ls| ==> !Matches(ls[i], sel)
  {
    if ls == [] then None
    else if Matches(ls[0], sel) then Some(ls[0])
    else
      assert forall i :: 1 <= i < |ls| ==> ls[i] == ls[1..][i - 1];
      First(ls[1..], sel)
  }

  /** `querySelectorAll(sel)` over the elements `ls`: every match, in order. */
  function All(ls: seq<Located>, sel: Selector): (r: seq<Located>)
    ensures |r| <= |ls|
    ensures forall i :: 0 <= i < |r| ==> Matches(r[i], sel) && r[i] in ls
    ensures forall i :: 0 <= i < |ls| && Matches(ls[i], sel) ==> ls[i] in r
  {
    if ls == [] then []
    else All(ls[..|ls| - 1], sel) + (if Matches(ls[|ls| - 1], sel) then [ls[|ls| - 1]] else [])
  }

  /** `textContent`: the concatenated text below a node. */
  function TextContent(n: Node): string {
    match n
    case Text(t) => t
    case Element(_, _, children) => ForestText(children)
  }

  function ForestText(ns: seq<Node>): string
    decreases ns
  {
    if ns == [] then ""
    else match ns[0]
      case Text(t) => t + ForestText(ns[1..])
      case Element(_, _, children) => ForestText(children) + ForestText(ns[1..])
  }

  /** `getAttribute(name)`, with a missing attribute as `None`. */
  function GetAttribute(n: Node, name: string): (r: Option<string>)
    ensures r.Some? ==> n.Element? && exists i :: 0 <= i < |n.attrs| && n.attrs[i] == Attr(name, r.value)
    ensures r.None? ==> !n.Element? || forall i :: 0 <= i < |n.attrs| ==> n.attrs[i].name != name
  {
    if n.Text? then None else AttrValue(n.attrs, name)
  }

  function AttrValue(attrs: seq<Attr>, name: string): (r: Option<string>)
    ensures r.Some? ==> exists i :: 0 <= i < |attrs| && attrs[i] == Attr(name, r.value)
    ensures r.None? ==> forall i :: 0 <= i < |attrs| ==> attrs[i].name != name
  {
    if attrs == [] then None
    else if attrs[0].name == name then Some(attrs[0].value)
    else
      var r := AttrValue(attrs[1..], name);
      assert forall i :: 1 <= i < |attrs| ==> attrs[i] == attrs[1..][i - 1];
      assert r.Some? ==> attrs[1..][0] == attrs[1];
      r
  }

  // ----- markup ------------------------------------------------------------------

  /** Markup for a forest: tags around their children, text as it is (nothing escaped). */
  function Serialize(ns: seq<Node>): string
    decreases ns
  {
    if ns == [] then ""
    else match ns[0]
      case Text(t) => t + Serialize(ns[1..])
      case Element(tag, attrs, children) =>
        "<" + tag + AttrsText(attrs) + ">" + Serialize(children) + "</" + tag + ">" + Serialize(ns[1..])
  }

  /** ` name="value"` for each attribute. */
  function AttrsText(attrs: seq<Attr>): string {
    if attrs == [] then "" else " " + attrs[0].name + "=\"" + attrs[0].value + "\"" + AttrsText(attrs[1..])
  }

  // ----- lemmas --------------------------------------------------------------------

  /** Walking two forests one after the other. */
  lemma {:induction false} WalkAppend(a: seq<Node>, b: seq<Node>, underOrder: bool)
    ensures Walk(a + b, underOrder) == Walk(a, underOrder) + Walk(b, underOrder)
  {
    if a == [] {
      assert a + b == b;
    } else {
      assert (a + b)[0] == a[0] && (a + b)[1..] == a[1..] + b;
      WalkAppend(a[1..], b, underOrder);
    }
  }

  lemma WalkOne(n: Node, underOrder: bool)
    ensures Walk([n], underOrder) ==
      if n.Text? then [] else [Located(n, underOrder)] + Walk(n.children, underOrder || n.tag == OrderTag)
  {
    assert [n][1..] == [];
  }

  /** The first match in two runs of elements. */
  lemma {:induction false} FirstAppend(a: seq<Located>, b: seq<Located>, sel: Selector)
    ensures First(a + b, sel) == if First(a, sel).Some? then First(a, sel) else First(b, sel)
  {
    if a == [] {
      assert a + b == b;
    } else {
      assert (a + b)[0] == a[0] && (a + b)[1..] == a[1..] + b;
      FirstAppend(a[1..], b, sel);
    }
  }

  /** Every match in two runs of elements. */
  lemma {:induction false} AllAppend(a: seq<Located>, b: seq<Located>, sel: Selector)
    ensures All(a + b, sel) == All(a, sel) + All(b, sel)
    decreases |b|
  {
    if b == [] {
      assert a + b == a;
    } else {
      var init := b[..|b| - 1];
      var last := if Matches(b[|b| - 1], sel) then [b[|b| - 1]] else [];
      assert (a + b)[..|a + b| - 1] == a + init;
      assert (a + b)[|a + b| - 1] == b[|b| - 1];
      AllAppend(a, init, sel);
      assert All(a + b, sel) == All(a, sel) + All(init, sel) + last;
      LocatedRegroup(All(a, sel), All(init, sel), last);
    }
  }

  lemma LocatedRegroup(x: seq<Located>, y: seq<Located>, z: seq<Located>)
    ensures x + y + z == x + (y + z)
  {
  }

  lemma {:induction false} SerializeAppend(a: seq<Node>, b: seq<Node>)
    ensures Serialize(a + b) == Serialize(a) + Serialize(b)
  {
    if a == [] {
      assert a + b == b;
    } else {
      assert (a + b)[0] == a[0] && (a + b)[1..] == a[1..] + b;
      SerializeAppend(a[1..], b);
    }
  }

  lemma {:induction false} ForestTextAppend(a: seq<Node>, b: seq<Node>)
    ensures ForestText(a + b) == ForestText(a) + ForestText(b)
  {
    if a == [] {
      assert a + b == b;
    } else {
      assert (a + b)[0] == a[0] && (a + b)[1..] == a[1..] + b;
      ForestTextAppend(a[1..], b);
    }
  }
}
