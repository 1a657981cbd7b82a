/**
 * Node descriptors: the parsed template tree the renderer walks. An element
 * carries its tag name, its attributes (among them the `repeat` and `bind`
 * directives) and its child nodes; a text node carries its text.
 */
module Descriptor {

  datatype Node =
    | Text(value: string)
    | Element(name: string, attrs: map<string, string>, children: seq<Node>)

  /** The tags the renderer creates an element for. */
  predicate IsKnown(name: string)
  {
    name == "div" || name == "span"
  }

  /** An element whose attributes include `repeat`. */
  predicate IsRepeat(node: Node)
  {
    node.Element? && "repeat" in node.attrs
  }

  /**
   * The per-item template of a repeated node: a deep copy of the node with its
   * `repeat` attribute removed, so that rendering it never subscribes again.
   */
  function Template(node: Node): (t: Node)
    requires IsRepeat(node)
    ensures t.Element? && !IsRepeat(t)
    ensures t.name == node.name && t.children == node.children
    ensures forall k :: k in t.attrs <==> k in node.attrs && k != "repeat"
    ensures forall k :: k in t.attrs ==> t.attrs[k] == node.attrs[k]
  {
    Element(node.name, node.attrs - {"repeat"}, node.children)
  }

  /**
   * What rendering `node` with context names `names` looks up: the key of a
   * `repeat` directive (its template's keys are looked up only when an
   * emission renders an instance), and the key of every `bind` directive,
   * which only stands on a tag that yields an element. Nodes the renderer
   * never reaches (children of an unknown tag) are unconstrained.
   */
  predicate WellBound(node: Node, names: set<string>)
    decreases node
  {
    match node
    case Text(_) => true
    case Element(name, attrs, kids) =>
      if "repeat" in attrs then attrs["repeat"] in names
      else
        && ("bind" in attrs ==> IsKnown(name) && attrs["bind"] in names)
        && (IsKnown(name) ==> forall k :: k in kids ==> WellBound(k, names))
  }
}
