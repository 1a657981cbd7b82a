/**
 * The host UI tree the renderer writes into (the browser document), as an
 * arena: node ids map to element or text nodes, and an element lists its
 * children's ids in order. Nodes are never deleted from the arena; a removed
 * child is only detached from its parent, as in the DOM.
 */
module HostTree {

  type NodeId = nat

  datatype HostNode =
    | ElementNode(tag: string, kids: seq<NodeId>)
    | TextNode(text: string)

  /** The content of a subtree, independent of node identities. */
  datatype View =
    | ElementView(tag: string, children: seq<View>)
    | TextView(text: string)

  predicate IsElement(m: map<NodeId, HostNode>, id: NodeId)
  {
    id in m && m[id].ElementNode?
  }

  /**
   * Every id is below the allocation bound, every child is in the arena, and a
   * child's id is greater than its parent's (nodes are appended only after
   * they are created), so the parent relation has no cycles.
   */
  ghost predicate WellFormed(m: map<NodeId, HostNode>, bound: nat)
  {
    && (forall id :: id in m ==> id < bound)
    && (forall id, j :: id in m && m[id].ElementNode? && 0 <= j < |m[id].kids| ==>
          m[id].kids[j] in m && id < m[id].kids[j])
  }

  /** No element lists `c` as a child. */
  ghost predicate Detached(m: map<NodeId, HostNode>, c: NodeId)
  {
    forall p, j :: p in m && m[p].ElementNode? && 0 <= j < |m[p].kids| ==> m[p].kids[j] != c
  }

  function AppendKid(h: HostNode, c: NodeId): (r: HostNode)
    requires h.ElementNode?
    ensures r.ElementNode? && r.tag == h.tag && r.kids == h.kids + [c]
  {
    ElementNode(h.tag, h.kids + [c])
  }

  /** `m` with `ids` appended, in order, to the children of element `p`; nothing else changes. */
  function Attach(m: map<NodeId, HostNode>, p: NodeId, ids: seq<NodeId>): (r: map<NodeId, HostNode>)
    requires IsElement(m, p)
    ensures r.Keys == m.Keys && IsElement(r, p) && r[p].tag == m[p].tag && r[p].kids == m[p].kids + ids
    ensures forall id :: id in m && id != p ==> r[id] == m[id]
  {
    m[p := ElementNode(m[p].tag, m[p].kids + ids)]
  }

  /** The content of the subtree rooted at `id`. */
  ghost function ViewOf(m: map<NodeId, HostNode>, bound: nat, id: NodeId): (v: View)
    requires WellFormed(m, bound) && id in m
    decreases bound - id, 1, 0
  {
    match m[id]
    case TextNode(s) => TextView(s)
    case ElementNode(tag, kids) => ElementView(tag, ViewsOf(m, bound, kids, id))
  }

  /** The contents of the subtrees rooted at `ids`, in order; all ids lie above `above`. */
  ghost function ViewsOf(m: map<NodeId, HostNode>, bound: nat, ids: seq<NodeId>, above: int): (r: seq<View>)
    requires WellFormed(m, bound)
    requires forall c :: c in ids ==> c in m && above < c
    ensures |r| == |ids|
    decreases bound - above, 0, |ids|
  {
    if ids == [] then []
    else
      var init, last := ids[..|ids| - 1], ids[|ids| - 1];
      assert last in ids && forall c :: c in init ==> c in ids;
      assert forall c :: c in init ==> c in m && above < c;
      ViewsOf(m, bound, init, above) + [ViewOf(m, bound, last)]
  }

  /** The contents of a single subtree. */
  lemma ViewsSingle(m: map<NodeId, HostNode>, bound: nat, id: NodeId, above: int)
    requires WellFormed(m, bound) && id in m && above < id
    ensures ViewsOf(m, bound, [id], above) == [ViewOf(m, bound, id)]
  {
    assert [id][..0] == [];
  }

  /** The contents of a concatenation of id lists is the concatenation of their contents. */
  lemma {:induction false} ViewsAppend(m: map<NodeId, HostNode>, bound: nat, xs: seq<NodeId>, ys: seq<NodeId>, a: int, b: int)
    requires WellFormed(m, bound)
    requires forall c :: c in xs ==> c in m && a < c
    requires forall c :: c in ys ==> c in m && a < c && b < c
    ensures ViewsOf(m, bound, xs + ys, a) == ViewsOf(m, bound, xs, a) + ViewsOf(m, bound, ys, b)
    decreases |ys|
  {
    if ys == [] {
      assert xs + ys == xs;
    } else {
      var init := ys[..|ys| - 1];
      assert (xs + ys)[..|xs + ys| - 1] == xs + init;
      assert forall c :: c in init ==> c in ys;
      ViewsAppend(m, bound, xs, init, a, b);
    }
  }

  /**
   * The document: the node arena and the next id `createElement` or
   * `createTextNode` hands out.
   */
  class Document {
    var nodes: map<NodeId, HostNode>
    var next: NodeId

    ghost predicate Valid()
      reads this
    {
      WellFormed(nodes, next)
    }

    constructor ()
      ensures Valid() && nodes == map[] && next == 0
    {
      nodes := map[];
      next := 0;
    }

    /** A new, detached element with no children. */
    method CreateElement(tag: string) returns (id: NodeId)
      requires Valid()
      modifies this
      ensures Valid()
      ensures id == old(next) && next == old(next) + 1
      ensures nodes == old(nodes)[id := ElementNode(tag, [])]
      ensures Detached(nodes, id)
    {
      id := next;
      nodes := nodes[id := ElementNode(tag, [])];
      next := next + 1;
    }

    /** A new, detached text node. */
    method CreateTextNode(text: string) returns (id: NodeId)
      requires Valid()
      modifies this
      ensures Valid()
      ensures id == old(next) && next == old(next) + 1
      ensures nodes == old(nodes)[id := TextNode(text)]
      ensures Detached(nodes, id)
    {
      id := next;
      nodes := nodes[id := TextNode(text)];
      next := next + 1;
    }

    /** Makes the detached node `child` the last child of `parent`. */
    method AppendChild(parent: NodeId, child: NodeId)
      requires Valid() && IsElement(nodes, parent)
      requires child in nodes && parent < child && Detached(nodes, child)
      modifies this
      ensures Valid() && next == old(next)
      ensures nodes == old(nodes)[parent := AppendKid(old(nodes[parent]), child)]
    {
      nodes := nodes[parent := AppendKid(nodes[parent], child)];
    }

    /** Detaches the first child of `parent`. */
    method RemoveFirstChild(parent: NodeId)
      requires Valid() && IsElement(nodes, parent) && nodes[parent].kids != []
      modifies this
      ensures Valid() && next == old(next)
      ensures nodes == old(nodes)[parent := ElementNode(old(nodes[parent].tag), old(nodes[parent].kids[1..]))]
    {
      nodes := nodes[parent := ElementNode(nodes[parent].tag, nodes[parent].kids[1..])];
    }

    function HasChildNodes(id: NodeId): (b: bool)
      reads this
      requires id in nodes
      ensures b <==> nodes[id].ElementNode? && |nodes[id].kids| > 0
    {
      nodes[id].ElementNode? && nodes[id].kids != []
    }
  }
}
