/**
 * Whole runs of the renderer: a template is rendered into an empty container
 * and the subscriptions the render made then receive emissions.
 */
module Scenarios {

  import opened ReactiveContext
  import opened Descriptor
  import opened HostTree
  import opened Rendering

  /**
   * A `div` bound to a counter stream that emits 0, 1 and 2, rendered into an
   * empty `body`: the div is the body's only child and ends with a single
   * text node reading "2", never accumulating earlier values.
   */
  method CounterScenario() returns (r: Renderer, body: NodeId, div: NodeId)
    ensures r.Valid() && IsElement(r.doc.nodes, body) && r.doc.nodes[body].kids == [div]
    ensures IsElement(r.doc.nodes, div) && r.subscriptions == [BindSub(div, External("counter"))]
    ensures ViewOf(r.doc.nodes, r.doc.next, div) == ElementView("div", [TextView("2")])
  {
    var doc := new Document();
    body := doc.CreateElement("body");
    r := new Renderer(doc, body);
    var node := Element("div", map["bind" := "counter"], []);
    var cmp := CreateComponent(node, Root(map["counter" := External("counter")]));
    ghost var added := r.Render(cmp);
    div := 1;
    assert Rendered(node) == [ElementView("div", [])];
    assert r.doc.nodes[body].kids == [div];
    ViewsSingle(r.doc.nodes, r.doc.next, div, 0);
    assert r.doc.nodes[div].tag == "div";
    assert r.subscriptions == [BindSub(div, External("counter"))];
    r.OnBindEmit(0, "0");
    r.OnBindEmit(0, "1");
    r.OnBindEmit(0, "2");
  }

  /** The list scenario's template: a repeated `span` bound to `nextVal`. */
  function ListTemplate(): (node: Node)
    ensures IsRepeat(node) && node.attrs["repeat"] == "arr"
  {
    Element("span", map["repeat" := "arr", "bind" := "nextVal"], [])
  }

  /**
   * The list template rendered into an empty `body`: nothing is appended yet,
   * and the only subscription is the repeat's, on the body.
   */
  method ListRendered() returns (r: Renderer, body: NodeId)
    ensures fresh(r.doc) && r.Valid() && body == 0 && r.doc.next == 1 && IsElement(r.doc.nodes, body)
    ensures r.subscriptions == [RepeatSub(body, Template(ListTemplate()), Root(map["arr" := External("arr")]), External("arr"))]
  {
    var doc := new Document();
    body := doc.CreateElement("body");
    r := new Renderer(doc, body);
    var node := ListTemplate();
    var ctx := Root(map["arr" := External("arr")]);
    ghost var added := r.Render(CreateComponent(node, ctx));
    assert Size(node) == 0;
  }

  /**
   * The list template rendered into an empty `body` under an array stream that
   * then emits two entries: the body holds exactly two empty spans, the
   * instances 0 and 1 with ids 1 and 2, and instance `i`'s span is subscribed
   * to entry `i`, after the repeat subscription itself.
   */
  method ListEmitted() returns (r: Renderer, body: NodeId)
    ensures fresh(r.doc) && r.Valid() && body == 0 && r.doc.next == 3
    ensures IsElement(r.doc.nodes, body) && r.doc.nodes[body].kids == [1, 2]
    ensures 1 in r.doc.nodes && 2 in r.doc.nodes
    ensures r.doc.nodes[1] == ElementNode("span", []) && r.doc.nodes[2] == ElementNode("span", [])
    ensures ViewOf(r.doc.nodes, r.doc.next, body).children == [ElementView("span", []), ElementView("span", [])]
    ensures r.subscriptions == [RepeatSub(body, Template(ListTemplate()), Root(map["arr" := External("arr")]), External("arr")),
                                BindSub(1, External("a")), BindSub(2, External("b"))]
  {
    r, body := ListRendered();
    var node := ListTemplate();
    var ctx := Root(map["arr" := External("arr")]);
    var values := [External("a"), External("b")];
    ListWiring(node, ctx, body, values);
    assert |values| == 2;
    ghost var sub := r.subscriptions[0];
    ghost var added := r.OnRepeatEmit(0, values);
    assert r.subscriptions == [RepeatSub(body, Template(node), ctx, External("arr"))]
                              + [BindSub(1, External("a")), BindSub(2, External("b"))];
    ghost var m, next := r.doc.nodes, r.doc.next;
    var t := Template(node);
    assert sub.template == t && sub.parent == body;
    assert Instances(Rendered(t), 1) == [ElementView("span", [])];
    assert Instances(Rendered(t), 2) == [ElementView("span", []), ElementView("span", [])];
    assert ViewsOf(m, next, added, 0) == [ElementView("span", []), ElementView("span", [])];
    assert InstanceRoots(added, 1, 1) && |added| == 2;
    assert added[0] == 1 && added[1] == 2;
    assert added == [1, 2];
    TwoViews(m, next, 1, 2, 0);
    EmptySpan(m, next, 1);
    EmptySpan(m, next, 2);
    ListViews(m, next);
  }

  /**
   * After the list scenario's emission, an emission on the second span's
   * subscription fills that span alone: the first stays empty.
   */
  method ListScenario() returns (r: Renderer, body: NodeId)
    ensures r.Valid() && IsElement(r.doc.nodes, body) && r.doc.nodes[body].kids == [1, 2]
    ensures |r.subscriptions| == 3 && r.subscriptions[2] == BindSub(2, External("b"))
    ensures ViewOf(r.doc.nodes, r.doc.next, body).children
         == [ElementView("span", []), ElementView("span", [TextView("b!")])]
  {
    r, body := ListEmitted();
    r.OnBindEmit(2, "b!");
    ViewsSingle(r.doc.nodes, r.doc.next, 3, 2);
    ListViews(r.doc.nodes, r.doc.next);
  }

  /** The contents of two subtrees side by side. */
  lemma TwoViews(m: map<NodeId, HostNode>, bound: nat, x: NodeId, y: NodeId, above: int)
    requires WellFormed(m, bound) && x in m && y in m && above < x && above < y
    ensures ViewsOf(m, bound, [x, y], above) == [ViewOf(m, bound, x), ViewOf(m, bound, y)]
  {
    assert [x, y][..1] == [x] && [x][..0] == [];
  }

  /** A node whose content is an empty `span` is a childless `span` element. */
  lemma EmptySpan(m: map<NodeId, HostNode>, bound: nat, id: NodeId)
    requires WellFormed(m, bound) && id in m && ViewOf(m, bound, id) == ElementView("span", [])
    ensures m[id] == ElementNode("span", [])
  {
    assert |ViewsOf(m, bound, m[id].kids, id)| == 0;
  }

  /** The content of a body (id 0) holding the spans 1 and 2. */
  lemma ListViews(m: map<NodeId, HostNode>, bound: nat)
    requires WellFormed(m, bound) && 0 in m && m[0].ElementNode? && m[0].kids == [1, 2]
    requires 1 in m && m[1] == ElementNode("span", []) && 2 in m && m[2].ElementNode?
    ensures ViewOf(m, bound, 0).children == [ElementView("span", []), ViewOf(m, bound, 2)]
  {
    TwoViews(m, bound, 1, 2, 0);
    assert [1][..0] == [];
    assert ViewOf(m, bound, 1) == ElementView("span", []);
  }

  /** The template of the list scenario, its size and the subscriptions its two instances make. */
  lemma ListWiring(node: Node, ctx: Context, body: NodeId, values: seq<Value>)
    requires node == ListTemplate()
    requires values == [External("a"), External("b")]
    ensures Template(node) == Element("span", map["bind" := "nextVal"], [])
    ensures WellBound(Template(node), Names(ctx) + InstanceNames) && Size(Template(node)) == 1
    ensures Rendered(Template(node)) == [ElementView("span", [])]
    ensures RepeatWiring(Template(node), ctx, body, values, 2, 1) == [BindSub(1, External("a")), BindSub(2, External("b"))]
  {
    var t := Template(node);
    assert t.attrs == map["bind" := "nextVal"];
    assert SizeSeq(t.children) == 0;
    assert Wiring(t, Instance(ctx, values[0], 0), body, 1) == [BindSub(1, External("a"))];
    assert Wiring(t, Instance(ctx, values[1], 1), body, 2) == [BindSub(2, External("b"))];
    assert RepeatWiring(t, ctx, body, values, 1, 1) == [] + [BindSub(1, External("a"))];
    assert RepeatWiring(t, ctx, body, values, 2, 1)
        == RepeatWiring(t, ctx, body, values, 1, 1) + [BindSub(2, External("b"))];
  }
}
