/**
 * The renderer: it walks a node descriptor and appends what it describes to a
 * parent element of the document, subscribing `bind` and `repeat` directives to
 * the streams their keys name in the context. Stream emissions reach it later,
 * one at a time, through OnBindEmit and OnRepeatEmit.
 */
module Rendering {

  import opened ReactiveContext
  import opened Descriptor
  import opened HostTree

  /** A template paired with the context it is rendered under. */
  datatype Component = Component(root: Node, context: Context)

  /** `ComponentFactory.create`: pairs a template with its context. */
  function CreateComponent(root: Node, context: Context): (c: Component)
    ensures c.root == root && c.context == context
  {
    Component(root, context)
  }

  /**
   * A subscription the renderer made. A `bind` subscription keeps the element
   * whose text it replaces; a `repeat` subscription keeps the parent it
   * re-fills, the per-item template and the context instances extend.
   */
  datatype Subscription =
    | BindSub(element: NodeId, stream: Value)
    | RepeatSub(parent: NodeId, template: Node, context: Context, stream: Value)

  /**
   * The content rendering `node` appends to its parent: a text node for a text
   * node, one element holding its rendered children for a `div` or `span`, and
   * nothing for a repeated node (its instances come with the emissions) or an
   * unknown tag.
   */
  function Rendered(node: Node): (r: seq<View>)
    ensures |r| <= 1
    decreases node
  {
    match node
    case Text(v) => [TextView(v)]
    case Element(name, attrs, kids) =>
      if "repeat" in attrs || !IsKnown(name) then []
      else [ElementView(name, RenderedSeq(kids))]
  }

  /** The content rendering `kids` in order appends; at most one entry per child. */
  function RenderedSeq(kids: seq<Node>): (r: seq<View>)
    ensures |r| <= |kids|
    decreases kids
  {
    if kids == [] then [] else RenderedSeq(kids[..|kids| - 1]) + Rendered(kids[|kids| - 1])
  }

  /** Rendering two runs of siblings one after the other renders their contents side by side. */
  lemma {:induction false} RenderedSeqConcat(a: seq<Node>, b: seq<Node>)
    ensures RenderedSeq(a + b) == RenderedSeq(a) + RenderedSeq(b)
    decreases |b|
  {
    if b == [] {
      assert a + b == a;
    } else {
      assert (a + b)[..|a + b| - 1] == a + b[..|b| - 1];
      RenderedSeqConcat(a, b[..|b| - 1]);
    }
  }

  /** The number of document nodes rendering `node` creates, and so the number of ids it takes. */
  function Size(node: Node): nat
    decreases node
  {
    match node
    case Text(_) => 1
    case Element(name, attrs, kids) =>
      if "repeat" in attrs || !IsKnown(name) then 0 else 1 + SizeSeq(kids)
  }

  /** The number of document nodes rendering `kids` creates. */
  function SizeSeq(kids: seq<Node>): nat
    decreases kids
  {
    if kids == [] then 0 else SizeSeq(kids[..|kids| - 1]) + Size(kids[|kids| - 1])
  }

  /**
   * Rendering a node creates at least as many document nodes as it appends to
   * its parent, and creates none exactly when it appends nothing.
   */
  lemma SizeCounts(node: Node)
    ensures |Rendered(node)| <= Size(node)
    ensures Size(node) == 0 <==> Rendered(node) == []
  {
  }

  /** The same for a run of siblings. */
  lemma {:induction false} SizeSeqCounts(kids: seq<Node>)
    ensures |RenderedSeq(kids)| <= SizeSeq(kids)
    ensures SizeSeq(kids) == 0 <==> RenderedSeq(kids) == []
    decreases kids
  {
    if kids != [] {
      SizeSeqCounts(kids[..|kids| - 1]);
      SizeCounts(kids[|kids| - 1]);
    }
  }

  /** The id of the node rendering `node` from id `b` appends to its parent: `b`, or none. */
  function Roots(node: Node, b: nat): seq<NodeId>
  {
    if Rendered(node) == [] then [] else [b]
  }

  /**
   * The ids of the nodes rendering `kids` from id `b` appends to their parent,
   * in order: each child's root, if it has one, at the first id its earlier
   * siblings left free.
   */
  function ChildRoots(kids: seq<Node>, b: nat): seq<NodeId>
    decreases kids
  {
    if kids == [] then []
    else
      var init := kids[..|kids| - 1];
      ChildRoots(init, b) + Roots(kids[|kids| - 1], b + SizeSeq(init))
  }

  /**
   * The nodes rendering `node` creates when the first free id is `b`, ids in
   * document order: a text node at `b`; for a `div` or `span`, the element at
   * `b` listing its rendered children's roots, then the nodes of those
   * children from `b + 1` on; nothing for a repeated node or an unknown tag.
   */
  function Built(node: Node, b: nat): map<NodeId, HostNode>
    decreases node
  {
    match node
    case Text(v) => map[b := TextNode(v)]
    case Element(name, attrs, kids) =>
      if "repeat" in attrs || !IsKnown(name) then map[]
      else BuiltSeq(kids, b + 1)[b := ElementNode(name, ChildRoots(kids, b + 1))]
  }

  /** The nodes rendering `kids` in order creates when the first free id is `b`. */
  function BuiltSeq(kids: seq<Node>, b: nat): map<NodeId, HostNode>
    decreases kids
  {
    if kids == [] then map[]
    else
      var init := kids[..|kids| - 1];
      BuiltSeq(init, b) + Built(kids[|kids| - 1], b + SizeSeq(init))
  }

  /**
   * The siblings' roots, one per node they append, come in id order within the
   * ids they take.
   */
  lemma {:induction false} ChildRootsBounds(kids: seq<Node>, b: nat)
    ensures |ChildRoots(kids, b)| == |RenderedSeq(kids)|
    ensures forall c :: c in ChildRoots(kids, b) ==> b <= c < b + SizeSeq(kids)
    decreases kids
  {
    if kids != [] {
      var init, last := kids[..|kids| - 1], kids[|kids| - 1];
      ChildRootsBounds(init, b);
      SizeCounts(last);
      assert ChildRoots(kids, b) == ChildRoots(init, b) + Roots(last, b + SizeSeq(init));
    }
  }

  /**
   * The nodes rendering `node` from id `b` creates take exactly the ids
   * `[b, b + Size(node))` it is given, and include the root it appends.
   */
  lemma {:induction false} BuiltBounds(node: Node, b: nat)
    ensures forall id :: id in Built(node, b) ==> b <= id < b + Size(node)
    ensures forall c :: c in Roots(node, b) ==> c in Built(node, b)
    decreases node
  {
    match node
    case Text(_) =>
    case Element(name, attrs, kids) =>
      if "repeat" !in attrs && IsKnown(name) {
        BuiltSeqBounds(kids, b + 1);
      }
  }

  /** The same for a run of siblings, which include all their roots. */
  lemma {:induction false} BuiltSeqBounds(kids: seq<Node>, b: nat)
    ensures forall id :: id in BuiltSeq(kids, b) ==> b <= id < b + SizeSeq(kids)
    ensures forall c :: c in ChildRoots(kids, b) ==> c in BuiltSeq(kids, b)
    decreases kids
  {
    if kids != [] {
      var init, last := kids[..|kids| - 1], kids[|kids| - 1];
      var mid := b + SizeSeq(init);
      BuiltSeqBounds(init, b);
      BuiltBounds(last, mid);
      assert BuiltSeq(kids, b) == BuiltSeq(init, b) + Built(last, mid);
      assert ChildRoots(kids, b) == ChildRoots(init, b) + Roots(last, mid);
    }
  }

  /** `n` copies of the content one instance renders, side by side. */
  function Instances(one: seq<View>, n: nat): (r: seq<View>)
  {
    if n == 0 then [] else Instances(one, n - 1) + one
  }

  /**
   * A `div` or `span` template renders exactly one element per array entry,
   * each holding the template's rendered children.
   */
  lemma {:induction false} InstancesOfElement(template: Node, n: nat)
    requires template.Element? && !IsRepeat(template) && IsKnown(template.name)
    ensures |Instances(Rendered(template), n)| == n
    ensures forall i :: 0 <= i < n ==>
      Instances(Rendered(template), n)[i] == ElementView(template.name, RenderedSeq(template.children))
  {
    if n > 0 {
      InstancesOfElement(template, n - 1);
    }
  }

  /** The subscription a `bind` directive on `node` adds for element `e`, if any. */
  function BindSubs(node: Node, ctx: Context, e: NodeId): (r: seq<Subscription>)
    requires node.Element? && "bind" in node.attrs ==> node.attrs["bind"] in Names(ctx)
    ensures |r| <= 1
  {
    if node.Element? && "bind" in node.attrs then [BindSub(e, Resolve(ctx, node.attrs["bind"]))] else []
  }

  /**
   * The subscriptions rendering `node` into `parent` under `ctx` makes, in
   * order, when the first free node id is `b`: for a repeated node, one
   * `repeat` subscription on `parent` (and nothing below it); for a `div` or
   * `span`, which takes id `b`, its `bind` subscription on `b`, then those of
   * its children rendered into `b` from id `b + 1` on.
   */
  function Wiring(node: Node, ctx: Context, parent: NodeId, b: nat): (r: seq<Subscription>)
    requires WellBound(node, Names(ctx))
    decreases node
  {
    match node
    case Text(_) => []
    case Element(name, attrs, kids) =>
      if "repeat" in attrs then [RepeatSub(parent, Template(node), ctx, Resolve(ctx, attrs["repeat"]))]
      else if !IsKnown(name) then []
      else BindSubs(node, ctx, b) + WiringSeq(kids, ctx, b, b + 1)
  }

  /**
   * The subscriptions rendering `kids` in order into `parent` makes: each child
   * starts at the first id its earlier siblings left free.
   */
  function WiringSeq(kids: seq<Node>, ctx: Context, parent: NodeId, b: nat): (r: seq<Subscription>)
    requires forall k :: k in kids ==> WellBound(k, Names(ctx))
    decreases kids
  {
    if kids == [] then []
    else
      assert forall k :: k in kids[..|kids| - 1] ==> k in kids;
      var init := kids[..|kids| - 1];
      WiringSeq(init, ctx, parent, b) + Wiring(kids[|kids| - 1], ctx, parent, b + SizeSeq(init))
  }

  /**
   * The subscriptions the first `n` instances of a repeat emission of `values`
   * make, when the first free id is `b`: instance `i` is rendered into `parent`
   * under the context binding `values[i]` and `i`, from id `b + i * Size(template)`.
   */
  function RepeatWiring(template: Node, ctx: Context, parent: NodeId, values: seq<Value>, n: nat, b: nat)
    : (r: seq<Subscription>)
    requires n <= |values| && (n > 0 ==> WellBound(template, Names(ctx) + InstanceNames))
  {
    if n == 0 then []
    else
      RepeatWiring(template, ctx, parent, values, n - 1, b)
      + Wiring(template, Instance(ctx, values[n - 1], n - 1), parent, b + (n - 1) * Size(template))
  }

  /** One more instance takes one more instance's worth of ids. */
  lemma MulStep(i: nat, size: nat)
    ensures (i + 1) * size == i * size + size
  {
  }

  /**
   * The first id of instance `i` of a repeat emission whose first free id is
   * `b`, each instance taking `size` ids; counted up instance by instance.
   */
  function InstanceStart(b: nat, i: nat, size: nat): (r: nat)
    ensures b <= r
  {
    if i == 0 then b else InstanceStart(b, i - 1, size) + size
  }

  /** Instance `i` starts `i * size` ids after the first. */
  lemma {:induction false} InstanceStartIs(b: nat, i: nat, size: nat)
    ensures InstanceStart(b, i, size) == b + i * size
  {
    if i > 0 {
      InstanceStartIs(b, i - 1, size);
      MulStep(i - 1, size);
    }
  }

  /**
   * The ids the first `n` instances of a repeat emission append to the
   * parent, when the first free id is `b`: instance `i`'s root, if the
   * template renders one, at the instance's first id.
   */
  function RepeatRoots(template: Node, n: nat, b: nat): seq<NodeId>
  {
    if n == 0 then [] else RepeatRoots(template, n - 1, b) + Roots(template, InstanceStart(b, n - 1, Size(template)))
  }

  /** The nodes the first `n` instances create, each instance from its own first id on. */
  function RepeatBuilt(template: Node, n: nat, b: nat): map<NodeId, HostNode>
  {
    if n == 0 then map[]
    else RepeatBuilt(template, n - 1, b) + Built(template, InstanceStart(b, n - 1, Size(template)))
  }

  /**
   * The nodes the first `n` instances create take the ids from `b` up to the
   * next instance's first id, and include every instance's root.
   */
  lemma {:induction false} RepeatBounds(template: Node, n: nat, b: nat)
    ensures forall id :: id in RepeatBuilt(template, n, b) ==> b <= id < InstanceStart(b, n, Size(template))
    ensures forall c :: c in RepeatRoots(template, n, b) ==> c in RepeatBuilt(template, n, b)
  {
    if n > 0 {
      var mid := InstanceStart(b, n - 1, Size(template));
      RepeatBounds(template, n - 1, b);
      BuiltBounds(template, mid);
      assert RepeatBuilt(template, n, b) == RepeatBuilt(template, n - 1, b) + Built(template, mid);
      assert RepeatRoots(template, n, b) == RepeatRoots(template, n - 1, b) + Roots(template, mid);
    }
  }

  /**
   * Rendering instance `i` after the first `i`: the ids taken and the
   * subscriptions made so far grow by that instance's.
   */
  lemma RepeatStep(template: Node, ctx: Context, parent: NodeId, values: seq<Value>, i: nat, b: nat,
                   subs0: seq<Subscription>, subsI: seq<Subscription>, subs2: seq<Subscription>, nI: nat, n2: nat)
    requires i < |values| && WellBound(template, Names(ctx) + InstanceNames)
    requires subsI == subs0 + RepeatWiring(template, ctx, parent, values, i, b) && nI == b + i * Size(template)
    requires subs2 == subsI + Wiring(template, Instance(ctx, values[i], i), parent, nI) && n2 == nI + Size(template)
    ensures n2 == b + (i + 1) * Size(template)
    ensures subs2 == subs0 + RepeatWiring(template, ctx, parent, values, i + 1, b)
  {
    var size, j := Size(template), i + 1;
    MulStep(i, size);
    assert j - 1 == i;
    assert RepeatWiring(template, ctx, parent, values, j, b)
        == RepeatWiring(template, ctx, parent, values, j - 1, b)
           + Wiring(template, Instance(ctx, values[j - 1], j - 1), parent, b + (j - 1) * size);
    SubsRegroup(subs0, RepeatWiring(template, ctx, parent, values, i, b),
                Wiring(template, Instance(ctx, values[i], i), parent, nI));
  }

  /** Laying out instance `i` after the first `i`: the roots and the nodes grow by that instance's. */
  lemma RepeatLaidStep(template: Node, i: nat, b: nat, nI: nat)
    requires nI == b + i * Size(template)
    ensures RepeatRoots(template, i + 1, b) == RepeatRoots(template, i, b) + Roots(template, nI)
    ensures RepeatBuilt(template, i + 1, b) == RepeatBuilt(template, i, b) + Built(template, nI)
  {
    var j := i + 1;
    InstanceStartIs(b, i, Size(template));
    assert j - 1 == i;
    assert RepeatRoots(template, j, b) == RepeatRoots(template, j - 1, b) + Roots(template, InstanceStart(b, j - 1, Size(template)));
    assert RepeatBuilt(template, j, b) == RepeatBuilt(template, j - 1, b) + Built(template, InstanceStart(b, j - 1, Size(template)));
  }

  /** Whether `s` targets `parent` or one of the nodes with ids in `[lo, hi)`. */
  predicate TargetsIn(s: Subscription, parent: NodeId, lo: nat, hi: nat)
  {
    match s
    case BindSub(e, _) => lo <= e < hi
    case RepeatSub(p, _, _, _) => p == parent || lo <= p < hi
  }

  /** Every subscription of `w` targets `parent` or a node with id in `[lo, hi)`. */
  predicate AllTargetIn(w: seq<Subscription>, parent: NodeId, lo: nat, hi: nat)
  {
    forall s :: s in w ==> TargetsIn(s, parent, lo, hi)
  }

  /** Two runs of subscriptions with the same targets, one after the other. */
  lemma TargetsConcat(w1: seq<Subscription>, w2: seq<Subscription>, parent: NodeId, lo: nat, hi: nat)
    requires AllTargetIn(w1, parent, lo, hi) && AllTargetIn(w2, parent, lo, hi)
    ensures AllTargetIn(w1 + w2, parent, lo, hi)
  {
  }

  /**
   * Subscriptions targeting `p` or `[lo, hi)` also target `parent` or any
   * range around `[lo, hi)` that holds `p` unless `p` is `parent`.
   */
  lemma TargetsWiden(w: seq<Subscription>, p: NodeId, lo: nat, hi: nat, parent: NodeId, lo2: nat, hi2: nat)
    requires AllTargetIn(w, p, lo, hi) && lo2 <= lo && hi <= hi2 && (p == parent || lo2 <= p < hi2)
    ensures AllTargetIn(w, parent, lo2, hi2)
  {
    forall s | s in w ensures TargetsIn(s, parent, lo2, hi2) {
      assert TargetsIn(s, p, lo, hi);
    }
  }

  /**
   * Every subscription rendering `node` makes targets a node the same render
   * creates, except a `repeat` subscription, which may also target `parent`.
   */
  lemma {:induction false} WiringTargets(node: Node, ctx: Context, parent: NodeId, b: nat)
    requires WellBound(node, Names(ctx))
    ensures AllTargetIn(Wiring(node, ctx, parent, b), parent, b, b + Size(node))
    decreases node, 1
  {
    match node
    case Text(_) =>
    case Element(name, attrs, kids) =>
      if "repeat" !in attrs && IsKnown(name) {
        WiringOfElement(node, ctx, parent, b);
        WiringSeqTargets(kids, ctx, b, b + 1);
        TargetsWiden(WiringSeq(kids, ctx, b, b + 1), b, b + 1, b + Size(node), parent, b, b + Size(node));
        assert AllTargetIn(BindSubs(node, ctx, b), parent, b, b + Size(node));
        TargetsConcat(BindSubs(node, ctx, b), WiringSeq(kids, ctx, b, b + 1), parent, b, b + Size(node));
      }
  }

  /** The same for a run of siblings, whose parent is `parent`. */
  lemma {:induction false} WiringSeqTargets(kids: seq<Node>, ctx: Context, parent: NodeId, b: nat)
    requires forall k :: k in kids ==> WellBound(k, Names(ctx))
    ensures AllTargetIn(WiringSeq(kids, ctx, parent, b), parent, b, b + SizeSeq(kids))
    decreases kids, 0
  {
    if kids != [] {
      var init, last := kids[..|kids| - 1], kids[|kids| - 1];
      assert last in kids && forall k :: k in init ==> k in kids;
      var mid := b + SizeSeq(init);
      WiringSeqTargets(init, ctx, parent, b);
      WiringTargets(last, ctx, parent, mid);
      WiringSeqLast(kids, ctx, parent, b);
      assert b + SizeSeq(kids) == mid + Size(last);
      TargetsJoin(WiringSeq(init, ctx, parent, b), Wiring(last, ctx, parent, mid), parent, b, mid, mid + Size(last));
    }
  }

  /** The subscriptions of a non-empty run of siblings end with those of the last. */
  lemma WiringSeqLast(kids: seq<Node>, ctx: Context, parent: NodeId, b: nat)
    requires kids != [] && forall k :: k in kids ==> WellBound(k, Names(ctx))
    ensures forall k :: k in kids[..|kids| - 1] ==> k in kids
    ensures WiringSeq(kids, ctx, parent, b)
         == WiringSeq(kids[..|kids| - 1], ctx, parent, b)
            + Wiring(kids[|kids| - 1], ctx, parent, b + SizeSeq(kids[..|kids| - 1]))
  {
  }

  /** Subscriptions targeting two adjacent id ranges, one run after the other, target their union. */
  lemma TargetsJoin(w1: seq<Subscription>, w2: seq<Subscription>, parent: NodeId, lo: nat, mid: nat, hi: nat)
    requires lo <= mid <= hi && AllTargetIn(w1, parent, lo, mid) && AllTargetIn(w2, parent, mid, hi)
    ensures AllTargetIn(w1 + w2, parent, lo, hi)
  {
    TargetsWiden(w1, parent, lo, mid, parent, lo, hi);
    TargetsWiden(w2, parent, mid, hi, parent, lo, hi);
    TargetsConcat(w1, w2, parent, lo, hi);
  }

  /**
   * Rendering child `i` after the first `i`: the content, the ids taken and the
   * subscriptions made so far grow by that child's.
   */
  lemma ChildStep(kids: seq<Node>, i: nat, ctx: Context, parent: NodeId, b: nat,
                  subs0: seq<Subscription>, subsI: seq<Subscription>, subs2: seq<Subscription>, nI: nat, n2: nat)
    requires i < |kids| && forall k :: k in kids ==> WellBound(k, Names(ctx))
    requires subsI == subs0 + WiringSeq(kids[..i], ctx, parent, b) && nI == b + SizeSeq(kids[..i])
    requires subs2 == subsI + Wiring(kids[i], ctx, parent, nI) && n2 == nI + Size(kids[i])
    ensures forall k :: k in kids[..i + 1] ==> k in kids
    ensures RenderedSeq(kids[..i + 1]) == RenderedSeq(kids[..i]) + Rendered(kids[i])
    ensures n2 == b + SizeSeq(kids[..i + 1])
    ensures subs2 == subs0 + WiringSeq(kids[..i + 1], ctx, parent, b)
  {
    var pre := kids[..i + 1];
    assert pre[..|pre| - 1] == kids[..i] && pre[|pre| - 1] == kids[i];
    assert forall k :: k in pre ==> k in kids;
    assert RenderedSeq(pre) == RenderedSeq(kids[..i]) + Rendered(kids[i]);
    assert SizeSeq(pre) == SizeSeq(kids[..i]) + Size(kids[i]);
    assert WiringSeq(pre, ctx, parent, b) == WiringSeq(kids[..i], ctx, parent, b) + Wiring(kids[i], ctx, parent, nI);
    SubsRegroup(subs0, WiringSeq(kids[..i], ctx, parent, b), Wiring(kids[i], ctx, parent, nI));
  }

  /** The last of a non-empty run of siblings is laid out after all the others. */
  lemma SeqLast(kids: seq<Node>, b: nat)
    requires kids != []
    ensures var init, last := kids[..|kids| - 1], kids[|kids| - 1];
      && RenderedSeq(kids) == RenderedSeq(init) + Rendered(last)
      && ChildRoots(kids, b) == ChildRoots(init, b) + Roots(last, b + SizeSeq(init))
      && BuiltSeq(kids, b) == BuiltSeq(init, b) + Built(last, b + SizeSeq(init))
  {
  }

  /** Rendering child `i` after the first `i` appends its root and adds its nodes. */
  lemma ChildLaidStep(kids: seq<Node>, i: nat, b: nat, nI: nat)
    requires i < |kids| && nI == b + SizeSeq(kids[..i])
    ensures ChildRoots(kids[..i + 1], b) == ChildRoots(kids[..i], b) + Roots(kids[i], nI)
    ensures BuiltSeq(kids[..i + 1], b) == BuiltSeq(kids[..i], b) + Built(kids[i], nI)
  {
    var pre := kids[..i + 1];
    assert pre[..|pre| - 1] == kids[..i] && pre[|pre| - 1] == kids[i];
    SeqLast(pre, b);
  }

  /** The subscriptions of a `div` or `span`: its own `bind`, then its children's. */
  lemma WiringOfElement(node: Node, ctx: Context, parent: NodeId, b: nat)
    requires WellBound(node, Names(ctx)) && node.Element? && !IsRepeat(node) && IsKnown(node.name)
    ensures forall k :: k in node.children ==> WellBound(k, Names(ctx))
    ensures Size(node) == 1 + SizeSeq(node.children)
    ensures Wiring(node, ctx, parent, b) == BindSubs(node, ctx, b) + WiringSeq(node.children, ctx, b, b + 1)
  {
  }

  /** Instance `i` of a repeat emission has its root at id `base + i * size`. */
  ghost predicate InstanceRoots(roots: seq<NodeId>, base: nat, size: nat)
  {
    forall i :: 0 <= i < |roots| ==> roots[i] == base + i * size
  }

  /** Appending the root of instance `i`, if it has one, keeps the roots in place. */
  lemma RootsStep(roots: seq<NodeId>, a: seq<NodeId>, base: nat, size: nat, i: nat, nI: nat, some: bool)
    requires InstanceRoots(roots, base, size) && nI == base + i * size
    requires some ==> |roots| == i && a == [nI]
    requires !some ==> a == []
    ensures InstanceRoots(roots + a, base, size)
    ensures some ==> |roots + a| == i + 1
  {
    if some {
      assert (roots + a)[i] == nI;
    } else {
      assert roots + a == roots;
    }
  }

  /** Regrouping three consecutive stretches of subscriptions. */
  lemma SubsRegroup(a: seq<Subscription>, b: seq<Subscription>, c: seq<Subscription>)
    ensures a + b + c == a + (b + c)
  {
  }

  /** A subscription whose target the document still holds as an element. */
  ghost predicate Live(m: map<NodeId, HostNode>, s: Subscription)
  {
    match s
    case BindSub(e, _) => IsElement(m, e)
    case RepeatSub(p, t, _, _) => IsElement(m, p) && t.Element? && !IsRepeat(t)
  }

  /** Every node but `p` is as it was. */
  ghost predicate KeepsAllBut(m1: map<NodeId, HostNode>, m2: map<NodeId, HostNode>, p: NodeId)
  {
    forall id :: id in m1 && id != p ==> id in m2 && m2[id] == m1[id]
  }

  /** Every node added has an id of at least `lo`. */
  ghost predicate FreshFrom(m1: map<NodeId, HostNode>, m2: map<NodeId, HostNode>, lo: int)
  {
    forall id :: id in m2 && id !in m1 ==> lo <= id
  }

  /**
   * `m` is `m0` with the nodes `added` appended to element `e`: every other
   * node of `m0` is as it was, and the new nodes have ids from `b0` upwards.
   */
  ghost predicate AppendedUnder(m0: map<NodeId, HostNode>, b0: nat, m: map<NodeId, HostNode>, b: nat,
                                e: NodeId, added: seq<NodeId>)
  {
    && b0 <= b
    && KeepsAllBut(m0, m, e) && FreshFrom(m0, m, b0)
    && IsElement(m0, e) && IsElement(m, e) && m[e].tag == m0[e].tag
    && m[e].kids == m0[e].kids + added
    && (forall c :: c in added ==> c in m && b0 <= c)
  }

  /**
   * `m` is the well-formed `m0` with the nodes `added` appended to element
   * `e`, and the subtrees of those nodes hold `content`.
   */
  ghost predicate Appended(m0: map<NodeId, HostNode>, b0: nat, m: map<NodeId, HostNode>, b: nat,
                           e: NodeId, added: seq<NodeId>, content: seq<View>)
  {
    && WellFormed(m, b) && AppendedUnder(m0, b0, m, b, e, added)
    && ViewsOf(m, b, added, b0 - 1) == content
  }

  /** Attaching and building nothing leaves the arena as it was. */
  lemma AttachNothing(m: map<NodeId, HostNode>, p: NodeId)
    requires IsElement(m, p)
    ensures Attach(m, p, []) + map[] == m
  {
    assert m[p].kids + [] == m[p].kids;
  }

  /** A `repeat` element or one of an unknown tag lays out nothing. */
  lemma NothingLaid(m: map<NodeId, HostNode>, p: NodeId, node: Node, b: nat)
    requires IsElement(m, p) && node.Element? && (IsRepeat(node) || !IsKnown(node.name))
    ensures Roots(node, b) == [] && Attach(m, p, Roots(node, b)) + Built(node, b) == m
  {
    AttachNothing(m, p);
  }

  /** The arena after a text node created at `b` is appended to `p`. */
  lemma TextLaid(m: map<NodeId, HostNode>, b: nat, p: NodeId, node: Node, m1: map<NodeId, HostNode>)
    requires IsElement(m, p) && p != b && node.Text?
    requires m1 == m[b := TextNode(node.value)][p := AppendKid(m[p], b)]
    ensures Roots(node, b) == [b] && m1 == Attach(m, p, Roots(node, b)) + Built(node, b)
  {
  }

  /**
   * The arena after a `div` or `span` element created at `b` is appended to
   * `p` and then given its children, which were built from `b + 1` on.
   */
  lemma ElementLaid(m: map<NodeId, HostNode>, b: nat, p: NodeId, node: Node,
                    m1: map<NodeId, HostNode>, m2: map<NodeId, HostNode>)
    requires node.Element? && IsKnown(node.name) && !IsRepeat(node)
    requires IsElement(m, p) && p != b
    requires m1 == m[b := ElementNode(node.name, [])][p := AppendKid(m[p], b)]
    requires m2 == Attach(m1, b, ChildRoots(node.children, b + 1)) + BuiltSeq(node.children, b + 1)
    ensures Roots(node, b) == [b] && m2 == Attach(m, p, Roots(node, b)) + Built(node, b)
  {
    var cr, bs := ChildRoots(node.children, b + 1), BuiltSeq(node.children, b + 1);
    var a, e := AppendKid(m[p], b), ElementNode(node.name, cr);
    BuiltSeqBounds(node.children, b + 1);
    assert m1[b] == ElementNode(node.name, []) && [] + cr == cr;
    assert Attach(m1, b, cr) == m1[b := e];
    UpdateAgain(m, b, ElementNode(node.name, []), p, a, e);
    UnionShift(m[p := a], bs, b, e);
    assert Attach(m, p, [b]) == m[p := a];
    assert Built(node, b) == bs[b := e];
  }

  /** Overwriting key `k` twice is overwriting it once, whatever was written at `p` in between. */
  lemma UpdateAgain<V>(m: map<NodeId, V>, k: NodeId, x: V, p: NodeId, y: V, z: V)
    requires p != k
    ensures m[k := x][p := y][k := z] == m[p := y][k := z]
  {
  }

  /** An update at a key the right operand lacks can be made on either side of the union. */
  lemma UnionShift<V>(a: map<NodeId, V>, bm: map<NodeId, V>, k: NodeId, v: V)
    requires k !in bm
    ensures a[k := v] + bm == a + bm[k := v]
  {
  }

  /**
   * Rendering a `div` or `span` from id `b0` into `parent`: the element and
   * its children's nodes are laid out as `Built` says, and the subscriptions
   * grow by the element's `bind` and then its children's.
   */
  lemma ElementRendered(node: Node, ctx: Context, parent: NodeId, m0: map<NodeId, HostNode>, b0: nat,
                        m1: map<NodeId, HostNode>, b1: nat, m2: map<NodeId, HostNode>, inner: seq<NodeId>,
                        subs0: seq<Subscription>, subs1: seq<Subscription>, subs2: seq<Subscription>)
    requires WellBound(node, Names(ctx)) && node.Element? && IsKnown(node.name) && !IsRepeat(node)
    requires IsElement(m0, parent) && parent < b0 && b1 == b0 + 1
    requires m1 == m0[b0 := ElementNode(node.name, [])][parent := AppendKid(m0[parent], b0)]
    requires inner == ChildRoots(node.children, b1)
    requires m2 == Attach(m1, b0, inner) + BuiltSeq(node.children, b1)
    requires subs1 == subs0 + BindSubs(node, ctx, b0)
    requires subs2 == subs1 + WiringSeq(node.children, ctx, b0, b1)
    ensures Roots(node, b0) == [b0] && m2 == Attach(m0, parent, Roots(node, b0)) + Built(node, b0)
    ensures subs2 == subs0 + Wiring(node, ctx, parent, b0)
  {
    assert b0 + 1 == b1;
    assert ChildRoots(node.children, b0 + 1) == inner;
    assert BuiltSeq(node.children, b0 + 1) == BuiltSeq(node.children, b1);
    ElementLaid(m0, b0, parent, node, m1, m2);
    WiringOfElement(node, ctx, parent, b0);
    SubsRegroup(subs0, BindSubs(node, ctx, b0), WiringSeq(node.children, ctx, b0, b0 + 1));
  }

  /** Two appends to element `e` in a row, each with the nodes it built. */
  lemma ArenaStep(m: map<NodeId, HostNode>, e: NodeId, r1: seq<NodeId>, bs: map<NodeId, HostNode>,
                  r2: seq<NodeId>, bnew: map<NodeId, HostNode>, mi: map<NodeId, HostNode>, mn: map<NodeId, HostNode>)
    requires IsElement(m, e) && e !in bs
    requires mi == Attach(m, e, r1) + bs
    requires mn == Attach(mi, e, r2) + bnew
    ensures mn == Attach(m, e, r1 + r2) + (bs + bnew)
  {
    assert mi[e] == Attach(m, e, r1)[e];
    assert m[e].kids + r1 + r2 == m[e].kids + (r1 + r2);
    assert Attach(mi, e, r2) == mi[e := ElementNode(m[e].tag, m[e].kids + (r1 + r2))];
    assert Attach(mi, e, r2) == Attach(m, e, r1 + r2) + bs;
  }

  /**
   * The arena after child `i` of `kids` is rendered into `e`, given the arena
   * after the first `i`: the same layout over one more child.
   */
  lemma ChildArena(m: map<NodeId, HostNode>, e: NodeId, kids: seq<Node>, i: nat, b: nat, nI: nat,
                   added: seq<NodeId>, a: seq<NodeId>, mi: map<NodeId, HostNode>, mn: map<NodeId, HostNode>)
    requires IsElement(m, e) && e < b && i < |kids| && nI == b + SizeSeq(kids[..i])
    requires added == ChildRoots(kids[..i], b) && mi == Attach(m, e, added) + BuiltSeq(kids[..i], b)
    requires IsElement(mi, e) && a == Roots(kids[i], nI) && mn == Attach(mi, e, a) + Built(kids[i], nI)
    ensures added + a == ChildRoots(kids[..i + 1], b)
    ensures mn == Attach(m, e, added + a) + BuiltSeq(kids[..i + 1], b)
    ensures IsElement(mn, e)
  {
    BuiltSeqBounds(kids[..i], b);
    BuiltBounds(kids[i], nI);
    ChildLaidStep(kids, i, b, nI);
    ArenaStep(m, e, added, BuiltSeq(kids[..i], b), a, Built(kids[i], nI), mi, mn);
  }

  /**
   * The arena after instance `i` of a repeat emission is rendered into `e`,
   * given the arena after the first `i`: the same layout over one more instance.
   */
  lemma RepeatArena(m: map<NodeId, HostNode>, e: NodeId, template: Node, i: nat, b: nat, nI: nat,
                    added: seq<NodeId>, a: seq<NodeId>, mi: map<NodeId, HostNode>, mn: map<NodeId, HostNode>)
    requires IsElement(m, e) && e < b && nI == b + i * Size(template) && b <= nI
    requires added == RepeatRoots(template, i, b) && mi == Attach(m, e, added) + RepeatBuilt(template, i, b)
    requires IsElement(mi, e) && a == Roots(template, nI) && mn == Attach(mi, e, a) + Built(template, nI)
    ensures added + a == RepeatRoots(template, i + 1, b)
    ensures mn == Attach(m, e, added + a) + RepeatBuilt(template, i + 1, b)
    ensures IsElement(mn, e)
  {
    RepeatLaidStep(template, i, b, nI);
    RepeatBounds(template, i, b);
    BuiltBounds(template, nI);
    assert e !in Built(template, nI);
    ArenaStep(m, e, added, RepeatBuilt(template, i, b), a, Built(template, nI), mi, mn);
    assert mn[e] == Attach(mi, e, a)[e];
  }

  /** Every node of `part` is in `m` as it is in `part`. */
  ghost predicate Includes(m: map<NodeId, HostNode>, part: map<NodeId, HostNode>)
  {
    forall id {:trigger part[id]} :: id in part ==> id in m && m[id] == part[id]
  }

  /** An arena including the union of two maps with disjoint keys includes each of them. */
  lemma IncludesSplit(m: map<NodeId, HostNode>, x: map<NodeId, HostNode>, y: map<NodeId, HostNode>)
    requires Includes(m, x + y) && forall id :: id in x ==> id !in y
    ensures Includes(m, x) && Includes(m, y)
  {
    forall id | id in x ensures id in m && m[id] == x[id] {
      assert (x + y)[id] == x[id];
    }
    forall id | id in y ensures id in m && m[id] == y[id] {
      assert (x + y)[id] == y[id];
    }
  }

  /**
   * In any well-formed arena holding the nodes rendering `node` from id `b`
   * creates, the content of the nodes it appends to its parent is exactly
   * `Rendered(node)`.
   */
  lemma {:induction false} BuiltViews(m: map<NodeId, HostNode>, bound: nat, node: Node, b: nat, above: int)
    requires WellFormed(m, bound) && Includes(m, Built(node, b)) && above < b
    ensures forall c :: c in Roots(node, b) ==> c in m && above < c
    ensures ViewsOf(m, bound, Roots(node, b), above) == Rendered(node)
    decreases node, 1
  {
    match node
    case Text(v) =>
      assert b in Built(node, b) && Built(node, b)[b] == TextNode(v) && Roots(node, b) == [b];
      ViewsSingle(m, bound, b, above);
      assert ViewOf(m, bound, b) == TextView(v);
    case Element(name, attrs, kids) =>
      if "repeat" !in attrs && IsKnown(name) {
        ElementViews(m, bound, node, b, above);
      } else {
        assert Roots(node, b) == [];
      }
  }

  /** The same for a `div` or `span`: one element holding its rendered children. */
  lemma {:induction false} ElementViews(m: map<NodeId, HostNode>, bound: nat, node: Node, b: nat, above: int)
    requires node.Element? && !IsRepeat(node) && IsKnown(node.name)
    requires WellFormed(m, bound) && Includes(m, Built(node, b)) && above < b
    ensures Roots(node, b) == [b] && b in m
    ensures ViewsOf(m, bound, [b], above) == Rendered(node)
    decreases node, 0
  {
    var cr := ChildRoots(node.children, b + 1);
    ElementIncludes(m, node, b);
    BuiltSeqViews(m, bound, node.children, b + 1, b);
    ViewsSingle(m, bound, b, above);
    assert ViewOf(m, bound, b) == ElementView(node.name, ViewsOf(m, bound, cr, b));
  }

  /** An arena holding the nodes a `div` or `span` creates holds the element and its children's nodes. */
  lemma ElementIncludes(m: map<NodeId, HostNode>, node: Node, b: nat)
    requires node.Element? && !IsRepeat(node) && IsKnown(node.name) && Includes(m, Built(node, b))
    ensures Roots(node, b) == [b] && b in m && m[b] == ElementNode(node.name, ChildRoots(node.children, b + 1))
    ensures Includes(m, BuiltSeq(node.children, b + 1))
  {
    var bs := BuiltSeq(node.children, b + 1);
    BuiltSeqBounds(node.children, b + 1);
    forall id | id in bs ensures id in m && m[id] == bs[id] {
      assert Built(node, b)[id] == bs[id];
    }
    assert b in Built(node, b) && Built(node, b)[b] == ElementNode(node.name, ChildRoots(node.children, b + 1));
  }

  /** The same for a run of siblings rendered from id `b`. */
  lemma {:induction false} BuiltSeqViews(m: map<NodeId, HostNode>, bound: nat, kids: seq<Node>, b: nat, above: int)
    requires WellFormed(m, bound) && Includes(m, BuiltSeq(kids, b)) && above < b
    ensures forall c :: c in ChildRoots(kids, b) ==> c in m && above < c
    ensures ViewsOf(m, bound, ChildRoots(kids, b), above) == RenderedSeq(kids)
    decreases kids
  {
    if kids != [] {
      var init, last := kids[..|kids| - 1], kids[|kids| - 1];
      var mid := b + SizeSeq(init);
      SeqLast(kids, b);
      BuiltSeqBounds(init, b);
      BuiltBounds(last, mid);
      IncludesSplit(m, BuiltSeq(init, b), Built(last, mid));
      BuiltSeqViews(m, bound, init, b, above);
      BuiltViews(m, bound, last, mid, above);
      ViewsAppend(m, bound, ChildRoots(init, b), Roots(last, mid), above, above);
    }
  }

  /** The same for the first `n` instances of a repeat emission from id `b`. */
  lemma {:induction false} RepeatViews(m: map<NodeId, HostNode>, bound: nat, template: Node, n: nat, b: nat, above: int)
    requires WellFormed(m, bound) && Includes(m, RepeatBuilt(template, n, b)) && above < b
    ensures forall c :: c in RepeatRoots(template, n, b) ==> c in m && above < c
    ensures ViewsOf(m, bound, RepeatRoots(template, n, b), above) == Instances(Rendered(template), n)
  {
    if n > 0 {
      var mid := InstanceStart(b, n - 1, Size(template));
      assert Instances(Rendered(template), n) == Instances(Rendered(template), n - 1) + Rendered(template);
      assert RepeatRoots(template, n, b) == RepeatRoots(template, n - 1, b) + Roots(template, mid);
      RepeatIncludes(m, template, n, b);
      RepeatViews(m, bound, template, n - 1, b, above);
      BuiltViews(m, bound, template, mid, above);
      ViewsAppend(m, bound, RepeatRoots(template, n - 1, b), Roots(template, mid), above, above);
    }
  }

  /** An arena holding the nodes of the first `n` instances holds those of the first `n - 1` and of the last. */
  lemma RepeatIncludes(m: map<NodeId, HostNode>, template: Node, n: nat, b: nat)
    requires n > 0 && Includes(m, RepeatBuilt(template, n, b))
    ensures Includes(m, RepeatBuilt(template, n - 1, b))
    ensures Includes(m, Built(template, InstanceStart(b, n - 1, Size(template))))
  {
    var mid := InstanceStart(b, n - 1, Size(template));
    assert RepeatBuilt(template, n, b) == RepeatBuilt(template, n - 1, b) + Built(template, mid);
    RepeatBounds(template, n - 1, b);
    BuiltBounds(template, mid);
    IncludesSplit(m, RepeatBuilt(template, n - 1, b), Built(template, mid));
  }

  /**
   * Attaching `roots` to `p` and adding nodes with ids from `b0` on, among them
   * the roots, is an append under `p` whose new nodes are exactly `built`.
   */
  lemma LaidAppended(m0: map<NodeId, HostNode>, b0: nat, m: map<NodeId, HostNode>, b: nat, p: NodeId,
                     roots: seq<NodeId>, built: map<NodeId, HostNode>)
    requires WellFormed(m0, b0) && WellFormed(m, b) && IsElement(m0, p) && b0 <= b
    requires forall id :: id in built ==> b0 <= id
    requires forall c :: c in roots ==> c in built
    requires m == Attach(m0, p, roots) + built
    ensures AppendedUnder(m0, b0, m, b, p, roots) && Includes(m, built)
  {
    assert p !in built;
  }

  /**
   * After a repeat emission of `n` entries into the emptied element `p`: its
   * children are exactly the instances' roots, and their content is `n`
   * copies of what the template renders.
   */
  lemma RepeatLaid(m0: map<NodeId, HostNode>, b0: nat, m: map<NodeId, HostNode>, b: nat, p: NodeId,
                   template: Node, n: nat, added: seq<NodeId>)
    requires WellFormed(m, b) && added == RepeatRoots(template, n, b0)
    requires AppendedUnder(m0, b0, m, b, p, added) && Includes(m, RepeatBuilt(template, n, b0))
    requires m0[p].kids == []
    ensures Appended(m0, b0, m, b, p, added, Instances(Rendered(template), n))
    ensures m[p].kids == added
  {
    RepeatViews(m, b, template, n, b0, b0 - 1);
    assert m[p].kids == [] + added;
  }

  lemma LiveKept(subs: seq<Subscription>, m1: map<NodeId, HostNode>, m2: map<NodeId, HostNode>)
    requires forall i :: 0 <= i < |subs| ==> Live(m1, subs[i])
    requires forall id :: IsElement(m1, id) ==> IsElement(m2, id)
    ensures forall i :: 0 <= i < |subs| ==> Live(m2, subs[i])
  {
  }

  class Renderer {
    const doc: Document
    const rootNode: NodeId
    var subscriptions: seq<Subscription>

    ghost predicate Valid()
      reads this, doc
    {
      && doc.Valid()
      && IsElement(doc.nodes, rootNode)
      && (forall i :: 0 <= i < |subscriptions| ==> Live(doc.nodes, subscriptions[i]))
    }

    constructor (doc: Document, rootNode: NodeId)
      requires doc.Valid() && IsElement(doc.nodes, rootNode)
      ensures Valid() && this.doc == doc && this.rootNode == rootNode && subscriptions == []
    {
      this.doc := doc;
      this.rootNode := rootNode;
      subscriptions := [];
    }

    /** Appends a new text node holding `content` as the last child of `parent`. */
    method AppendTextNode(content: string, parent: NodeId)
      requires Valid() && IsElement(doc.nodes, parent)
      modifies doc
      ensures Valid()
      ensures doc.next == old(doc.next) + 1
      ensures doc.nodes ==
        old(doc.nodes)[old(doc.next) := TextNode(content)][parent := AppendKid(old(doc.nodes[parent]), old(doc.next))]
    {
      var textNode := doc.CreateTextNode(content);
      doc.AppendChild(parent, textNode);
      LiveKept(subscriptions, old(doc.nodes), doc.nodes);
    }

    /** Detaches every child of `element`, first child first. */
    method RemoveAllChildren(element: NodeId)
      requires Valid() && IsElement(doc.nodes, element)
      modifies doc
      ensures Valid() && doc.next == old(doc.next)
      ensures doc.nodes == old(doc.nodes)[element := ElementNode(old(doc.nodes[element].tag), [])]
    {
      while doc.HasChildNodes(element)
        invariant Valid() && doc.next == old(doc.next) && IsElement(doc.nodes, element)
        invariant doc.nodes == old(doc.nodes)[element := ElementNode(old(doc.nodes[element].tag), doc.nodes[element].kids)]
        decreases |doc.nodes[element].kids|
      {
        ghost var before := doc.nodes;
        doc.RemoveFirstChild(element);
        LiveKept(subscriptions, before, doc.nodes);
      }
    }

    /**
     * Creates what `node`'s tag calls for and appends it to `parent`: a `div`
     * or `span` element (returned), or a text node (nothing returned); an
     * unknown tag creates nothing. A `bind` directive then subscribes the new
     * element to the stream its key names.
     */
    method RenderElement(node: Node, parent: NodeId, ctx: Context) returns (result: Option<NodeId>)
      requires Valid() && IsElement(doc.nodes, parent)
      requires node.Element? && "bind" in node.attrs ==> IsKnown(node.name) && node.attrs["bind"] in Names(ctx)
      modifies this, doc
      ensures Valid()
      ensures node.Text? ==>
        && result == None && doc.next == old(doc.next) + 1
        && doc.nodes == old(doc.nodes)[old(doc.next) := TextNode(node.value)]
                                      [parent := AppendKid(old(doc.nodes[parent]), old(doc.next))]
      ensures node.Element? && IsKnown(node.name) ==>
        && result == Some(old(doc.next)) && doc.next == old(doc.next) + 1
        && doc.nodes == old(doc.nodes)[old(doc.next) := ElementNode(node.name, [])]
                                      [parent := AppendKid(old(doc.nodes[parent]), old(doc.next))]
      ensures node.Element? && !IsKnown(node.name) ==>
        result == None && doc.next == old(doc.next) && doc.nodes == old(doc.nodes)
      ensures subscriptions == old(subscriptions) + BindSubs(node, ctx, old(doc.next))
    {
      result := None;
      match node {
        case Text(value) =>
          AppendTextNode(value, parent);
        case Element(name, attrs, _) =>
          if name == "div" || name == "span" {
            var element := doc.CreateElement(name);
            doc.AppendChild(parent, element);
            LiveKept(subscriptions, old(doc.nodes), doc.nodes);
            result := Some(element);
          }
          if "bind" in attrs {
            var stream := Resolve(ctx, attrs["bind"]);
            subscriptions := subscriptions + [BindSub(result.value, stream)];
          }
      }
    }

    /**
     * The `repeat` directive of `node`: subscribes to the stream its key names,
     * keeping the parent, the context and the template (the node without its
     * `repeat` attribute); the document is left as it is.
     */
    method SubscribeRepeat(node: Node, parent: NodeId, ctx: Context)
      requires Valid() && IsElement(doc.nodes, parent)
      requires IsRepeat(node) && node.attrs["repeat"] in Names(ctx)
      modifies this
      ensures Valid()
      ensures subscriptions == old(subscriptions) + [RepeatSub(parent, Template(node), ctx, Resolve(ctx, node.attrs["repeat"]))]
    {
      var stream := Resolve(ctx, node.attrs["repeat"]);
      var template := Template(node);
      subscriptions := subscriptions + [RepeatSub(parent, template, ctx, stream)];
    }

    /**
     * Renders `node` into `parent` under `ctx`. A repeated node only subscribes
     * (its template, the node without `repeat`, is rendered per emission);
     * any other node goes through RenderElement, and the element it yields, if
     * any, receives the node's children. `added` lists the nodes appended to
     * `parent`.
     */
    method RenderNode(node: Node, parent: NodeId, ctx: Context) returns (ghost added: seq<NodeId>)
      requires Valid() && IsElement(doc.nodes, parent)
      requires WellBound(node, Names(ctx))
      modifies this, doc
      ensures Valid()
      ensures doc.next == old(doc.next) + Size(node)
      ensures added == Roots(node, old(doc.next))
      ensures doc.nodes == Attach(old(doc.nodes), parent, added) + Built(node, old(doc.next))
      ensures subscriptions == old(subscriptions) + Wiring(node, ctx, parent, old(doc.next))
      decreases node, 1
    {
      if IsRepeat(node) {
        SubscribeRepeat(node, parent, ctx);
        assert Size(node) == 0;
        NothingLaid(doc.nodes, parent, node, doc.next);
        added := [];
        return;
      }
      ghost var nodes0, next0 := doc.nodes, doc.next;
      assert parent < next0;
      var next := RenderElement(node, parent, ctx);
      if next.None? {
        assert Wiring(node, ctx, parent, next0) == [];
        if node.Text? {
          added := [next0];
          TextLaid(nodes0, next0, parent, node, doc.nodes);
        } else {
          NothingLaid(doc.nodes, parent, node, doc.next);
          added := [];
        }
        return;
      }
      var element := next.value;
      assert node.Element? && IsKnown(node.name);
      ghost var nodes1, subs1 := doc.nodes, subscriptions;
      assert element == next0 && doc.next == next0 + 1;
      WiringOfElement(node, ctx, parent, next0);
      ghost var b1 := doc.next;
      ghost var inner := RenderChildren(node.children, element, ctx);
      added := [element];
      ElementRendered(node, ctx, parent, nodes0, element, nodes1, b1, doc.nodes, inner,
                      old(subscriptions), subs1, subscriptions);
    }

    /**
     * Renders `kids` in order into `element`, all under the same context;
     * `added` lists the nodes appended to `element`.
     */
    method RenderChildren(kids: seq<Node>, element: NodeId, ctx: Context) returns (ghost added: seq<NodeId>)
      requires Valid() && IsElement(doc.nodes, element)
      requires forall k :: k in kids ==> WellBound(k, Names(ctx))
      modifies this, doc
      ensures Valid()
      ensures doc.next == old(doc.next) + SizeSeq(kids)
      ensures added == ChildRoots(kids, old(doc.next))
      ensures doc.nodes == Attach(old(doc.nodes), element, added) + BuiltSeq(kids, old(doc.next))
      ensures subscriptions == old(subscriptions) + WiringSeq(kids, ctx, element, old(doc.next))
      decreases kids, 0
    {
      ghost var m0, b, subs0 := doc.nodes, doc.next, subscriptions;
      added := [];
      AttachNothing(doc.nodes, element);
      assert kids[..0] == [] && element < b;
      assert subscriptions == old(subscriptions) + [];
      for i := 0 to |kids|
        invariant forall k :: k in kids[..i] ==> k in kids
        invariant Valid()
        invariant doc.next == b + SizeSeq(kids[..i])
        invariant subscriptions == subs0 + WiringSeq(kids[..i], ctx, element, b)
        invariant added == ChildRoots(kids[..i], b)
        invariant doc.nodes == Attach(m0, element, added) + BuiltSeq(kids[..i], b)
        invariant IsElement(doc.nodes, element)
      {
        assert kids[i] in kids;
        ghost var nodesI, nextI, subsI := doc.nodes, doc.next, subscriptions;
        ghost var a := RenderNode(kids[i], element, ctx);
        ChildStep(kids, i, ctx, element, b, subs0, subsI, subscriptions, nextI, doc.next);
        ChildArena(m0, element, kids, i, b, nextI, added, a, nodesI, doc.nodes);
        added := added + a;
      }
      assert kids[..|kids|] == kids;
    }

    /**
     * A `bind` stream emitted `text`: the bound element's children are all
     * detached and a single text node holding `text` takes their place.
     */
    method OnBindEmit(s: nat, text: string)
      requires Valid() && s < |subscriptions| && subscriptions[s].BindSub?
      modifies doc
      ensures Valid()
      ensures doc.next == old(doc.next) + 1
      ensures var e := subscriptions[s].element;
        && doc.nodes == old(doc.nodes)[old(doc.next) := TextNode(text)]
                                      [e := ElementNode(old(doc.nodes[e].tag), [old(doc.next)])]
        && ViewOf(doc.nodes, doc.next, e) == ElementView(old(doc.nodes[e].tag), [TextView(text)])
    {
      var result := subscriptions[s].element;
      RemoveAllChildren(result);
      AppendTextNode(text, result);
      assert doc.nodes[result].kids == [old(doc.next)];
      assert ViewsOf(doc.nodes, doc.next, [old(doc.next)], result) == [TextView(text)];
    }

    /**
     * A `repeat` stream emitted `values`: every child of the subscription's
     * parent is detached, then the template is rendered into the parent once
     * per entry, in order, under the context extended with that entry as
     * `nextVal` and its index as `nextKey`. Rendering an instance looks up the
     * template's keys in that context, so they must be bound there.
     */
    method OnRepeatEmit(s: nat, values: seq<Value>) returns (ghost added: seq<NodeId>)
      requires Valid() && s < |subscriptions| && subscriptions[s].RepeatSub?
      requires |values| > 0 ==>
        WellBound(subscriptions[s].template, Names(subscriptions[s].context) + InstanceNames)
      modifies this, doc
      ensures Valid()
      ensures var sub := old(subscriptions[s]);
        var cleared := old(doc.nodes)[sub.parent := ElementNode(old(doc.nodes[sub.parent].tag), [])];
        && added == RepeatRoots(sub.template, |values|, old(doc.next))
        && doc.nodes == Attach(cleared, sub.parent, added) + RepeatBuilt(sub.template, |values|, old(doc.next))
        && Appended(cleared, old(doc.next), doc.nodes, doc.next, sub.parent, added,
                    Instances(Rendered(sub.template), |values|))
        && doc.nodes[sub.parent].kids == added
        && InstanceRoots(added, old(doc.next), Size(sub.template))
        && doc.next == old(doc.next) + |values| * Size(sub.template)
        && subscriptions == old(subscriptions)
             + RepeatWiring(sub.template, sub.context, sub.parent, values, |values|, old(doc.next))
    {
      var sub := subscriptions[s];
      var parent, template, ctx := sub.parent, sub.template, sub.context;
      RemoveAllChildren(parent);
      ghost var cleared, b0, subs0 := doc.nodes, doc.next, subscriptions;
      added := [];
      AttachNothing(doc.nodes, parent);
      assert parent < b0 && b0 == old(doc.next) && subs0 == old(subscriptions) && subs0 == subs0 + [];
      for i := 0 to |values|
        invariant Valid()
        invariant added == RepeatRoots(template, i, b0)
        invariant doc.nodes == Attach(cleared, parent, added) + RepeatBuilt(template, i, b0)
        invariant IsElement(doc.nodes, parent)
        invariant doc.next == b0 + i * Size(template) && b0 <= doc.next
        invariant Rendered(template) != [] ==> |added| == i
        invariant InstanceRoots(added, b0, Size(template))
        invariant subscriptions == subs0 + RepeatWiring(template, ctx, parent, values, i, b0)
      {
        var nextContext := Instance(ctx, values[i], i);
        ghost var nodesI, nextI, subsI := doc.nodes, doc.next, subscriptions;
        ghost var a := RenderNode(template, parent, nextContext);
        RepeatStep(template, ctx, parent, values, i, b0, subs0, subsI, subscriptions, nextI, doc.next);
        RepeatArena(cleared, parent, template, i, b0, nextI, added, a, nodesI, doc.nodes);
        RootsStep(added, a, b0, Size(template), i, nextI, Rendered(template) != []);
        added := added + a;
      }
      RepeatBounds(template, |values|, b0);
      LaidAppended(cleared, b0, doc.nodes, doc.next, parent, added, RepeatBuilt(template, |values|, b0));
      RepeatLaid(cleared, b0, doc.nodes, doc.next, parent, template, |values|, added);
    }

    /** Renders a component's root node into the root container. */
    method Render(component: Component) returns (ghost added: seq<NodeId>)
      requires Valid() && WellBound(component.root, Names(component.context))
      modifies this, doc
      ensures Valid()
      ensures added == Roots(component.root, old(doc.next))
      ensures doc.nodes == Attach(old(doc.nodes), rootNode, added) + Built(component.root, old(doc.next))
      ensures Appended(old(doc.nodes), old(doc.next), doc.nodes, doc.next, rootNode, added, Rendered(component.root))
      ensures doc.next == old(doc.next) + Size(component.root)
      ensures subscriptions == old(subscriptions) + Wiring(component.root, component.context, rootNode, old(doc.next))
    {
      added := RenderNode(component.root, rootNode, component.context);
      BuiltBounds(component.root, old(doc.next));
      LaidAppended(old(doc.nodes), old(doc.next), doc.nodes, doc.next, rootNode, added, Built(component.root, old(doc.next)));
      BuiltViews(doc.nodes, doc.next, component.root, old(doc.next), old(doc.next) - 1);
    }
  }
}
