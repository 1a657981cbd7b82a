# reactivio renderer, modelled in Dafny

reactivio's `Renderer` walks a parsed template (a tree of `div`, `span` and
text nodes whose attributes may carry the directives `bind` and `repeat`). It
projects that tree into a host element of the browser document and subscribes
the directives to streams that a context object names:

- A `#text` node appends one text node.
- A `div` or `span` appends one element and then renders the node's children
  into it, in order, under the same context.
- An unknown tag appends nothing, and its children are not visited.
- `bind="k"` subscribes the new element to the stream `k`. Each emission
  detaches all of the element's children and appends one text node holding the
  emitted value.
- `repeat="k"` appends nothing. It subscribes to the array stream `k`. Each
  emission detaches every child of the parent. It then renders a copy of the
  node without `repeat` once per array entry, in array order. Each copy is
  rendered under a context that binds `nextVal` to the entry and `nextKey` to
  a one-value stream of its index, and falls through to the enclosing context
  for every other name.

The model has four modules:

- `ReactiveContext` (`context.dfy`): the context as an immutable chain of
  binding layers. `Lookup` checks a layer's own bindings first and then its
  parent's, which is how a prototype lookup on an object made with
  `Object.create` behaves. `Instance` builds the context of one repeated
  instance.
- `Descriptor` (`descriptor.dfy`): the parsed template as a datatype. It
  defines the `repeat` template (the node with `repeat` removed) and
  `WellBound`, which says every directive key a first render looks up is
  bound. Keys inside a `repeat` template are only looked up when an emission
  renders an instance, so they are checked there.
- `HostTree` (`host_tree.dfy`): the document as a class over an arena of nodes
  (`map<NodeId, HostNode>`). Elements list their children's ids. The class
  offers `createElement`, `createTextNode`, `appendChild` and
  removal of the first child. `ViewOf`/`ViewsOf` give the content of a
  subtree independently of node ids. Every child's id is larger than its
  parent's, so the tree has no cycles.
- `Rendering` (`renderer.dfy`): the `Renderer` class.
  - Rendering appends to the document and records every subscription in
    `subscriptions`.
  - A stream emission is an explicit call, `OnBindEmit` or `OnRepeatEmit`, on a
    recorded subscription.
  - What rendering produces is stated against reference functions:
    - `Rendered`/`RenderedSeq`: the content appended.
    - `Size`/`SizeSeq`: the number of document nodes created, and so the
      number of node ids taken.
    - `Wiring`/`WiringSeq`: the subscription records made, in order, given
      the first free node id. Each `bind` record names the element it
      refills; each `repeat` record names its parent, template, context and
      stream.
    - `RepeatWiring`: the records one repeat emission makes, instance by
      instance.
    - `Instances`: the content one repeat emission rebuilds.
    - `Roots`/`ChildRoots`/`RepeatRoots` and `Built`/`BuiltSeq`/`RepeatBuilt`:
      the exact layout a render leaves in the arena, given the first free id.
      These are the ids appended to the parent, and every node created with
      its id and contents. Ids follow document order, and an element lists
      its children's ids. `HostTree.Attach` appends ids to one element.
      `BuiltViews` and its siblings prove that this layout holds exactly the
      content `Rendered` names.
  - `Component` (the template paired with its context) is a datatype, and
    `CreateComponent` plays the part of `ComponentFactory.create`.
- `Scenarios` (`scenarios.dfy`): two whole runs, a bound counter and a
  repeated list, each rendered and then fed emissions.

## Model

| member | source | states |
|---|---|---|
| ReactiveContext.Lookup | src/index.ts:77-90 | a name resolves in a context chain exactly when some layer of the chain binds it (both directions) |
| ReactiveContext.Resolve | src/index.ts:50-51 | the stream a directive key names is the value the chain lookup finds for it |
| ReactiveContext.Instance | src/index.ts:76-90 | in instance `i` of element `el`, `nextVal` resolves to `el`, `nextKey` to the stream of `i`, every other name to what it resolves to in the enclosing context; the names bound are the enclosing ones plus these two |
| Descriptor.Template | src/index.ts:69-70 | the per-item template is an element with the same tag and children and the same attributes minus `repeat`, so it is not itself repeated |
| Rendering.CreateComponent | src/index.ts:4-15 | a component holds exactly the template and the context it was created with |
| Rendering.Rendered | src/index.ts:30-46 | rendering one node appends at most one node to its parent |
| Rendering.RenderedSeqConcat | src/index.ts:100-102 | rendering two runs of siblings in turn appends their contents side by side, in order |
| Rendering.SizeCounts | src/index.ts:30-46 | rendering a node creates at least as many document nodes as it appends to its parent, and creates none exactly when it appends nothing |
| Rendering.SizeSeqCounts | src/index.ts:100-102 | the same for a run of siblings |
| Rendering.ChildRootsBounds | src/index.ts:100-102 | a run of siblings appends one root per node of its content, each with an id inside the range of ids the run takes |
| Rendering.BuiltBounds | src/index.ts:30-43 | the nodes rendering a node creates have ids only in `[b, b + Size(node))`, and include the root it appends |
| Rendering.BuiltSeqBounds | src/index.ts:100-102 | the same for a run of siblings, whose nodes include all of their roots |
| Rendering.RepeatBounds | src/index.ts:76-92 | the nodes the first `n` instances create have ids from the first free id up to the next instance's first id, and include every instance's root |
| Rendering.BuiltViews | src/index.ts:27-46 | in any well-formed document holding the nodes `Built(node, b)`, the roots `Roots(node, b)` hold exactly `Rendered(node)`: the id layout and the content reference agree |
| Rendering.ElementViews | src/index.ts:31-40 | the same for a `div`/`span`: its element, at id `b`, holds its children's rendered content |
| Rendering.BuiltSeqViews | src/index.ts:100-102 | the same for a run of siblings: their roots, in order, hold `RenderedSeq(kids)` |
| Rendering.RepeatViews | src/index.ts:76-92 | the same for the first `n` instances of an emission: their roots hold `Instances(Rendered(template), n)` |
| Rendering.LaidAppended | src/index.ts:97-103 | appending the roots to a parent and adding the nodes built from the first free id on changes no other existing node, adds only ids from there on, and leaves the parent's earlier children in front |
| Rendering.RepeatLaid | src/index.ts:72-93 | after an emission of `n` entries the emptied parent's children are exactly the instances' roots, and they hold `n` copies of the template's content |
| Rendering.ElementRendered | src/index.ts:97-103 | a `div`/`span` created at the first free id, appended to the parent and then filled with its children, is exactly that node's layout; its `bind` record comes before its children's records |
| Rendering.ChildArena | src/index.ts:100-102 | rendering one more child extends the element's children by that child's root and the arena by that child's nodes |
| Rendering.RepeatArena | src/index.ts:76-92 | rendering one more instance extends the parent's children by that instance's root and the arena by that instance's nodes |
| Rendering.InstancesOfElement | src/index.ts:76-92 | an emission of n entries for a `div`/`span` template rebuilds exactly n elements, each holding the template's rendered children |
| Rendering.WiringTargets | src/index.ts:51-75 | every subscription a render makes refills a node that the same render created, except a `repeat` subscription, which may instead refill the parent the node was rendered into |
| Rendering.WiringSeqTargets | src/index.ts:97-105 | the same for a run of siblings rendered into one parent |
| HostTree.Document.CreateElement | src/index.ts:32 | a new detached element with no children gets the next id; no other node changes |
| HostTree.Document.CreateTextNode | src/index.ts:23 | a new detached text node holding the text gets the next id; no other node changes |
| HostTree.Document.AppendChild | src/index.ts:24 | the detached child becomes the parent's last child; no other node changes and the tree stays acyclic |
| HostTree.Document.HasChildNodes | src/index.ts:52 | true exactly when the node is an element with at least one child |
| HostTree.Document.RemoveFirstChild | src/index.ts:53 | the parent loses its first child; no other node changes |
| Rendering.Renderer.constructor | src/index.ts:18-20 | a renderer over a root element of the document, with no subscriptions |
| Rendering.Renderer.AppendTextNode | src/index.ts:22-25 | exactly one new text node holding the content is appended as the parent's last child; nothing else changes |
| Rendering.Renderer.RemoveAllChildren | src/index.ts:52-54 | after the drain loop the element has no children; every other node is as it was |
| Rendering.Renderer.RenderElement | src/index.ts:27-61 | `#text` appends one text node and yields no element; `div`/`span` appends one new element as the parent's last child, earlier children untouched, and yields it; an unknown tag changes nothing and yields nothing; a `bind` adds exactly one subscription, for the new element and the stream its key names |
| Rendering.Renderer.SubscribeRepeat | src/index.ts:64-71 | a repeated node leaves the document as it is and adds one subscription holding the parent, the context, the stripped template and the named stream |
| Rendering.Renderer.RenderNode | src/index.ts:63-106 | the new document is exactly the old one with `Roots(node, b)` appended after the parent's earlier children and the nodes `Built(node, b)` added, where `b` is the first free id. For a repeated node or an unknown tag that is nothing, and the document is unchanged. Otherwise one node takes id `b`, and every element lists its rendered children's ids in order. `BuiltViews` makes this `Rendered(node)`. The render takes exactly `Size(node)` ids, and the subscriptions added are exactly the records `Wiring(node, ctx, parent, b)`, each with its element, parent, template, context and stream |
| Rendering.Renderer.RenderChildren | src/index.ts:97-105 | the children are rendered in order into the new element, all under the same context, each from the first id its earlier siblings left free. The element gains exactly the children `ChildRoots(kids, b)`, and the document gains exactly the nodes `BuiltSeq(kids, b)`, which `BuiltSeqViews` makes `RenderedSeq(kids)`. The render takes `SizeSeq(kids)` ids and adds exactly the records `WiringSeq(kids, ctx, element, b)` |
| Rendering.Renderer.OnBindEmit | src/index.ts:51-56 | after an emission the bound element has exactly one child, a new text node holding the emitted text, whatever it held before; no other node changes |
| Rendering.Renderer.OnRepeatEmit | src/index.ts:72-93 | all of the parent's previous children are detached. Its children are then exactly the instances' roots `RepeatRoots(template, n, b)`, one per entry in entry order, and the document gains exactly their nodes `RepeatBuilt(template, n, b)`, which hold `Instances(Rendered(template), n)`; instance `i` is rendered under its instance context from id `first free id + i * Size(template)`, and its root (if it renders one) gets that id; and the records added are exactly those of instance 0, then 1, and so on (`RepeatWiring`) |
| Rendering.Renderer.Render | src/index.ts:108-112 | the document becomes exactly the old one with `Roots(root, b)` appended to the root container and the nodes `Built(root, b)` added, `b` being the first free id. The nodes appended hold `Rendered(root)`, and every other existing node is unchanged. The render takes `Size(root)` ids and adds exactly the records `Wiring(root, context, root container, b)` |
| Scenarios.CounterScenario | src/index.ts:51-56 | a `div` bound to a counter that emits 0, 1 and 2 is the only child of the container and ends holding one text node reading "2"; its subscription is the only one |
| Scenarios.ListWiring | src/index.ts:76-91 | a repeated `span` bound to `nextVal`, emitted two entries from id 1, subscribes instance 0's span (id 1) to the first entry and instance 1's span (id 2) to the second |
| Scenarios.ListEmitted | src/index.ts:72-93 | after that emission the container's children are exactly the two instance spans, ids 1 and 2, both empty; after the repeat subscription come exactly their two `bind` subscriptions |
| Scenarios.ListScenario | src/index.ts:51-56 | an emission on the second span's subscription then fills that span alone: the container's content is an empty span followed by a span holding the emitted text |

## Left out

- Template parsing with `DOMParser` (src/index.ts:109-110) is a browser library call. `Render` takes the parsed tree itself, and `Component` holds that tree instead of a template string.
- rxjs is not modelled. `renderElement`'s `Observable.create` wrapper emits its element synchronously when `renderNode` subscribes (src/index.ts:59, 97-98), so `RenderElement` returns an optional element id instead.
- A stream subscription is a record in `subscriptions`. An emission is an explicit `OnBindEmit`/`OnRepeatEmit` call made after rendering. A stream that emits synchronously during `subscribe` (such as `Observable.of`) is not modelled. The model does not capture the interleaving where that emission fills the element before its declared children are rendered.
- Context values are opaque (`Value`). A bind emission is modelled by the text the emitted value converts to.
- Rendering.Renderer.RenderNode: requires every `repeat` key, and every `bind` key outside a `repeat` template, to be bound (`WellBound`). On a missing key the source reads `undefined` from the context and its `.subscribe` call throws a TypeError (src/index.ts:51 for `bind`, src/index.ts:71-72 for `repeat`). That crash is excluded by precondition rather than modelled as an error result.
- Rendering.Renderer.OnRepeatEmit: requires the template's keys to be bound in the instance contexts when the emitted array is not empty. The source looks those keys up only while rendering an instance, and there the same `.subscribe` on `undefined` throws (src/index.ts:51, 91). An empty array renders no instance and needs nothing.
- Rendering.Renderer.RenderElement: requires `bind` to stand only on `div`/`span`. On an unknown tag the source subscribes with no element, and the first emission throws on `undefined` (src/index.ts:52). The model excludes that input rather than modelling the crash.
- Rendering.Renderer.RenderNode: requires the same through `WellBound`, for the same reason.
- `console.log` for an unknown tag (src/index.ts:45) is a diagnostic with no effect on the document.
- Unsubscription is not modelled: the source never unsubscribes, so subscriptions of torn-down repeat instances stay live. The model keeps them in `subscriptions` too. There is no `click` directive in the code.
- `appendChild` moves an attached node in the DOM. The renderer only appends freshly created nodes, so `AppendChild` requires a detached child.
- `RenderFactory`, the module-level example wiring (src/index.ts:115-145), src/nativeStreamFactory.ts and webpack.config.js are not part of this model.

## Where the code departs from what one might expect

The model follows the code in both cases:

- One might expect a `bind` node's declared children to be dropped, since the stream replaces the element's content. The code renders them into the element right after subscribing (src/index.ts:97-103), and the next emission detaches them. `RenderNode` and `Rendered` render them, and `OnBindEmit` replaces them.
- One might expect a missing binding to be reported as an error. The code throws a TypeError on `undefined` instead; see the `RenderNode` and `OnRepeatEmit` lines above.
