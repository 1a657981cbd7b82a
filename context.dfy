/**
 * The reactive context a template is rendered under: names bound to streams.
 * A repeated instance extends its enclosing context with two local bindings
 * (`nextVal`, `nextKey`) and falls through to the enclosing one for every other
 * name, the way a JavaScript object made by `Object.create(parent, props)`
 * looks a property up on itself first and then on its prototype.
 */
module ReactiveContext {

  datatype Option<+T> = None | Some(value: T)

  /**
   * What a context name is bound to. `External` is any value the embedding
   * application supplies (a stream of its root context, or an element of an
   * array emitted by a repeat stream); `KeyOf(i)` is the one-value stream of
   * index `i` that a repeated instance binds as `nextKey`.
   */
  datatype Value = External(id: string) | KeyOf(index: nat)

  /** A root context, or local bindings layered over an enclosing context. */
  datatype Context =
    | Root(bindings: map<string, Value>)
    | Extended(local: map<string, Value>, parent: Context)

  /**
   * Property lookup along the chain: own bindings first, then the parent. A
   * name resolves exactly when some layer of the chain binds it.
   */
  function Lookup(ctx: Context, name: string): (r: Option<Value>)
    ensures r.Some? <==> name in Names(ctx)
  {
    match ctx
    case Root(b) => if name in b then Some(b[name]) else None
    case Extended(local, p) => if name in local then Some(local[name]) else Lookup(p, name)
  }

  /** Every name some layer of the chain binds. */
  function Names(ctx: Context): (s: set<string>)
  {
    match ctx
    case Root(b) => b.Keys
    case Extended(local, p) => local.Keys + Names(p)
  }

  /** The stream a directive's key names; the key must be bound somewhere. */
  function Resolve(ctx: Context, name: string): (v: Value)
    requires name in Names(ctx)
    ensures Lookup(ctx, name) == Some(v)
  {
    Lookup(ctx, name).value
  }

  /** The two names every repeated instance adds. */
  const InstanceNames: set<string> := {"nextVal", "nextKey"}

  /**
   * The context of the instance rendered for element `el` at index `key` of an
   * emitted array: `nextVal` is the element, `nextKey` the one-value stream of
   * the index, and every other name is looked up in `ctx`, which is left as it was.
   */
  function Instance(ctx: Context, el: Value, key: nat): (c: Context)
    ensures Lookup(c, "nextVal") == Some(el)
    ensures Lookup(c, "nextKey") == Some(KeyOf(key))
    ensures forall name :: name !in InstanceNames ==> Lookup(c, name) == Lookup(ctx, name)
    ensures Names(c) == Names(ctx) + InstanceNames
  {
    Extended(map["nextVal" := el, "nextKey" := KeyOf(key)], ctx)
  }
}
