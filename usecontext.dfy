/**
 * hooks/useContext.ts: context objects, their Provider and Consumer
 * components, the useContext hook and the provider fiber's handling.
 *
 * A context object is an id into the runtime's `contexts` store, which
 * holds its `_currentValue` and `_defaultValue`.  Its Provider and Consumer
 * are the function types `ProviderOf(c)` and `ConsumerOf(c)`.
 */
module UseContext {
  import opened Values
  import opened HookSlots
  import opened Arena
  import opened State
  import CreateElement

  /** createContext(defaultValue): a new context whose current and default values are both `defaultValue`. */
  method CreateContext(rt: Runtime, defaultValue: Value) returns (ctx: Value)
    modifies rt`contexts
    ensures ctx == CtxObj(|old(rt.contexts)|)
    ensures rt.contexts == old(rt.contexts) + [ContextCell(defaultValue, defaultValue)]
  {
    ctx := CtxObj(|rt.contexts|);
    rt.contexts := rt.contexts + [ContextCell(defaultValue, defaultValue)];
  }

  /** `context._defaultValue`; an id naming no context object reads undefined. */
  function DefaultOf(contexts: seq<ContextCell>, c: ContextId): Value {
    if c < |contexts| then contexts[c].default else Undefined
  }

  /**
   * findContextValue: the `value` prop of the nearest CONTEXT_PROVIDER
   * ancestor (strictly above the fiber) for this context, or the default.
   */
  function ContextValue(fs: seq<Fiber>, contexts: seq<ContextCell>, c: ContextId, f: FiberId): Value
    requires WellLinked(fs) && f < |fs|
  {
    assert LinksOk(fs, f);
    match ProviderValue(fs, c, fs[f].parent)
    case Some(v) => v
    case None => DefaultOf(contexts, c)
  }

  /**
   * The value is the nearest provider's, with no provider for the context
   * between it and the fiber; with no provider among the ancestors it is
   * the default.
   */
  lemma ContextValueNearest(fs: seq<Fiber>, contexts: seq<ContextCell>, c: ContextId, f: FiberId)
    requires WellLinked(fs) && f < |fs|
    ensures LinksOk(fs, f)
    ensures (forall i :: 0 <= i < |Ancestors(fs, fs[f].parent)| ==> !ProvidesFor(fs[Ancestors(fs, fs[f].parent)[i]], c))
        ==> ContextValue(fs, contexts, c, f) == DefaultOf(contexts, c)
    ensures (exists k: nat :: FirstProviderAt(fs, c, Ancestors(fs, fs[f].parent), k))
        ==> exists k: nat :: FirstProviderAt(fs, c, Ancestors(fs, fs[f].parent), k)
              && ContextValue(fs, contexts, c, f) == Get(fs[Ancestors(fs, fs[f].parent)[k]].props, VALUE)
  {
    assert LinksOk(fs, f);
    var chain := Ancestors(fs, fs[f].parent);
    ProviderValueNearest(fs, c, fs[f].parent);
    if exists k: nat :: FirstProviderAt(fs, c, chain, k) {
      var k: nat :| FirstProviderAt(fs, c, chain, k);
      assert ProviderValue(fs, c, fs[f].parent).Some?;
    }
  }

  /** The hook reads the providers' props, never a context's `_currentValue`. */
  lemma ContextValueIgnoresCurrent(fs: seq<Fiber>, a: seq<ContextCell>, b: seq<ContextCell>, c: ContextId, f: FiberId)
    requires WellLinked(fs) && f < |fs|
    requires |a| == |b| && forall i :: 0 <= i < |a| ==> a[i].default == b[i].default
    ensures ContextValue(fs, a, c, f) == ContextValue(fs, b, c, f)
  {
  }

  /** useContext(context); `None` is the error thrown outside a render. */
  method UseContext(rt: Runtime, c: ContextId) returns (r: Option<Value>)
    requires rt.Valid()
    modifies rt`fibers, rt`hookSets
    ensures rt.Valid()
    ensures old(rt.wipFiber).None? ==> r.None? && rt.fibers == old(rt.fibers) && rt.hookSets == old(rt.hookSets)
    ensures old(rt.wipFiber).Some? ==>
      var f := old(rt.wipFiber).value;
      var fib := old(rt.fibers)[f];
      var i := fib.hookIndex;
      var own := old(rt.hookSets)[fib.hooks];
      var v := ContextValue(old(rt.fibers), rt.contexts, c, f);
      && r == Some(v)
      && rt.hookSets == old(rt.hookSets)[fib.hooks := own.(contexts := SlotWrite(own.contexts, i, ContextHook(c, v)))]
      && rt.fibers == old(rt.fibers)[f := fib.(hookIndex := i + 1)]
  {
    if rt.wipFiber.None? {
      return None;
    }
    var f := rt.wipFiber.value;
    var fib := rt.fibers[f];
    var i := fib.hookIndex;
    var v := ContextValue(rt.fibers, rt.contexts, c, f);
    var own := rt.hookSets[fib.hooks];
    var own' := own.(contexts := SlotWrite(own.contexts, i, ContextHook(c, v)));
    HookStepKeepsArena(rt.fibers, rt.hookSets, |rt.doms|, f, own');
    rt.hookSets := rt.hookSets[fib.hooks := own'];
    rt.fibers := rt.fibers[f := fib.(hookIndex := i + 1)];
    r := Some(v);
  }

  /**
   * The Provider component: it records the context's current value as
   * `prevValue`, makes `value` current and renders a CONTEXT_PROVIDER
   * descriptor carrying children, context, value and prevValue in a new
   * props object.
   */
  method Provider(rt: Runtime, c: ContextId, props: Props) returns (r: Value)
    requires c < |rt.contexts|
    modifies rt`contexts, rt`nextObj
    ensures rt.contexts == old(rt.contexts)[c := old(rt.contexts)[c].(current := Get(props, VALUE))]
    ensures rt.nextObj == old(rt.nextObj) + 1
    ensures r.Elem? && r.etype == Tag(CONTEXT_PROVIDER) && WellFormed(r.props) && r.props.pid == old(rt.nextObj)
    ensures r.props.keys == [CHILDREN, CONTEXT, VALUE, PREV_VALUE]
    ensures Get(r.props, CHILDREN) == Get(props, CHILDREN) && Get(r.props, CONTEXT) == CtxObj(c)
    ensures Get(r.props, VALUE) == Get(props, VALUE) && Get(r.props, PREV_VALUE) == old(rt.contexts)[c].current
  {
    var prevValue := rt.contexts[c].current;
    var value := Get(props, VALUE);
    rt.contexts := rt.contexts[c := rt.contexts[c].(current := value)];
    r := Elem(Tag(CONTEXT_PROVIDER), Props(rt.nextObj, [CHILDREN, CONTEXT, VALUE, PREV_VALUE],
      map[CHILDREN := Get(props, CHILDREN), CONTEXT := CtxObj(c), VALUE := value, PREV_VALUE := prevValue]));
    rt.nextObj := rt.nextObj + 1;
  }

  /** Assigning a member of this value throws (strict mode): it is undefined, null or a primitive. */
  predicate AssignThrows(v: Value) {
    v.Undefined? || v.Null? || v.Bool? || v.Num? || v.Str?
  }

  /** The effect hook a provider fiber pushes on every render: its restore effect, dirty, with `[value]` as deps. */
  function RestoreHook(props: Props): (h: EffectHook)
    ensures h.isDirty && h.cleanup == Undefined && h.deps == Some([Get(props, VALUE)])
    ensures h.effect == ProviderEffect(Get(props, CONTEXT), Get(props, PREV_VALUE))
  {
    EffectHook(ProviderEffect(Get(props, CONTEXT), Get(props, PREV_VALUE)), Undefined, Some([Get(props, VALUE)]), true)
  }

  /**
   * handleContextProvider: nothing for other fibers.  A provider fiber's
   * `value` becomes its context's current value and a restore effect is
   * pushed onto the fiber's effect array; `false` is the throw when the
   * `context` prop cannot take a member.
   */
  method HandleContextProvider(rt: Runtime, f: FiberId) returns (ok: bool)
    requires rt.Valid() && f < |rt.fibers|
    modifies rt`contexts, rt`hookSets
    ensures rt.Valid()
    ensures old(rt.fibers)[f].ftype != Tag(CONTEXT_PROVIDER) ==>
      ok && rt.contexts == old(rt.contexts) && rt.hookSets == old(rt.hookSets)
    ensures old(rt.fibers)[f].ftype == Tag(CONTEXT_PROVIDER) ==>
      var props := rt.fibers[f].props;
      var ctx := Get(props, CONTEXT);
      var own := old(rt.hookSets)[rt.fibers[f].hooks];
      && ok == !AssignThrows(ctx)
      && (!ok ==> rt.contexts == old(rt.contexts) && rt.hookSets == old(rt.hookSets))
      && (ok ==> rt.hookSets == old(rt.hookSets)[rt.fibers[f].hooks := own.(effects := own.effects + [Some(RestoreHook(props))])])
      && (ok && ctx.CtxObj? && ctx.ctx < |old(rt.contexts)| ==>
            rt.contexts == old(rt.contexts)[ctx.ctx := old(rt.contexts)[ctx.ctx].(current := Get(props, VALUE))])
      && (ok && !(ctx.CtxObj? && ctx.ctx < |old(rt.contexts)|) ==> rt.contexts == old(rt.contexts))
  {
    var fib := rt.fibers[f];
    if fib.ftype != Tag(CONTEXT_PROVIDER) {
      return true;
    }
    var ctx := Get(fib.props, CONTEXT);
    if AssignThrows(ctx) {
      return false;
    }
    if ctx.CtxObj? && ctx.ctx < |rt.contexts| {
      rt.contexts := rt.contexts[ctx.ctx := rt.contexts[ctx.ctx].(current := Get(fib.props, VALUE))];
    }
    var own := rt.hookSets[fib.hooks];
    rt.hookSets := rt.hookSets[fib.hooks := own.(effects := own.effects + [Some(RestoreHook(fib.props))])];
    ok := true;
  }

  /** The function the Consumer calls, as written: `props.children` itself. */
  function ConsumerFnAsWritten(props: Props): Value {
    Get(props, CHILDREN)
  }

  /** The function the Consumer calls, corrected: the single child when `children` is a one-element array. */
  function ConsumerFn(props: Props): (fn: Value)
    ensures !Get(props, CHILDREN).Arr? ==> fn == Get(props, CHILDREN)
  {
    var ch := Get(props, CHILDREN);
    if ch.Arr? && |ch.items| == 1 then ch.items[0] else ch
  }

  /**
   * What the Consumer renders from its function's result: a descriptor as
   * it is, an array as a FRAGMENT, anything else as a TEXT_NODE holding its
   * string form.  New objects take the id `id`.
   */
  function ConsumerResult(v: Value, id: ObjId): (r: Value)
    ensures r.Elem?
    ensures IsElement(v) ==> r == v
    ensures v.Arr? ==> r.etype == Tag("FRAGMENT") && Get(r.props, CHILDREN) == v
    ensures !IsElement(v) && !v.Arr? ==> r.etype == Tag("TEXT_NODE") && Get(r.props, NODE_VALUE) == Str(ToStr(v))
  {
    if IsElement(v) then v
    else if v.Arr? then Elem(Tag("FRAGMENT"), Props(id, [CHILDREN], map[CHILDREN := v]))
    else Elem(Tag("TEXT_NODE"), Props(id, [NODE_VALUE, CHILDREN], map[NODE_VALUE := Str(ToStr(v)), CHILDREN := Arr(id, [])]))
  }

  /**
   * The Consumer component around the function `fn`: a non-function throws;
   * otherwise `fn` is called with the context's current value, recorded in
   * the log, and its result shaped by ConsumerResult.
   */
  method Consume(rt: Runtime, host: Host, c: ContextId, fn: Value) returns (o: Outcome)
    requires c < |rt.contexts|
    modifies rt`log, rt`nextObj
    ensures !IsFunction(fn) ==> o == Throws && rt.log == old(rt.log) && rt.nextObj == old(rt.nextObj)
    ensures IsFunction(fn) ==>
      var arg := rt.contexts[c].current;
      && rt.log == old(rt.log) + [Invoke(fn, [arg])]
      && rt.nextObj == old(rt.nextObj) + 1
      && o == match Call(host, fn, [arg])
              case Throws => Throws
              case Returns(v) => Returns(ConsumerResult(v, old(rt.nextObj)))
  {
    if !IsFunction(fn) {
      return Throws;
    }
    var arg := rt.contexts[c].current;
    rt.log := rt.log + [Invoke(fn, [arg])];
    var res := Call(host, fn, [arg]);
    match res {
      case Throws => o := Throws;
      case Returns(v) => o := Returns(ConsumerResult(v, rt.nextObj));
    }
    rt.nextObj := rt.nextObj + 1;
  }

  /** The Consumer as written: it calls `props.children`. */
  method ConsumerAsWritten(rt: Runtime, host: Host, c: ContextId, props: Props) returns (o: Outcome)
    requires c < |rt.contexts|
    modifies rt`log, rt`nextObj
    ensures !IsFunction(ConsumerFnAsWritten(props)) ==> o == Throws && rt.log == old(rt.log)
    ensures IsFunction(ConsumerFnAsWritten(props)) ==>
      && rt.log == old(rt.log) + [Invoke(ConsumerFnAsWritten(props), [rt.contexts[c].current])]
      && o == match Call(host, ConsumerFnAsWritten(props), [rt.contexts[c].current])
              case Throws => Throws
              case Returns(v) => Returns(ConsumerResult(v, old(rt.nextObj)))
  {
    o := Consume(rt, host, c, ConsumerFnAsWritten(props));
  }

  /** The Consumer, corrected: it calls the single function child. */
  method Consumer(rt: Runtime, host: Host, c: ContextId, props: Props) returns (o: Outcome)
    requires c < |rt.contexts|
    modifies rt`log, rt`nextObj
    ensures !IsFunction(ConsumerFn(props)) ==> o == Throws && rt.log == old(rt.log)
    ensures IsFunction(ConsumerFn(props)) ==>
      && rt.log == old(rt.log) + [Invoke(ConsumerFn(props), [rt.contexts[c].current])]
      && o == match Call(host, ConsumerFn(props), [rt.contexts[c].current])
              case Throws => Throws
              case Returns(v) => Returns(ConsumerResult(v, old(rt.nextObj)))
  {
    o := Consume(rt, host, c, ConsumerFn(props));
  }

  /**
   * A Consumer descriptor made by createElement never has a function as
   * `children` (the children are always gathered into an array), so the
   * Consumer as written throws on every one of them.
   */
  lemma ConsumerAsWrittenRejectsElements(c: ContextId, props: Option<Props>, children: seq<Value>, base: ObjId)
    ensures var e := CreateElement.CreateElement(ConsumerOf(c), props, children, base);
      !IsFunction(ConsumerFnAsWritten(e.props))
  {
    CreateElement.CreateElementProps(ConsumerOf(c), props, children, base, CHILDREN);
  }

  /** `<Ctx.Consumer>{fn}</Ctx.Consumer>`: the corrected Consumer calls `fn`. */
  lemma ConsumerCallsFunctionChild(c: ContextId, props: Option<Props>, g: FnId, base: ObjId)
    ensures var e := CreateElement.CreateElement(ConsumerOf(c), props, [Fn(g)], base);
      ConsumerFn(e.props) == Fn(g)
  {
    CreateElement.CreateElementProps(ConsumerOf(c), props, [Fn(g)], base, CHILDREN);
    CreateElement.NormaliseFlatChildren([Fn(g)], base);
  }
}
