/**
 * core/reconciler.ts, the unit of work: a fiber is rendered (a component
 * called with its hooks prepared, a context provider's children taken from
 * its props, or a host node created), its children reconciled, and the
 * next fiber of the depth-first walk returned.
 *
 * A throw out of a unit (a ref callback in createDom, a provider whose
 * `context` cannot take a member, `children` that is not a list) is the
 * result `ok == false`; a throw out of the component itself is caught here
 * and leaves the fiber's children unreconciled.
 */
module Reconciler {
  import opened Values
  import opened HookSlots
  import opened Dom
  import opened Arena
  import opened State
  import opened World
  import opened Reconcile
  import ReconcileFacts
  import CreateDom
  import UseState
  import UseEffect
  import UseRef
  import UseCallback
  import UseContext

  // ---------------------------------------------------------------------
  // Host fibers
  // ---------------------------------------------------------------------

  /** The arena once fiber `f` holds node `d`. */
  function WithDom(fs: seq<Fiber>, f: FiberId, d: DomId): (r: seq<Fiber>)
    requires WellLinked(fs) && f < |fs|
    ensures WellLinked(r) && |r| == |fs| && r[f].dom == Some(d)
  {
    assert LinksOk(fs, f);
    UpdateKeepsWellLinked(fs, f, fs[f].(dom := Some(d)));
    fs[f := fs[f].(dom := Some(d))]
  }

  /**
   * updateHostComponent(fiber): a fiber without a node gets one from
   * createDom, then `props.children` is reconciled.  The result is `false`
   * when createDom threw (the fiber keeps no node) or when `children` is
   * undefined or null.
   */
  method UpdateHostComponent(rt: Runtime, host: Host, f: FiberId) returns (ok: bool)
    requires rt.Valid() && f < |rt.fibers|
    modifies rt`fibers, rt`hookSets, rt`fibersToDelete, rt`doms, rt`refs, rt`log, rt`pendingEffects, rt`pendingCleanups
    ensures rt.Valid() && |old(rt.fibers)| <= |rt.fibers|
    ensures var fib := old(rt.fibers)[f];
      var n := |old(rt.doms)|;
      var made := CreateDom.FreshNode(fib.ftype, fib.props);
      var created := Exec(host, old(Snap(rt)).(doms := old(rt.doms) + [made]), CreateDom.CreateDomOps(made.kind, n, fib.props));
      var fs1 := if fib.dom.Some? then old(rt.fibers) else WithDom(old(rt.fibers), f, n);
      var elems := ChildList(Get(fib.props, CHILDREN));
      && (fib.dom.Some? ==> Snap(rt) == old(Snap(rt)))
      && (fib.dom.None? ==> Snap(rt) == created.0)
      && (ok <==> (fib.dom.Some? || created.1) && elems.Some?)
      && (ok ==> RState(rt.fibers, rt.hookSets, rt.fibersToDelete)
                 == ReconcileAt(RState(fs1, old(rt.hookSets), old(rt.fibersToDelete)), f, elems.value,
                                OldChildren(fs1, f), 0, None, AsWritten))
      && (!ok ==> rt.hookSets == old(rt.hookSets) && rt.fibersToDelete == old(rt.fibersToDelete)
                  && (rt.fibers == old(rt.fibers) || rt.fibers == fs1))
  {
    var fib := rt.fibers[f];
    ok := AttachDom(rt, host, f);
    if !ok {
      return;
    }
    var elems := ChildList(Get(fib.props, CHILDREN));
    if elems.None? {
      return false;
    }
    ReconcileChildren(rt, f, elems.value);
  }

  /** The first half of updateHostComponent: a fiber without a node gets one from createDom. */
  method AttachDom(rt: Runtime, host: Host, f: FiberId) returns (ok: bool)
    requires rt.Valid() && f < |rt.fibers|
    modifies rt`fibers, rt`doms, rt`refs, rt`log, rt`pendingEffects, rt`pendingCleanups
    ensures rt.Valid()
    ensures var fib := old(rt.fibers)[f];
      var n := |old(rt.doms)|;
      var made := CreateDom.FreshNode(fib.ftype, fib.props);
      var created := Exec(host, old(Snap(rt)).(doms := old(rt.doms) + [made]), CreateDom.CreateDomOps(made.kind, n, fib.props));
      && (fib.dom.Some? ==> Snap(rt) == old(Snap(rt)) && ok && rt.fibers == old(rt.fibers))
      && (fib.dom.None? ==> Snap(rt) == created.0 && ok == created.1
                            && rt.fibers == if ok then WithDom(old(rt.fibers), f, n) else old(rt.fibers))
  {
    var fib := rt.fibers[f];
    ok := true;
    if fib.dom.None? {
      var d := CreateDom.CreateDom(rt, host, f);
      if d.None? {
        return false;
      }
      assert LinksOk(rt.fibers, f);
      ArenaUpdate(rt.fibers, rt.hookSets, |rt.doms|, f, fib.(dom := d));
      rt.fibers := WithDom(rt.fibers, f, d.value);
    }
  }

  // ---------------------------------------------------------------------
  // Component fibers
  // ---------------------------------------------------------------------

  /**
   * The arrays a component fiber renders with: its alternate's (the same
   * arrays, shared), or new empty ones; the hook counter restarts.
   */
  function Lineage(fs: seq<Fiber>, hs: map<FiberId, HookSet>, f: FiberId): (r: (seq<Fiber>, map<FiberId, HookSet>))
    requires WellLinked(fs) && HooksPresent(fs, hs) && f < |fs|
    ensures |r.0| == |fs| && WellLinked(r.0) && HooksPresent(r.0, r.1)
  {
    assert LinksOk(fs, f);
    match fs[f].alternate
    case Some(a) =>
      assert LinksOk(fs, a);
      UpdateKeepsWellLinked(fs, f, fs[f].(hooks := fs[a].hooks, hookIndex := 0));
      (fs[f := fs[f].(hooks := fs[a].hooks, hookIndex := 0)], hs)
    case None =>
      UpdateKeepsWellLinked(fs, f, fs[f].(hooks := f, hookIndex := 0));
      (fs[f := fs[f].(hooks := f, hookIndex := 0)], hs[f := EmptyHooks])
  }

  /**
   * After the lineage step a fiber with an alternate holds the very arrays
   * the alternate holds, so the hooks' reads of the alternate's slots and
   * writes to the fiber's own slots meet in one array; a fiber without one
   * starts from empty arrays.
   */
  lemma LineageSharesArrays(fs: seq<Fiber>, hs: map<FiberId, HookSet>, ndoms: nat, f: FiberId)
    requires ArenaOk(fs, hs, ndoms) && f < |fs|
    ensures var (fs1, hs1) := Lineage(fs, hs, f);
      && ArenaOk(fs1, hs1, ndoms)
      && (fs[f].alternate.Some? ==> AltHooks(fs1, hs1, f) == Some(OwnHooks(fs1, hs1, f)))
      && (fs[f].alternate.Some? ==> fs[f].alternate.value < |fs| && OwnHooks(fs1, hs1, f) == OwnHooks(fs, hs, fs[f].alternate.value))
      && (fs[f].alternate.None? ==> AltHooks(fs1, hs1, f).None? && OwnHooks(fs1, hs1, f) == EmptyHooks)
      && fs1[f].hookIndex == 0
  {
    assert LinksOk(fs, f);
    if fs[f].alternate.Some? {
      assert LinksOk(fs, fs[f].alternate.value);
    }
  }

  /** Giving fiber `f` its lineage's arrays on the runtime. */
  method ApplyLineage(rt: Runtime, f: FiberId)
    requires rt.Valid() && f < |rt.fibers|
    modifies rt`fibers, rt`hookSets
    ensures rt.Valid()
    ensures (rt.fibers, rt.hookSets) == Lineage(old(rt.fibers), old(rt.hookSets), f)
  {
    LineageSharesArrays(rt.fibers, rt.hookSets, |rt.doms|, f);
    var lin := Lineage(rt.fibers, rt.hookSets, f);
    assert forall i | 0 <= i < |lin.0| :: i != f ==> lin.0[i] == rt.fibers[i];
    rt.fibers, rt.hookSets := lin.0, lin.1;
  }

  /** What handleContextProvider adds to a provider fiber's effect array. */
  function WithRestore(hs: map<FiberId, HookSet>, key: FiberId, props: Props): map<FiberId, HookSet>
    requires key in hs
  {
    hs[key := hs[key].(effects := hs[key].effects + [Some(UseContext.RestoreHook(props))])]
  }

  /**
   * The hook calls of one render, in order, each through its hook; the
   * values the hooks return, in order.
   */
  method RunHooks(rt: Runtime, f: FiberId, calls: seq<HookCall>) returns (vals: seq<Value>)
    requires rt.Valid() && rt.wipFiber == Some(f) && f < |rt.fibers|
    modifies rt`fibers, rt`hookSets, rt`refs, rt`nextObj
    ensures rt.Valid() && |vals| == |calls|
    ensures rt.fibers == old(rt.fibers)[f := old(rt.fibers)[f].(hookIndex := old(rt.fibers)[f].hookIndex + |calls|)]
    ensures rt.hookSets.Keys == old(rt.hookSets).Keys
    ensures forall k :: k in old(rt.hookSets) && k != old(rt.fibers)[f].hooks ==> rt.hookSets[k] == old(rt.hookSets)[k]
  {
    vals := [];
    var i := 0;
    while i < |calls|
      invariant 0 <= i <= |calls| && |vals| == i
      invariant rt.Valid() && rt.wipFiber == Some(f)
      invariant rt.fibers == old(rt.fibers)[f := old(rt.fibers)[f].(hookIndex := old(rt.fibers)[f].hookIndex + i)]
      invariant rt.hookSets.Keys == old(rt.hookSets).Keys
      invariant forall k :: k in old(rt.hookSets) && k != old(rt.fibers)[f].hooks ==> rt.hookSets[k] == old(rt.hookSets)[k]
    {
      var v: Value;
      match calls[i] {
        case UseStateCall(initial) =>
          var r := UseState.UseState(rt, initial);
          v := r.value;
        case UseEffectCall(effect, deps) =>
          var _ := UseEffect.UseEffect(rt, effect, deps);
          v := Undefined;
        case UseRefCall(initial) =>
          var r := UseRef.UseRef(rt, initial);
          v := r.value;
        case UseCallbackCall(callback, deps) =>
          var r := UseCallback.UseCallback(rt, callback, deps);
          v := r.value;
        case UseContextCall(c) =>
          var r := UseContext.UseContext(rt, c);
          v := r.value;
      }
      vals := vals + [v];
      i := i + 1;
    }
  }

  /**
   * `fiber.type(fiber.props)` for a function type: an application component
   * runs its hook calls and returns what its script makes of their values;
   * a context's Provider and Consumer are the runtime's own, and the
   * Consumer calls `props.children` itself.  A Provider or Consumer of an id
   * naming no context object throws.
   */
  method Render(rt: Runtime, host: Host, f: FiberId) returns (o: Outcome)
    requires rt.Valid() && rt.wipFiber == Some(f) && f < |rt.fibers| && IsFunctionType(rt.fibers[f].ftype)
    modifies rt`fibers, rt`hookSets, rt`refs, rt`nextObj, rt`contexts, rt`log
    ensures rt.Valid()
    ensures rt.fibers == old(rt.fibers)[f := old(rt.fibers)[f].(hookIndex := rt.fibers[f].hookIndex)]
    ensures rt.hookSets.Keys == old(rt.hookSets).Keys
    ensures forall k :: k in old(rt.hookSets) && k != old(rt.fibers)[f].hooks ==> rt.hookSets[k] == old(rt.hookSets)[k]
    ensures var t := old(rt.fibers)[f].ftype; var props := old(rt.fibers)[f].props;
      && (t.Component? ==>
            && rt.fibers[f].hookIndex == old(rt.fibers)[f].hookIndex + |host.render(t.fn, props).hooks|
            && rt.contexts == old(rt.contexts) && rt.log == old(rt.log))
      && (t.ProviderOf? ==>
            && rt.fibers == old(rt.fibers) && rt.log == old(rt.log)
            && (t.ctx < |old(rt.contexts)| <==> o.Returns?)
            && (o.Returns? ==>
                  && o.v.Elem? && o.v.etype == Tag(CONTEXT_PROVIDER)
                  && Get(o.v.props, PREV_VALUE) == old(rt.contexts)[t.ctx].current
                  && rt.contexts == old(rt.contexts)[t.ctx := old(rt.contexts)[t.ctx].(current := Get(props, VALUE))]))
      && (t.ConsumerOf? ==>
            && rt.fibers == old(rt.fibers) && rt.contexts == old(rt.contexts)
            && (t.ctx < |rt.contexts| && IsFunction(UseContext.ConsumerFnAsWritten(props)) ==>
                  var arg := rt.contexts[t.ctx].current;
                  && rt.log == old(rt.log) + [Invoke(UseContext.ConsumerFnAsWritten(props), [arg])]
                  && o == match Call(host, UseContext.ConsumerFnAsWritten(props), [arg])
                          case Throws => Throws
                          case Returns(v) => Returns(UseContext.ConsumerResult(v, old(rt.nextObj))))
            && (!(t.ctx < |rt.contexts| && IsFunction(UseContext.ConsumerFnAsWritten(props))) ==> o == Throws))
  {
    var fib := rt.fibers[f];
    match fib.ftype {
      case Component(fn) =>
        var script := host.render(fn, fib.props);
        var vals := RunHooks(rt, f, script.hooks);
        o := script.result(vals);
      case ProviderOf(c) =>
        if c < |rt.contexts| {
          var v := UseContext.Provider(rt, c, fib.props);
          o := Returns(v);
        } else {
          o := Throws;
        }
      case ConsumerOf(c) =>
        if c < |rt.contexts| {
          o := UseContext.ConsumerAsWritten(rt, host, c, fib.props);
        } else {
          o := Throws;
        }
    }
  }

  /** A fiber that goes through updateFunctionComponent. */
  predicate RendersAsComponent(t: ElemType) {
    IsFunctionType(t) || t == Tag(CONTEXT_PROVIDER)
  }

  /**
   * The CONTEXT_PROVIDER branch of updateFunctionComponent: the provider's
   * value becomes current, its restore effect is pushed, and
   * `props.children` is reconciled; no component is called.  `false` is a
   * throw: a `context` that cannot take a member, or `children` undefined
   * or null.
   */
  method ProvideChildren(rt: Runtime, f: FiberId) returns (ok: bool)
    requires rt.Valid() && f < |rt.fibers| && rt.fibers[f].ftype == Tag(CONTEXT_PROVIDER)
    modifies rt`fibers, rt`hookSets, rt`fibersToDelete, rt`contexts
    ensures rt.Valid() && |old(rt.fibers)| <= |rt.fibers|
    ensures var props := old(rt.fibers)[f].props;
      var ctx := Get(props, CONTEXT);
      var elems := ChildList(Get(props, CHILDREN));
      && (ok <==> !UseContext.AssignThrows(ctx) && elems.Some?)
      && (ok ==> RState(rt.fibers, rt.hookSets, rt.fibersToDelete)
                 == ReconcileAt(RState(old(rt.fibers), WithRestore(old(rt.hookSets), old(rt.fibers)[f].hooks, props), old(rt.fibersToDelete)),
                                f, elems.value, OldChildren(old(rt.fibers), f), 0, None, AsWritten))
      && (ok && ctx.CtxObj? && ctx.ctx < |old(rt.contexts)| ==>
            rt.contexts == old(rt.contexts)[ctx.ctx := old(rt.contexts)[ctx.ctx].(current := Get(props, VALUE))])
      && (ok && !(ctx.CtxObj? && ctx.ctx < |old(rt.contexts)|) ==> rt.contexts == old(rt.contexts))
  {
    ok := UseContext.HandleContextProvider(rt, f);
    if !ok {
      return;
    }
    var elems := ChildList(Get(rt.fibers[f].props, CHILDREN));
    if elems.None? {
      return false;
    }
    ReconcileChildren(rt, f, elems.value);
  }

  /**
   * The component branch of updateFunctionComponent: the fiber becomes the
   * hooks' fiber and is rendered; `rendered` is what the render gave.  An
   * element result is reconciled as the only child, a non-element leaves
   * no child, and a throw is caught, leaving the children as they were.
   */
  method RenderComponent(rt: Runtime, host: Host, f: FiberId) returns (ghost rendered: Outcome)
    requires rt.Valid() && f < |rt.fibers| && IsFunctionType(rt.fibers[f].ftype)
    modifies rt`fibers, rt`hookSets, rt`fibersToDelete, rt`wipFiber, rt`refs, rt`nextObj, rt`contexts, rt`log
    ensures rt.Valid() && rt.wipFiber == Some(f)
    ensures rendered.Throws? ==>
      && |rt.fibers| == |old(rt.fibers)| && rt.fibersToDelete == old(rt.fibersToDelete)
      && rt.fibers[f].child == old(rt.fibers)[f].child
    ensures rendered.Returns? && IsElement(rendered.v) ==>
      && |rt.fibers| == |old(rt.fibers)| + 1
      && rt.fibers[f].child == Some(|old(rt.fibers)|)
      && rt.fibers[|old(rt.fibers)|].ftype == rendered.v.etype
      && rt.fibers[|old(rt.fibers)|].props == rendered.v.props
    ensures rendered.Returns? && !IsElement(rendered.v) ==>
      |rt.fibers| == |old(rt.fibers)| && rt.fibers[f].child.None?
  {
    UseState.PrepareHooksForFiber(rt, f);
    var o := Render(rt, host, f);
    rendered := o;
    if o.Returns? {
      ghost var s := RState(rt.fibers, rt.hookSets, rt.fibersToDelete);
      SingleChild(s, |rt.doms|, f, o.v);
      ReconcileChildren(rt, f, [o.v]);
    }
  }

  /**
   * updateFunctionComponent(fiber): the fiber takes its lineage's arrays
   * (Lineage), then renders as a context provider or as a component.
   * Only the provider branch can end in a throw; the component branch's
   * own throw is caught.
   */
  method UpdateFunctionComponent(rt: Runtime, host: Host, f: FiberId) returns (ok: bool, ghost rendered: Outcome)
    requires rt.Valid() && f < |rt.fibers| && RendersAsComponent(rt.fibers[f].ftype)
    modifies rt`fibers, rt`hookSets, rt`fibersToDelete, rt`wipFiber, rt`refs, rt`nextObj, rt`contexts, rt`log
    ensures rt.Valid() && |old(rt.fibers)| <= |rt.fibers|
    ensures old(rt.fibers)[f].ftype == Tag(CONTEXT_PROVIDER) ==>
      var (fs1, hs1) := Lineage(old(rt.fibers), old(rt.hookSets), f);
      var props := old(rt.fibers)[f].props;
      var elems := ChildList(Get(props, CHILDREN));
      && rt.wipFiber == old(rt.wipFiber) && rt.log == old(rt.log)
      && (ok <==> !UseContext.AssignThrows(Get(props, CONTEXT)) && elems.Some?)
      && (ok ==> RState(rt.fibers, rt.hookSets, rt.fibersToDelete)
                 == ReconcileAt(RState(fs1, WithRestore(hs1, fs1[f].hooks, props), old(rt.fibersToDelete)),
                                f, elems.value, OldChildren(fs1, f), 0, None, AsWritten))
    ensures old(rt.fibers)[f].ftype != Tag(CONTEXT_PROVIDER) ==>
      && ok && rt.wipFiber == Some(f)
      && (rendered.Throws? ==>
            && |rt.fibers| == |old(rt.fibers)| && rt.fibersToDelete == old(rt.fibersToDelete)
            && rt.fibers[f].child == old(rt.fibers)[f].child)
      && (rendered.Returns? && IsElement(rendered.v) ==>
            && |rt.fibers| == |old(rt.fibers)| + 1
            && rt.fibers[f].child == Some(|old(rt.fibers)|)
            && rt.fibers[|old(rt.fibers)|].ftype == rendered.v.etype
            && rt.fibers[|old(rt.fibers)|].props == rendered.v.props)
      && (rendered.Returns? && !IsElement(rendered.v) ==>
            |rt.fibers| == |old(rt.fibers)| && rt.fibers[f].child.None?)
  {
    ApplyLineage(rt, f);
    rendered := Throws;
    if rt.fibers[f].ftype == Tag(CONTEXT_PROVIDER) {
      ok := ProvideChildren(rt, f);
    } else {
      rendered := RenderComponent(rt, host, f);
      ok := true;
    }
  }

  /**
   * Reconciling the one-element list a component renders to: the rule as
   * written links it as the corrected rule does, so an element becomes the
   * only child and anything else leaves none.
   */
  lemma SingleChild(s: RState, ndoms: nat, wip: FiberId, v: Value)
    requires WellLinked(s.fibers) && wip < |s.fibers|
    requires StepReady(s, ndoms, wip, OldChildren(s.fibers, wip), None)
    ensures var r := ReconcileAt(s, wip, [v], OldChildren(s.fibers, wip), 0, None, AsWritten);
      && (IsElement(v) ==>
            && |r.fibers| == |s.fibers| + 1 && r.fibers[wip].child == Some(|s.fibers|)
            && r.fibers[|s.fibers|].ftype == v.etype && r.fibers[|s.fibers|].props == v.props)
      && (!IsElement(v) ==> |r.fibers| == |s.fibers| && r.fibers[wip].child.None?)
  {
    var olds := OldChildren(s.fibers, wip);
    var r := ReconcileAt(s, wip, [v], olds, 0, None, Corrected);
    ReconcileFacts.ChildrenInOrder(s, ndoms, wip, [v]);
    assert ReconcileFacts.Made([v], 1) == [];
    if IsElement(v) {
      assert ReconcileFacts.Made([v], 0) == [v];
      ReconcileFacts.ReconcileMakes(s, wip, [v], olds, 0, None, Corrected);
      assert ReconcileFacts.IdAt(|s.fibers|, [v], 0, 0) == |s.fibers|;
      assert ReconcileFacts.MadeFor(r, s.fibers, wip, v, OldAt(olds, 0), |s.fibers|);
    } else {
      assert ReconcileFacts.Made([v], 0) == [];
    }
    ReconcileFacts.LinkAsWrittenMeaning(s, wip, [v], olds);
  }

  // ---------------------------------------------------------------------
  // The unit of work
  // ---------------------------------------------------------------------

  /**
   * The `return`-walk loop of performUnitOfWork: the sibling of the fiber or
   * of its nearest ancestor that has one, or none.
   */
  method NextSiblingUp(rt: Runtime, f: FiberId) returns (next: Option<FiberId>)
    requires rt.Valid() && f < |rt.fibers|
    ensures next == NextUp(rt.fibers, f)
  {
    var x: Option<FiberId> := Some(f);
    while x.Some?
      invariant InArena(rt.fibers, x)
      invariant NextUp(rt.fibers, f) == if x.Some? then NextUp(rt.fibers, x.value) else None
      decreases if x.Some? then x.value + 1 else 0
    {
      var fib := rt.fibers[x.value];
      assert LinksOk(rt.fibers, x.value);
      if fib.sibling.Some? {
        return fib.sibling;
      }
      x := fib.parent;
    }
    return None;
  }

  /** The fiber's first child, else the nearest sibling on the way up. */
  method NextFiber(rt: Runtime, f: FiberId) returns (next: Option<FiberId>)
    requires rt.Valid() && f < |rt.fibers|
    ensures next == Next(rt.fibers, f)
  {
    assert LinksOk(rt.fibers, f);
    if rt.fibers[f].child.Some? {
      return rt.fibers[f].child;
    }
    next := NextSiblingUp(rt, f);
  }

  /** The render step of performUnitOfWork: a component or provider fiber, or a host fiber. */
  method UpdateFiber(rt: Runtime, host: Host, f: FiberId) returns (ok: bool)
    requires rt.Valid() && f < |rt.fibers|
    modifies rt`fibers, rt`hookSets, rt`fibersToDelete, rt`wipFiber, rt`refs, rt`nextObj, rt`contexts, rt`log
    modifies rt`doms, rt`pendingEffects, rt`pendingCleanups
    ensures rt.Valid() && |old(rt.fibers)| <= |rt.fibers|
    ensures RendersAsComponent(old(rt.fibers)[f].ftype) ==> rt.doms == old(rt.doms)
    ensures !RendersAsComponent(old(rt.fibers)[f].ftype) ==> rt.wipFiber == old(rt.wipFiber) && rt.contexts == old(rt.contexts)
  {
    if RendersAsComponent(rt.fibers[f].ftype) {
      ghost var rendered;
      ok, rendered := UpdateFunctionComponent(rt, host, f);
    } else {
      ok := UpdateHostComponent(rt, host, f);
    }
  }

  /**
   * performUnitOfWork(fiber): the fiber is rendered as a component or as a
   * host fiber, and the next fiber of the walk is returned: the fiber's
   * (new) first child, else the nearest sibling on the way up.  `ok ==
   * false` is a throw out of the unit.
   */
  method PerformUnitOfWork(rt: Runtime, host: Host, f: FiberId) returns (next: Option<FiberId>, ok: bool)
    requires rt.Valid() && f < |rt.fibers|
    modifies rt`fibers, rt`hookSets, rt`fibersToDelete, rt`wipFiber, rt`refs, rt`nextObj, rt`contexts, rt`log
    modifies rt`doms, rt`pendingEffects, rt`pendingCleanups
    ensures rt.Valid() && |old(rt.fibers)| <= |rt.fibers|
    ensures ok ==> next == Next(rt.fibers, f)
    ensures !ok ==> next.None?
  {
    ok := UpdateFiber(rt, host, f);
    if !ok {
      return None, false;
    }
    next := NextFiber(rt, f);
  }
}
