/**
 * hooks/useCallback.ts: a callback kept from the previous render while its
 * dependencies stay equal.
 */
module UseCallback {
  import opened Values
  import opened HookSlots
  import opened Arena
  import opened State

  /** Whether a fresh callback is taken: unless the previous hook and both dependency lists exist and are equal. */
  predicate ShouldUpdate(prev: Option<CallbackHook>, deps: Option<seq<Value>>) {
    !(prev.Some? && prev.value.deps.Some? && deps.Some? && AreDepsEqual(prev.value.deps.value, deps.value))
  }

  /** The hook useCallback stores (and whose callback it returns). */
  function CallbackFor(prev: Option<CallbackHook>, callback: Value, deps: Option<seq<Value>>): (h: CallbackHook)
    ensures h.deps == deps
  {
    CallbackHook(if ShouldUpdate(prev, deps) then callback else prev.value.callback, deps)
  }

  /** The alternate's hook at slot `i`, if any. */
  function PrevCallback(alt: Option<HookSet>, i: nat): Option<CallbackHook> {
    if alt.Some? then SlotAt(alt.value.callbacks, i) else None
  }

  /** useCallback(callback, deps); `None` is the error thrown outside a render. */
  method UseCallback(rt: Runtime, callback: Value, deps: Option<seq<Value>>) returns (r: Option<Value>)
    requires rt.Valid()
    modifies rt`fibers, rt`hookSets
    ensures rt.Valid()
    ensures old(rt.wipFiber).None? ==> r.None? && rt.fibers == old(rt.fibers) && rt.hookSets == old(rt.hookSets)
    ensures old(rt.wipFiber).Some? ==>
      var f := old(rt.wipFiber).value;
      var fib := old(rt.fibers)[f];
      var i := fib.hookIndex;
      var own := old(rt.hookSets)[fib.hooks];
      var h := CallbackFor(PrevCallback(old(AltHooks(rt.fibers, rt.hookSets, f)), i), callback, deps);
      && r == Some(h.callback)
      && rt.hookSets == old(rt.hookSets)[fib.hooks := own.(callbacks := SlotWrite(own.callbacks, i, h))]
      && rt.fibers == old(rt.fibers)[f := fib.(hookIndex := i + 1)]
  {
    if rt.wipFiber.None? {
      return None;
    }
    var f := rt.wipFiber.value;
    var fib := rt.fibers[f];
    var i := fib.hookIndex;
    var h := CallbackFor(PrevCallback(AltHooks(rt.fibers, rt.hookSets, f), i), callback, deps);
    var own := rt.hookSets[fib.hooks];
    var own' := own.(callbacks := SlotWrite(own.callbacks, i, h));
    HookStepKeepsArena(rt.fibers, rt.hookSets, |rt.doms|, f, own');
    rt.hookSets := rt.hookSets[fib.hooks := own'];
    rt.fibers := rt.fibers[f := fib.(hookIndex := i + 1)];
    r := Some(h.callback);
  }

  /** The memoised callback, both ways: the old one exactly when the dependencies match position by position. */
  lemma CallbackForMeaning(prev: Option<CallbackHook>, callback: Value, deps: Option<seq<Value>>)
    ensures var kept := prev.Some? && prev.value.deps.Some? && deps.Some?
        && |deps.value| == |prev.value.deps.value|
        && (forall j :: 0 <= j < |deps.value| ==> Same(prev.value.deps.value[j], deps.value[j]));
      CallbackFor(prev, callback, deps).callback == if kept then prev.value.callback else callback
  {
    if prev.Some? && prev.value.deps.Some? && deps.Some? {
      AreDepsEqualMeaning(prev.value.deps.value, deps.value);
    }
  }

  lemma AreDepsEqualTransitive(a: seq<Value>, b: seq<Value>, c: seq<Value>)
    requires AreDepsEqual(a, b) && AreDepsEqual(b, c)
    ensures AreDepsEqual(a, c)
  {
    AreDepsEqualMeaning(a, b);
    AreDepsEqualMeaning(b, c);
    AreDepsEqualMeaning(a, c);
    forall j | 0 <= j < |a| ensures Same(a[j], c[j]) {
      SameIsEquivalence(a[j], b[j], c[j]);
    }
  }

  /** The hook after a series of renders, each passing a callback and a dependency list. */
  function AfterRenders(h: CallbackHook, renders: seq<(Value, seq<Value>)>): CallbackHook
    decreases |renders|
  {
    if renders == [] then h
    else AfterRenders(CallbackFor(Some(h), renders[0].0, Some(renders[0].1)), renders[1..])
  }

  /**
   * However many renders pass dependencies equal to the stored ones, the
   * callback first stored is the one handed back.
   */
  lemma {:induction false} RepeatedRendersKeepCallback(h: CallbackHook, renders: seq<(Value, seq<Value>)>)
    requires h.deps.Some?
    requires forall k :: 0 <= k < |renders| ==> AreDepsEqual(h.deps.value, renders[k].1)
    ensures AfterRenders(h, renders).callback == h.callback
    decreases |renders|
  {
    if renders != [] {
      var h' := CallbackFor(Some(h), renders[0].0, Some(renders[0].1));
      assert h'.callback == h.callback;
      forall k | 0 <= k < |renders[1..]| ensures AreDepsEqual(h'.deps.value, renders[1..][k].1) {
        AreDepsEqualReflexiveSymmetric(h.deps.value, renders[0].1);
        AreDepsEqualTransitive(renders[0].1, h.deps.value, renders[k + 1].1);
      }
      RepeatedRendersKeepCallback(h', renders[1..]);
    }
  }
}
