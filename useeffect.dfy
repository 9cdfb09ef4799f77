/**
 * hooks/useEffect.ts: the effect slot of the current fiber, and the
 * cleanups run when a fiber is deleted.
 */
module UseEffect {
  import opened Values
  import opened HookSlots
  import opened Arena
  import opened State

  /**
   * Whether the effect must run: there is no previous hook at the slot,
   * either dependency list is missing, or the lists differ.
   */
  predicate IsDirty(prev: Option<EffectHook>, deps: Option<seq<Value>>) {
    match prev
    case None => true
    case Some(h) => deps.None? || h.deps.None? || !AreDepsEqual(deps.value, h.deps.value)
  }

  /** The hook useEffect stores: the new effect, the previous cleanup, a copy of `deps`. */
  function EffectFor(alt: Option<HookSet>, i: nat, effect: Value, deps: Option<seq<Value>>): (h: EffectHook)
    ensures h.effect == effect && h.deps == deps
  {
    var prev := if alt.Some? then SlotAt(alt.value.effects, i) else None;
    EffectHook(effect, if prev.Some? then prev.value.cleanup else Undefined, deps, IsDirty(prev, deps))
  }

  /** useEffect(effect, deps); `false` is the error thrown outside a render. */
  method UseEffect(rt: Runtime, effect: Value, deps: Option<seq<Value>>) returns (ok: bool)
    requires rt.Valid()
    modifies rt`fibers, rt`hookSets
    ensures rt.Valid()
    ensures ok == old(rt.wipFiber).Some?
    ensures !ok ==> rt.fibers == old(rt.fibers) && rt.hookSets == old(rt.hookSets)
    ensures ok ==>
      var f := old(rt.wipFiber).value;
      var fib := old(rt.fibers)[f];
      var i := fib.hookIndex;
      var own := old(rt.hookSets)[fib.hooks];
      var h := EffectFor(old(AltHooks(rt.fibers, rt.hookSets, f)), i, effect, deps);
      && rt.hookSets == old(rt.hookSets)[fib.hooks := own.(effects := SlotWrite(own.effects, i, h))]
      && rt.fibers == old(rt.fibers)[f := fib.(hookIndex := i + 1)]
  {
    if rt.wipFiber.None? {
      return false;
    }
    var f := rt.wipFiber.value;
    var fib := rt.fibers[f];
    var i := fib.hookIndex;
    var h := EffectFor(AltHooks(rt.fibers, rt.hookSets, f), i, effect, deps);
    var own := rt.hookSets[fib.hooks];
    var own' := own.(effects := SlotWrite(own.effects, i, h));
    HookStepKeepsArena(rt.fibers, rt.hookSets, |rt.doms|, f, own');
    rt.hookSets := rt.hookSets[fib.hooks := own'];
    rt.fibers := rt.fibers[f := fib.(hookIndex := i + 1)];
    ok := true;
  }

  /** The dirty flag, spelled out: both directions. */
  lemma IsDirtyMeaning(prev: Option<EffectHook>, deps: Option<seq<Value>>)
    ensures IsDirty(prev, deps) <==>
      || prev.None? || deps.None? || prev.value.deps.None?
      || |deps.value| != |prev.value.deps.value|
      || exists j :: 0 <= j < |deps.value| && !Same(deps.value[j], prev.value.deps.value[j])
  {
    if prev.Some? && deps.Some? && prev.value.deps.Some? {
      AreDepsEqualMeaning(deps.value, prev.value.deps.value);
    }
  }

  /**
   * Rendering again with dependencies equal, position by position, to the
   * stored ones gives a clean hook that keeps the stored cleanup.
   */
  lemma SameDepsStayClean(alt: HookSet, i: nat, effect: Value, deps: seq<Value>)
    requires SlotAt(alt.effects, i).Some? && SlotAt(alt.effects, i).value.deps.Some?
    requires |deps| == |SlotAt(alt.effects, i).value.deps.value|
    requires forall j :: 0 <= j < |deps| ==> Same(deps[j], SlotAt(alt.effects, i).value.deps.value[j])
    ensures !EffectFor(Some(alt), i, effect, Some(deps)).isDirty
    ensures EffectFor(Some(alt), i, effect, Some(deps)).cleanup == SlotAt(alt.effects, i).value.cleanup
  {
    AreDepsEqualMeaning(deps, SlotAt(alt.effects, i).value.deps.value);
  }

  /** The cleanups cleanupEffects calls, in array order: holes and falsy cleanups are passed over. */
  function Cleanups(s: Slots<EffectHook>): (r: seq<Value>)
    ensures |r| <= |s|
    ensures forall k :: 0 <= k < |r| ==> Truthy(r[k])
    decreases |s|
  {
    if s == [] then []
    else
      var last := s[|s| - 1];
      Cleanups(s[..|s| - 1]) + if last.Some? && Truthy(last.value.cleanup) then [last.value.cleanup] else []
  }

  /** Every truthy cleanup of a present hook is called, and nothing else. */
  lemma {:induction false} CleanupsMeaning(s: Slots<EffectHook>, v: Value)
    ensures v in Cleanups(s) <==> exists i :: 0 <= i < |s| && s[i].Some? && s[i].value.cleanup == v && Truthy(v)
    decreases |s|
  {
    if s != [] {
      var front := s[..|s| - 1];
      CleanupsMeaning(front, v);
      if exists i :: 0 <= i < |s| && s[i].Some? && s[i].value.cleanup == v && Truthy(v) {
        var i :| 0 <= i < |s| && s[i].Some? && s[i].value.cleanup == v && Truthy(v);
        if i < |s| - 1 { assert front[i] == s[i]; }
      }
      if v in Cleanups(front) {
        var i :| 0 <= i < |front| && front[i].Some? && front[i].value.cleanup == v && Truthy(v);
        assert s[i] == front[i];
      }
    }
  }

  /** One log entry per call, in order. */
  function Invocations(fs: seq<Value>): (r: seq<Event>)
    ensures |r| == |fs| && forall k :: 0 <= k < |fs| ==> r[k] == Invoke(fs[k], [])
  {
    seq(|fs|, k requires 0 <= k < |fs| => Invoke(fs[k], []))
  }

  /**
   * cleanupEffects(fiber): calls the cleanup of every effect hook the fiber
   * holds, in order; a cleanup that throws does not stop the others.
   */
  method CleanupEffects(rt: Runtime, f: FiberId)
    requires rt.Valid() && f < |rt.fibers|
    modifies rt`log
    ensures rt.log == old(rt.log) + Invocations(Cleanups(OwnHooks(rt.fibers, rt.hookSets, f).effects))
  {
    CallCleanups(rt, rt.hookSets[rt.fibers[f].hooks].effects);
  }

  /** The loop of cleanupEffects over one effect array. */
  method CallCleanups(rt: Runtime, effects: Slots<EffectHook>)
    modifies rt`log
    ensures rt.log == old(rt.log) + Invocations(Cleanups(effects))
  {
    var i := 0;
    while i < |effects|
      invariant 0 <= i <= |effects|
      invariant rt.log == old(rt.log) + Invocations(Cleanups(effects[..i]))
    {
      assert effects[..i + 1][..i] == effects[..i];
      var hook := effects[i];
      if hook.Some? && Truthy(hook.value.cleanup) {
        rt.log := rt.log + [Invoke(hook.value.cleanup, [])];
      }
      assert Invocations(Cleanups(effects[..i + 1])) == Invocations(Cleanups(effects[..i]))
        + if hook.Some? && Truthy(hook.value.cleanup) then [Invoke(hook.value.cleanup, [])] else [];
      i := i + 1;
    }
    assert effects[..|effects|] == effects;
  }
}
