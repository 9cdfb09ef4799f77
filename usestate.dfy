/**
 * hooks/useState.ts: the state slot of the current fiber.
 *
 * The fiber's state array and its alternate's are one array (see Arena), so
 * a render reads the slot the previous render wrote and writes it back.
 * The setter is modelled in module StateSetter, since it calls back into
 * the work loop.
 */
module UseState {
  import opened Values
  import opened HookSlots
  import opened Arena
  import opened State

  /** The state handed back: the alternate's slot, unless it is a hole, null or undefined. */
  function StateFor(alt: Option<HookSet>, i: nat, initial: Value): Value {
    var prev := if alt.Some? then SlotAt(alt.value.state, i) else None;
    if prev.Some? && !prev.value.Null? && !prev.value.Undefined? then prev.value else initial
  }

  /** PrepareHooksForFiber: `fiber` becomes the fiber hooks write to, and its counter restarts. */
  method PrepareHooksForFiber(rt: Runtime, f: FiberId)
    requires rt.Valid() && f < |rt.fibers|
    modifies rt`wipFiber, rt`fibers
    ensures rt.Valid()
    ensures rt.wipFiber == Some(f)
    ensures rt.fibers == old(rt.fibers)[f := old(rt.fibers)[f].(hookIndex := 0)]
  {
    assert LinksOk(rt.fibers, f);
    ArenaUpdate(rt.fibers, rt.hookSets, |rt.doms|, f, rt.fibers[f].(hookIndex := 0));
    rt.fibers := rt.fibers[f := rt.fibers[f].(hookIndex := 0)];
    rt.wipFiber := Some(f);
  }

  /**
   * useState(initial): `None` is the error thrown outside a render.  The
   * state is written to the fiber's own slot and the counter moves on by
   * one; the result is the array `[state, setState]`, a new object.
   */
  method UseState(rt: Runtime, initial: Value) returns (r: Option<Value>)
    requires rt.Valid()
    modifies rt`fibers, rt`hookSets, rt`nextObj
    ensures rt.Valid()
    ensures old(rt.wipFiber).None? ==> r.None? && rt.fibers == old(rt.fibers) && rt.hookSets == old(rt.hookSets)
    ensures old(rt.wipFiber).Some? ==>
      var f := old(rt.wipFiber).value;
      var fib := old(rt.fibers)[f];
      var i := fib.hookIndex;
      var own := old(rt.hookSets)[fib.hooks];
      var s := StateFor(old(AltHooks(rt.fibers, rt.hookSets, f)), i, initial);
      && r == Some(Arr(old(rt.nextObj), [s, Setter(f, i)]))
      && rt.hookSets == old(rt.hookSets)[fib.hooks := own.(state := SlotWrite(own.state, i, s))]
      && rt.fibers == old(rt.fibers)[f := fib.(hookIndex := i + 1)]
  {
    if rt.wipFiber.None? {
      return None;
    }
    var f := rt.wipFiber.value;
    var fib := rt.fibers[f];
    var i := fib.hookIndex;
    var state := StateFor(AltHooks(rt.fibers, rt.hookSets, f), i, initial);
    var own := rt.hookSets[fib.hooks];
    var own' := own.(state := SlotWrite(own.state, i, state));
    HookStepKeepsArena(rt.fibers, rt.hookSets, |rt.doms|, f, own');
    rt.hookSets := rt.hookSets[fib.hooks := own'];
    rt.fibers := rt.fibers[f := fib.(hookIndex := i + 1)];
    r := Some(Arr(rt.nextObj, [state, Setter(f, i)]));
    rt.nextObj := rt.nextObj + 1;
  }

  /**
   * Rendering again through the shared array returns the state stored at
   * the slot and writes back exactly what was there.
   */
  lemma RenderAgainKeepsState(h: HookSet, i: nat, initial: Value)
    requires SlotAt(h.state, i).Some?
    requires !SlotAt(h.state, i).value.Null? && !SlotAt(h.state, i).value.Undefined?
    ensures StateFor(Some(h), i, initial) == SlotAt(h.state, i).value
    ensures SlotWrite(h.state, i, StateFor(Some(h), i, initial)) == h.state
  {
    var s := StateFor(Some(h), i, initial);
    assert i < |h.state|;
    assert SlotWrite(h.state, i, s) == h.state[i := Some(s)];
  }

  /** A first render (no alternate), and a slot holding null or undefined, fall back to `initial`. */
  lemma StateFallsBackToInitial(alt: Option<HookSet>, i: nat, initial: Value)
    requires alt.None? || SlotAt(alt.value.state, i).None?
          || SlotAt(alt.value.state, i).value.Null? || SlotAt(alt.value.state, i).value.Undefined?
    ensures StateFor(alt, i, initial) == initial
  {
  }
}
