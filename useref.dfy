/**
 * hooks/useRef.ts: a ref object per slot, created once per component
 * lineage and handed back unchanged on every later render.
 */
module UseRef {
  import opened Values
  import opened HookSlots
  import opened Arena
  import opened State

  /** The ref kept at slot `i` of the alternate's arrays, if any. */
  function ReusedRef(alt: Option<HookSet>, i: nat): Option<RefId> {
    if alt.Some? then SlotAt(alt.value.refs, i) else None
  }

  /**
   * useRef(initial): `None` is the error thrown outside a render.  The
   * alternate's ref at this slot is reused; otherwise a new ref object
   * holding `initial` is made.  Either way it is stored at the slot.
   */
  method UseRef(rt: Runtime, initial: Value) returns (r: Option<Value>)
    requires rt.Valid()
    modifies rt`fibers, rt`hookSets, rt`refs
    ensures rt.Valid()
    ensures old(rt.wipFiber).None? ==>
      r.None? && rt.fibers == old(rt.fibers) && rt.hookSets == old(rt.hookSets) && rt.refs == old(rt.refs)
    ensures old(rt.wipFiber).Some? ==>
      var f := old(rt.wipFiber).value;
      var fib := old(rt.fibers)[f];
      var i := fib.hookIndex;
      var own := old(rt.hookSets)[fib.hooks];
      var reused := ReusedRef(old(AltHooks(rt.fibers, rt.hookSets, f)), i);
      var id := if reused.Some? then reused.value else |old(rt.refs)|;
      && r == Some(RefObj(id))
      && rt.refs == (if reused.Some? then old(rt.refs) else old(rt.refs) + [initial])
      && rt.hookSets == old(rt.hookSets)[fib.hooks := own.(refs := SlotWrite(own.refs, i, id))]
      && rt.fibers == old(rt.fibers)[f := fib.(hookIndex := i + 1)]
  {
    if rt.wipFiber.None? {
      return None;
    }
    var f := rt.wipFiber.value;
    var fib := rt.fibers[f];
    var i := fib.hookIndex;
    var reused := ReusedRef(AltHooks(rt.fibers, rt.hookSets, f), i);
    var id;
    if reused.Some? {
      id := reused.value;
    } else {
      id := |rt.refs|;
      rt.refs := rt.refs + [initial];
    }
    var own := rt.hookSets[fib.hooks];
    var own' := own.(refs := SlotWrite(own.refs, i, id));
    HookStepKeepsArena(rt.fibers, rt.hookSets, |rt.doms|, f, own');
    rt.hookSets := rt.hookSets[fib.hooks := own'];
    rt.fibers := rt.fibers[f := fib.(hookIndex := i + 1)];
    r := Some(RefObj(id));
  }

  /**
   * Once a slot holds a ref, every later render of the lineage gets that
   * same ref back and leaves the slot as it was: the ref is stable.
   */
  lemma RefStable(h: HookSet, i: nat)
    requires SlotAt(h.refs, i).Some?
    ensures ReusedRef(Some(h), i) == SlotAt(h.refs, i)
    ensures SlotWrite(h.refs, i, ReusedRef(Some(h), i).value) == h.refs
  {
    assert h.refs[i := Some(h.refs[i].value)] == h.refs;
  }

  /** A first render, or a slot never written, makes a new ref. */
  lemma FirstRenderMakesRef(alt: Option<HookSet>, i: nat)
    requires alt.None? || i >= |alt.value.refs| || alt.value.refs[i].None?
    ensures ReusedRef(alt, i).None?
  {
  }
}
