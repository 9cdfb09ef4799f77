/**
 * The `setState` closure of hooks/useState.ts.  It holds the fiber it was
 * made for and the hook index; a call reads the fiber's state slot,
 * computes the next state (calling the action on the previous one when the
 * action is a function), and when the two differ stores it and asks the
 * work loop for a re-render from the current root.
 */
module StateSetter {
  import opened Values
  import opened HookSlots
  import opened Arena
  import opened State
  import UseState
  import WorkLoop

  /** `fiber.stateHooks[i]`: a hole reads as undefined. */
  function Prev(state: Slots<Value>, i: nat): (r: Value)
    ensures SlotAt(state, i).Some? ==> r == SlotAt(state, i).value
    ensures SlotAt(state, i).None? ==> r == Undefined
  {
    if i < |state| && state[i].Some? then state[i].value else Undefined
  }

  /** The next state: the action's result when it is a function (`None` when it throws), else the action. */
  function NextState(host: Host, prev: Value, action: Value): (r: Option<Value>)
    ensures !IsFunction(action) ==> r == Some(action)
    ensures IsFunction(action) ==> (r.None? <==> host.call(action, [prev]).Throws?)
    ensures IsFunction(action) && r.Some? ==> host.call(action, [prev]) == Returns(r.value)
  {
    if !IsFunction(action) then Some(action)
    else match Call(host, action, [prev])
      case Throws => None
      case Returns(v) => Some(v)
  }

  /** The action applied to the previous state; calling a function action is logged. */
  method ApplyAction(rt: Runtime, host: Host, prev: Value, action: Value) returns (next: Option<Value>)
    modifies rt`log
    ensures next == NextState(host, prev, action)
    ensures rt.log == old(rt.log) + if IsFunction(action) then [Invoke(action, [prev])] else []
  {
    next := Some(action);
    if IsFunction(action) {
      rt.log := rt.log + [Invoke(action, [prev])];
      next := match Call(host, action, [prev]) case Throws => None case Returns(v) => Some(v);
    }
  }

  /** Storing the new arrays of one lineage. */
  method StoreState(rt: Runtime, key: FiberId, h: HookSet)
    requires rt.Idle() && key in rt.hookSets
    modifies rt`hookSets
    ensures rt.Idle() && rt.hookSets == old(rt.hookSets)[key := h]
  {
    rt.hookSets := rt.hookSets[key := h];
  }

  /** A changed state: stored, then scheduleUpdate. */
  method StoreAndSchedule(rt: Runtime, key: FiberId, h: HookSet)
    requires rt.Idle() && key in rt.hookSets
    modifies rt`hookSets, rt`fibers, rt`wipRoot, rt`nextUnitOfWork, rt`fibersToDelete, rt`nextObj, rt`queue, rt`nextTask, rt`scheduledTask
    ensures rt.Idle()
    ensures var t := WorkLoop.UpdateTarget(old(rt.isRendering), old(rt.isWorkLoopRunning), old(rt.fibers), old(rt.currentRoot));
      && (t.None? ==>
            rt.hookSets == old(rt.hookSets)[key := h] && rt.fibers == old(rt.fibers) && rt.queue == old(rt.queue)
            && rt.wipRoot == old(rt.wipRoot) && rt.nextUnitOfWork == old(rt.nextUnitOfWork))
      && (t.Some? ==> WorkLoop.RenderStarted(rt, t.value.0, t.value.1) && WorkLoop.RootArraysAdded(rt, old(rt.hookSets)[key := h]))
  {
    StoreState(rt, key, h);
    WorkLoop.ScheduleUpdate(rt);
  }

  /**
   * A call of the setter made for fiber `f` and hook `i`.  A throwing
   * action propagates to the caller with nothing stored; an unchanged
   * state (`===`) stores nothing and schedules nothing; a changed state is
   * written to the slot and scheduleUpdate runs.
   */
  method SetState(rt: Runtime, host: Host, f: FiberId, i: nat, action: Value) returns (o: Outcome)
    requires rt.Idle() && f < |rt.fibers|
    modifies rt`hookSets, rt`log
    modifies rt`fibers, rt`wipRoot, rt`nextUnitOfWork, rt`fibersToDelete, rt`nextObj, rt`queue, rt`nextTask, rt`scheduledTask
    ensures rt.Idle()
    ensures var key := old(rt.fibers)[f].hooks;
      var own := old(rt.hookSets)[key];
      var prev := Prev(own.state, i);
      var next := NextState(host, prev, action);
      var written := old(rt.hookSets)[key := own.(state := SlotWrite(own.state, i, if next.Some? then next.value else Undefined))];
      var t := WorkLoop.UpdateTarget(old(rt.isRendering), old(rt.isWorkLoopRunning), old(rt.fibers), old(rt.currentRoot));
      && rt.log == old(rt.log) + (if IsFunction(action) then [Invoke(action, [prev])] else [])
      && (o == if next.None? then Throws else Returns(Undefined))
      && (next.None? || Same(prev, next.value) ==>
            rt.hookSets == old(rt.hookSets) && rt.fibers == old(rt.fibers) && rt.queue == old(rt.queue)
            && rt.wipRoot == old(rt.wipRoot) && rt.nextUnitOfWork == old(rt.nextUnitOfWork))
      && (next.Some? && !Same(prev, next.value) && t.None? ==>
            rt.hookSets == written && rt.fibers == old(rt.fibers) && rt.queue == old(rt.queue)
            && rt.wipRoot == old(rt.wipRoot) && rt.nextUnitOfWork == old(rt.nextUnitOfWork))
      && (next.Some? && !Same(prev, next.value) && t.Some? ==>
            WorkLoop.RenderStarted(rt, t.value.0, t.value.1) && WorkLoop.RootArraysAdded(rt, written))
  {
    var key := rt.fibers[f].hooks;
    var own := rt.hookSets[key];
    var prev := Prev(own.state, i);
    var next := ApplyAction(rt, host, prev, action);
    if next.None? {
      return Throws;
    }
    o := Returns(Undefined);
    if !Same(prev, next.value) {
      StoreAndSchedule(rt, key, own.(state := SlotWrite(own.state, i, next.value)));
    }
  }

  /**
   * The render after a state change reads the stored value back through
   * the shared array, except that null and undefined read as the initial
   * state again (`oldHook ?? initial`).
   */
  lemma {:induction false} SetThenRender(h: HookSet, i: nat, next: Value, initial: Value)
    ensures var h' := h.(state := SlotWrite(h.state, i, next));
      UseState.StateFor(Some(h'), i, initial) == if next.Null? || next.Undefined? then initial else next
  {
    var h' := h.(state := SlotWrite(h.state, i, next));
    assert SlotAt(h'.state, i) == Some(next);
  }

  /** The setter reads back what the render stored: a second call with the same value stores nothing. */
  lemma SetSameTwiceStoresOnce(state: Slots<Value>, i: nat, next: Value)
    ensures Prev(SlotWrite(state, i, next), i) == next
  {
  }
}
