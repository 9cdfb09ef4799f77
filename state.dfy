/**
 * The runtime's mutable state: the module-level variables of core/fiber.ts,
 * core/reconciler.ts and the hook modules, and the parts of the host the
 * runtime writes to (render-target nodes, ref objects, context objects, the
 * scheduler's task queue).
 *
 * Calls into application code (components, effects, cleanups, ref
 * callbacks) go through a `Host`: the model records each call in the event
 * log and takes its outcome from the host's functions.
 */
module State {
  import opened Values
  import opened HookSlots
  import opened Dom
  import opened Arena

  type TaskId = nat

  /** The two callbacks the runtime hands to the scheduler. */
  datatype Job = PerformWorkJob | FlushEffectsJob

  datatype Task = Task(id: TaskId, job: Job)

  /** What the runtime does to the world, in order. */
  datatype Event =
    | Append(parent: DomId, node: DomId)   // parent.appendChild(node)
    | Patch(node: DomId)                   // updateDom on a committed node
    | Remove(parent: DomId, node: DomId)   // parent.removeChild(node)
    | Invoke(f: Value, args: seq<Value>)   // a call of application code
    | SetCurrent(ref: RefId, v: Value)     // ref.current = v

  /** An entry of `pendingEffects`: a fiber and an index into its effect hooks. */
  datatype PendingEffect = PendingEffect(fiber: FiberId, index: nat)

  /** A context object's `_currentValue` and `_defaultValue`. */
  datatype ContextCell = ContextCell(current: Value, default: Value)

  /** How a call into application code ends. */
  datatype Outcome = Returns(v: Value) | Throws

  /** One hook call made by a component while it renders. */
  datatype HookCall =
    | UseStateCall(initial: Value)
    | UseEffectCall(effect: Value, deps: Option<seq<Value>>)
    | UseRefCall(initial: Value)
    | UseCallbackCall(callback: Value, deps: Option<seq<Value>>)
    | UseContextCall(context: ContextId)

  /**
   * A component render: the hooks it calls, in order, and what it returns
   * given the values those hooks returned.
   */
  datatype Script = Script(hooks: seq<HookCall>, result: seq<Value> -> Outcome)

  /** The application code: component functions, and every other callable. */
  datatype Host = Host(render: (FnId, Props) -> Script, call: (Value, seq<Value>) -> Outcome)

  /** Calling `f(args...)`: a non-function throws. */
  function Call(host: Host, f: Value, args: seq<Value>): Outcome {
    if IsFunction(f) then host.call(f, args) else Throws
  }

  class Runtime {
    // core/fiber.ts
    var fibers: seq<Fiber>
    var hookSets: map<FiberId, HookSet>
    var nextUnitOfWork: Option<FiberId>
    var currentRoot: Option<FiberId>
    var wipRoot: Option<FiberId>
    var isRendering: bool
    var scheduledTask: Option<TaskId>
    var isWorkLoopRunning: bool
    var pendingEffects: seq<PendingEffect>
    var pendingCleanups: seq<Value>
    // core/reconciler.ts
    var fibersToDelete: seq<FiberId>
    // the `wipFiber` of the five hook modules, always assigned together
    var wipFiber: Option<FiberId>
    // the host
    var queue: seq<Task>
    var nextTask: TaskId
    var doms: seq<DomNode>
    var refs: seq<Value>
    var contexts: seq<ContextCell>
    var log: seq<Event>
    var nextObj: ObjId

    /** The invariant every operation keeps. */
    ghost predicate Valid()
      reads this
    {
      && ArenaOk(fibers, hookSets, |doms|)
      && InArena(fibers, nextUnitOfWork) && InArena(fibers, currentRoot)
      && InArena(fibers, wipRoot) && InArena(fibers, wipFiber)
      && (currentRoot.Some? ==> fibers[currentRoot.value].parent.None?)
      && (wipRoot.Some? ==> fibers[wipRoot.value].parent.None?)
      && (forall i | 0 <= i < |fibersToDelete| :: fibersToDelete[i] < |fibers|)
      && (forall i | 0 <= i < |pendingEffects| :: pendingEffects[i].fiber < |fibers|)
      && !isRendering
    }

    /**
     * Between two scheduler tasks: the invariant, and the scheduler's.  A
     * scheduled render has a root to work on, unfinished work is always
     * scheduled, and the loop is marked running only while work is left.
     */
    ghost predicate Idle()
      reads this
    {
      && Valid()
      && QueueOk(queue, nextTask, scheduledTask)
      && (scheduledTask.Some? ==> wipRoot.Some?)
      && (nextUnitOfWork.Some? ==> scheduledTask.Some?)
      && (isWorkLoopRunning ==> nextUnitOfWork.Some?)
    }

    /** A fresh runtime: no tree, nothing scheduled, the given nodes, contexts and refs. */
    constructor (doms0: seq<DomNode>)
      ensures Idle()
      ensures doms == doms0 && fibers == [] && queue == [] && log == [] && contexts == [] && refs == []
      ensures currentRoot.None? && wipRoot.None? && nextUnitOfWork.None? && scheduledTask.None?
      ensures !isWorkLoopRunning && wipFiber.None?
    {
      fibers := [];
      hookSets := map[];
      nextUnitOfWork := None;
      currentRoot := None;
      wipRoot := None;
      isRendering := false;
      scheduledTask := None;
      isWorkLoopRunning := false;
      pendingEffects := [];
      pendingCleanups := [];
      fibersToDelete := [];
      wipFiber := None;
      queue := [];
      nextTask := 0;
      doms := doms0;
      refs := [];
      contexts := [];
      log := [];
      nextObj := 0;
    }
  }

  /** The arena is well linked, every fiber's hook arrays exist and every node it holds exists. */
  ghost predicate ArenaOk(fs: seq<Fiber>, hs: map<FiberId, HookSet>, ndoms: nat) {
    && WellLinked(fs)
    && HooksPresent(fs, hs)
    && (forall i | 0 <= i < |fs| :: fs[i].dom.Some? ==> fs[i].dom.value < ndoms)
  }

  predicate HooksPresent(fs: seq<Fiber>, hs: map<FiberId, HookSet>) {
    forall i | 0 <= i < |fs| :: fs[i].hooks in hs
  }

  /** The hook arrays fiber `f` holds. */
  function OwnHooks(fs: seq<Fiber>, hs: map<FiberId, HookSet>, f: FiberId): HookSet
    requires HooksPresent(fs, hs) && f < |fs|
  {
    hs[fs[f].hooks]
  }

  /** `fiber.alternate?.xHooks`: the arrays of the alternate, if there is one. */
  function AltHooks(fs: seq<Fiber>, hs: map<FiberId, HookSet>, f: FiberId): Option<HookSet>
    requires WellLinked(fs) && HooksPresent(fs, hs) && f < |fs|
  {
    assert LinksOk(fs, f);
    match fs[f].alternate
    case None => None
    case Some(a) => Some(hs[fs[a].hooks])
  }

  /** A hook call's write: new arrays for the fiber's lineage, and the counter moved on by one. */
  lemma HookStepKeepsArena(fs: seq<Fiber>, hs: map<FiberId, HookSet>, ndoms: nat, f: FiberId, h: HookSet)
    requires ArenaOk(fs, hs, ndoms) && f < |fs|
    ensures ArenaOk(fs[f := fs[f].(hookIndex := fs[f].hookIndex + 1)], hs[fs[f].hooks := h], ndoms)
  {
    assert LinksOk(fs, f);
    UpdateKeepsWellLinked(fs, f, fs[f].(hookIndex := fs[f].hookIndex + 1));
  }

  /**
   * Task ids increase along the queue and are below the next id, and the
   * queued PerformWork task, if any, is the one `scheduledTask` names.
   */
  ghost predicate QueueOk(q: seq<Task>, nextTask: TaskId, scheduled: Option<TaskId>) {
    && (forall i | 0 <= i < |q| :: q[i].id < nextTask)
    && (forall i, j | 0 <= i < j < |q| :: q[i].id < q[j].id)
    && (forall i | 0 <= i < |q| :: q[i].job == PerformWorkJob ==> scheduled == Some(q[i].id))
    && (scheduled.Some? ==> exists i :: 0 <= i < |q| && q[i] == Task(scheduled.value, PerformWorkJob))
  }

  /** At most one render continuation is ever queued. */
  lemma AtMostOneContinuation(q: seq<Task>, nextTask: TaskId, scheduled: Option<TaskId>, i: nat, j: nat)
    requires QueueOk(q, nextTask, scheduled)
    requires i < |q| && j < |q| && q[i].job == PerformWorkJob && q[j].job == PerformWorkJob
    ensures i == j
  {
  }

  /** Queuing the effects flush with the next id keeps the queue well ordered. */
  lemma FlushTaskKeepsQueueOk(q: seq<Task>, nextTask: TaskId, scheduled: Option<TaskId>)
    requires QueueOk(q, nextTask, scheduled)
    ensures QueueOk(q + [Task(nextTask, FlushEffectsJob)], nextTask + 1, scheduled)
  {
    var q' := q + [Task(nextTask, FlushEffectsJob)];
    forall i | 0 <= i < |q| ensures q'[i] == q[i] {
    }
    if scheduled.Some? {
      var i :| 0 <= i < |q| && q[i] == Task(scheduled.value, PerformWorkJob);
      assert q'[i] == q[i];
    }
  }

  /** Rewriting a fiber's non-link fields keeps the arena invariant. */
  lemma ArenaUpdate(fs: seq<Fiber>, hs: map<FiberId, HookSet>, ndoms: nat, i: nat, g: Fiber)
    requires ArenaOk(fs, hs, ndoms) && i < |fs| && SameLinks(fs[i], g) && g.hooks <= i
    requires g.hooks in hs && (g.dom.Some? ==> g.dom.value < ndoms)
    ensures ArenaOk(fs[i := g], hs, ndoms)
  {
    UpdateKeepsWellLinked(fs, i, g);
  }
}
