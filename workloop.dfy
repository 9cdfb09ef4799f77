/**
 * The scheduling half of core/fiber.ts: starting a render of a whole tree,
 * the interruptible work loop, the scheduler task that runs it, and the
 * re-render from the current root that a state change asks for.
 *
 * The scheduler package is modelled by its queue (`Runtime.queue`):
 * `scheduleCallback` appends a task with the next id, and since every
 * callback the runtime schedules has the same priority the queue runs
 * first in, first out; `cancelCallback` removes the task; `shouldYield`
 * answers from a list of answers handed to each run of the work loop.
 */
module WorkLoop {
  import opened Values
  import opened HookSlots
  import opened Arena
  import opened State
  import opened World
  import Reconciler
  import Commit

  // ---------------------------------------------------------------------
  // The scheduler queue
  // ---------------------------------------------------------------------

  predicate Ascending(q: seq<Task>) {
    forall i, j | 0 <= i < j < |q| :: q[i].id < q[j].id
  }

  /** `cancelCallback(task)`: the queue without the task `id`, the others in order. */
  function Cancel(q: seq<Task>, id: TaskId): (r: seq<Task>)
    ensures forall t :: t in r <==> t in q && t.id != id
    ensures Ascending(q) ==> Ascending(r)
  {
    if q == [] then []
    else if q[0].id == id then Cancel(q[1..], id)
    else
      var rest := Cancel(q[1..], id);
      assert Ascending(q) ==> forall t | t in rest :: q[0].id < t.id by {
        if Ascending(q) {
          forall t | t in rest ensures q[0].id < t.id {
            var j :| 0 <= j < |q[1..]| && q[1..][j] == t;
            assert q[j + 1] == t;
          }
        }
      }
      [q[0]] + rest
  }

  /** The queue once the scheduled render task, if there is one, is cancelled. */
  function Unscheduled(q: seq<Task>, scheduled: Option<TaskId>): seq<Task> {
    if scheduled.Some? then Cancel(q, scheduled.value) else q
  }

  /** `shouldYield()` the `k`-th time the loop asks: the answer given, and yes once they run out. */
  predicate ShouldYield(answers: seq<bool>, k: nat) {
    k >= |answers| || answers[k]
  }

  /**
   * startWorkLoop(): a render task already scheduled is cancelled and a new
   * one queued, so there is never more than one.
   */
  method StartWorkLoop(rt: Runtime)
    requires rt.Valid() && QueueOk(rt.queue, rt.nextTask, rt.scheduledTask)
    modifies rt`queue, rt`nextTask, rt`scheduledTask
    ensures rt.Valid() && QueueOk(rt.queue, rt.nextTask, rt.scheduledTask)
    ensures rt.scheduledTask == Some(old(rt.nextTask)) && rt.nextTask == old(rt.nextTask) + 1
    ensures rt.queue == Unscheduled(old(rt.queue), old(rt.scheduledTask)) + [Task(old(rt.nextTask), PerformWorkJob)]
  {
    var q := Unscheduled(rt.queue, rt.scheduledTask);
    forall t | t in rt.queue && t.job == PerformWorkJob ensures rt.scheduledTask == Some(t.id) {
      var i :| 0 <= i < |rt.queue| && rt.queue[i] == t;
    }
    var t := Task(rt.nextTask, PerformWorkJob);
    var q' := q + [t];
    assert q'[|q|] == t;
    forall i | 0 <= i < |q'| ensures q'[i].id < rt.nextTask + 1 && (q'[i].job == PerformWorkJob ==> i == |q|) {
      if i < |q| {
        assert q'[i] == q[i] && q[i] in q;
      }
    }
    rt.queue := q';
    rt.scheduledTask := Some(rt.nextTask);
    rt.nextTask := rt.nextTask + 1;
  }

  // ---------------------------------------------------------------------
  // setWorkInProgress
  // ---------------------------------------------------------------------

  /**
   * The root fiber of a render of `element` into `container`: props
   * `{children: [element]}` (objects `obj` and `obj + 1`), no type, the
   * current root as its alternate, and fresh hook arrays of its own.
   */
  function RootFiber(element: Value, container: DomId, alt: Option<FiberId>, n: FiberId, obj: ObjId): (r: Fiber)
    ensures r.parent.None? && r.child.None? && r.sibling.None? && r.dom == Some(container)
  {
    Fiber(Untyped, Props(obj, [CHILDREN], map[CHILDREN := Arr(obj + 1, [element])]),
          Some(container), None, None, None, alt, NoTag, n, 0)
  }

  /** `currentRoot.props.children[0]`: the element the tree was rendered from. */
  function RootElement(p: Props): Value {
    match Get(p, CHILDREN)
    case Arr(_, items) => if |items| > 0 then items[0] else Undefined
    case _ => Undefined
  }

  /** A root made by setWorkInProgress renders its element again when scheduleUpdate re-renders it. */
  lemma RootRendersItsElement(element: Value, container: DomId, alt: Option<FiberId>, n: FiberId, obj: ObjId)
    ensures RootElement(RootFiber(element, container, alt, n, obj).props) == element
    ensures ChildList(Get(RootFiber(element, container, alt, n, obj).props, CHILDREN)) == Some([element])
  {
  }

  /** The new root, its arrays and the cleared deletion list. */
  method NewRoot(rt: Runtime, element: Value, container: DomId)
    requires rt.Valid() && container < |rt.doms|
    modifies rt`fibers, rt`hookSets, rt`wipRoot, rt`nextUnitOfWork, rt`fibersToDelete, rt`nextObj
    ensures rt.Valid()
    ensures var n := |old(rt.fibers)|;
      && rt.fibers == old(rt.fibers) + [RootFiber(element, container, old(rt.currentRoot), n, old(rt.nextObj))]
      && rt.hookSets == old(rt.hookSets)[n := EmptyHooks]
      && rt.wipRoot == Some(n) && rt.nextUnitOfWork == Some(n) && rt.fibersToDelete == []
      && rt.nextObj == old(rt.nextObj) + 2
  {
    var n := |rt.fibers|;
    var root := RootFiber(element, container, rt.currentRoot, n, rt.nextObj);
    var fs := rt.fibers + [root];
    var hs := rt.hookSets[n := EmptyHooks];
    forall i | 0 <= i < |fs| ensures LinksOk(fs, i) && fs[i].hooks in hs {
      if i < n {
        assert LinksOk(rt.fibers, i);
        assert fs[i] == rt.fibers[i];
      }
    }
    rt.fibers := fs;
    rt.hookSets := hs;
    rt.wipRoot := Some(n);
    rt.nextUnitOfWork := Some(n);
    rt.fibersToDelete := [];
    rt.nextObj := rt.nextObj + 2;
  }

  /** What setWorkInProgress(element, container) does when the work loop is not running. */
  twostate predicate RenderStarted(rt: Runtime, element: Value, container: DomId)
    reads rt
  {
    var n := |old(rt.fibers)|;
    && rt.fibers == old(rt.fibers) + [RootFiber(element, container, old(rt.currentRoot), n, old(rt.nextObj))]
    && rt.wipRoot == Some(n) && rt.nextUnitOfWork == Some(n) && rt.fibersToDelete == []
    && rt.nextObj == old(rt.nextObj) + 2
    && rt.scheduledTask == Some(old(rt.nextTask)) && rt.nextTask == old(rt.nextTask) + 1
    && rt.queue == Unscheduled(old(rt.queue), old(rt.scheduledTask)) + [Task(old(rt.nextTask), PerformWorkJob)]
  }

  /** The new root's arrays, the only hook arrays setWorkInProgress touches. */
  twostate predicate RootArraysAdded(rt: Runtime, hs: map<FiberId, HookSet>)
    reads rt
  {
    rt.hookSets == hs[|old(rt.fibers)| := EmptyHooks]
  }

  /**
   * setWorkInProgress(element, container): ignored while the work loop is
   * running; otherwise a new root, whose alternate is the current root,
   * becomes the work in progress and the first unit of work, and the
   * render is (re)scheduled.
   */
  method SetWorkInProgress(rt: Runtime, element: Value, container: DomId)
    requires rt.Idle() && container < |rt.doms|
    modifies rt`fibers, rt`hookSets, rt`wipRoot, rt`nextUnitOfWork, rt`fibersToDelete, rt`nextObj
    modifies rt`queue, rt`nextTask, rt`scheduledTask
    ensures rt.Idle()
    ensures old(rt.isWorkLoopRunning) ==> unchanged(rt)
    ensures !old(rt.isWorkLoopRunning) ==> RenderStarted(rt, element, container) && RootArraysAdded(rt, old(rt.hookSets))
  {
    if rt.isWorkLoopRunning {
      return;
    }
    NewRoot(rt, element, container);
    StartWorkLoop(rt);
  }

  // ---------------------------------------------------------------------
  // performWork
  // ---------------------------------------------------------------------

  /** While a render task runs: it has left the queue, which holds no other. */
  ghost predicate Running(rt: Runtime)
    reads rt
  {
    && rt.Valid()
    && QueueOk(rt.queue, rt.nextTask, None)
    && (rt.nextUnitOfWork.Some? ==> rt.wipRoot.Some?)
  }

  /**
   * The inner loop of performWork: units of work while there is one and the
   * scheduler does not ask to yield.  `units` is how many were performed,
   * each after a "no"; a unit that throws ends the render early.
   */
  method WorkUnits(rt: Runtime, host: Host, answers: seq<bool>) returns (units: nat)
    requires rt.Valid()
    modifies rt`fibers, rt`hookSets, rt`fibersToDelete, rt`wipFiber, rt`refs, rt`nextObj, rt`contexts, rt`log
    modifies rt`doms, rt`pendingEffects, rt`pendingCleanups, rt`nextUnitOfWork
    ensures rt.Valid() && |old(rt.fibers)| <= |rt.fibers|
    ensures units <= |answers| && forall k :: 0 <= k < units ==> !answers[k]
    ensures rt.nextUnitOfWork.Some? ==> ShouldYield(answers, units)
    ensures old(rt.nextUnitOfWork).None? ==> units == 0 && rt.nextUnitOfWork.None?
  {
    units := 0;
    while rt.nextUnitOfWork.Some? && !ShouldYield(answers, units)
      invariant rt.Valid() && |old(rt.fibers)| <= |rt.fibers|
      invariant units <= |answers| && forall k :: 0 <= k < units ==> !answers[k]
      invariant old(rt.nextUnitOfWork).None? ==> units == 0 && rt.nextUnitOfWork.None?
      decreases |answers| - units
    {
      var next, ok := Reconciler.PerformUnitOfWork(rt, host, rt.nextUnitOfWork.value);
      rt.nextUnitOfWork := if ok then next else None;
      units := units + 1;
    }
  }

  /** The continuation: the render task is scheduled again, the loop still marked running. */
  method ScheduleContinuation(rt: Runtime)
    requires Running(rt) && rt.nextUnitOfWork.Some? && rt.isWorkLoopRunning
    modifies rt`queue, rt`nextTask, rt`scheduledTask
    ensures rt.Idle()
    ensures rt.queue == old(rt.queue) + [Task(old(rt.nextTask), PerformWorkJob)]
    ensures rt.scheduledTask == Some(old(rt.nextTask)) && rt.nextTask == old(rt.nextTask) + 1
  {
    rt.scheduledTask := None;
    assert Unscheduled(rt.queue, rt.scheduledTask) == rt.queue;
    StartWorkLoop(rt);
  }

  /** The loop ends: the flags are cleared. */
  method StopLoop(rt: Runtime)
    requires rt.Valid() && QueueOk(rt.queue, rt.nextTask, None) && rt.nextUnitOfWork.None?
    modifies rt`scheduledTask, rt`isWorkLoopRunning
    ensures rt.Idle() && rt.scheduledTask.None? && !rt.isWorkLoopRunning
  {
    rt.scheduledTask := None;
    rt.isWorkLoopRunning := false;
  }

  /**
   * What performWork does once the inner loop stops: a finished render is
   * committed, unfinished work is scheduled again, and otherwise the loop
   * just stops.  A commit that throws is caught by the outer handler,
   * which stops the loop as well; the root then stays the work in
   * progress, uncommitted.
   */
  method FinishWork(rt: Runtime, host: Host) returns (committed: bool)
    requires Running(rt) && rt.isWorkLoopRunning
    modifies rt`doms, rt`refs, rt`log, rt`pendingEffects, rt`pendingCleanups
    modifies rt`queue, rt`nextTask, rt`currentRoot, rt`wipRoot, rt`fibersToDelete, rt`scheduledTask, rt`isWorkLoopRunning
    ensures rt.Idle()
    ensures rt.isWorkLoopRunning <==> rt.nextUnitOfWork.Some?
    ensures rt.scheduledTask.Some? <==> rt.nextUnitOfWork.Some?
    ensures rt.nextUnitOfWork.Some? ==>
      && rt.queue == old(rt.queue) + [Task(old(rt.nextTask), PerformWorkJob)]
      && Snap(rt) == old(Snap(rt)) && rt.wipRoot == old(rt.wipRoot) && rt.currentRoot == old(rt.currentRoot)
    ensures rt.nextUnitOfWork.None? && old(rt.wipRoot).Some? ==>
      && (Snap(rt), committed) == Exec(host, old(Snap(rt)),
           Commit.RootPlan(rt.fibers, rt.hookSets, Kinds(old(rt.doms)), old(rt.fibersToDelete), old(rt.wipRoot).value))
      && (committed ==> rt.currentRoot == old(rt.wipRoot) && rt.wipRoot.None? && rt.fibersToDelete == [])
      && (!committed ==> rt.currentRoot == old(rt.currentRoot) && rt.wipRoot == old(rt.wipRoot))
    ensures rt.nextUnitOfWork.None? && old(rt.wipRoot).None? ==>
      !committed && Snap(rt) == old(Snap(rt)) && rt.queue == old(rt.queue) && rt.currentRoot == old(rt.currentRoot)
    ensures committed ==> old(rt.wipRoot).Some? && rt.nextUnitOfWork.None?
  {
    committed := false;
    if rt.nextUnitOfWork.Some? {
      ScheduleContinuation(rt);
    } else if rt.wipRoot.Some? {
      committed := CommitAndStop(rt, host);
    } else {
      StopLoop(rt);
    }
  }

  /** A finished render: commitRoot, then the loop stops, whether or not the commit threw. */
  method CommitAndStop(rt: Runtime, host: Host) returns (committed: bool)
    requires Running(rt) && rt.nextUnitOfWork.None? && rt.wipRoot.Some?
    modifies rt`doms, rt`refs, rt`log, rt`pendingEffects, rt`pendingCleanups
    modifies rt`queue, rt`nextTask, rt`currentRoot, rt`wipRoot, rt`fibersToDelete, rt`scheduledTask, rt`isWorkLoopRunning
    ensures rt.Idle() && !rt.isWorkLoopRunning && rt.scheduledTask.None?
    ensures (Snap(rt), committed) == Exec(host, old(Snap(rt)),
      Commit.RootPlan(rt.fibers, rt.hookSets, Kinds(old(rt.doms)), old(rt.fibersToDelete), old(rt.wipRoot).value))
    ensures committed ==> rt.currentRoot == old(rt.wipRoot) && rt.wipRoot.None? && rt.fibersToDelete == []
    ensures !committed ==> rt.currentRoot == old(rt.currentRoot) && rt.wipRoot == old(rt.wipRoot)
  {
    ghost var q := rt.queue;
    committed := Commit.CommitRoot(rt, host);
    if rt.queue != q {
      FlushTaskKeepsQueueOk(q, old(rt.nextTask), None);
    }
    StopLoop(rt);
  }

  /**
   * performWork(): the loop is marked running, units of work are performed
   * until the tree is done or the scheduler asks to yield, and then the
   * render is committed or scheduled to continue.  Afterwards the loop is
   * marked running exactly when work is left, and exactly then is a render
   * task scheduled.
   */
  method PerformWork(rt: Runtime, host: Host, answers: seq<bool>) returns (units: nat, committed: bool)
    requires Running(rt)
    modifies rt`fibers, rt`hookSets, rt`fibersToDelete, rt`wipFiber, rt`refs, rt`nextObj, rt`contexts, rt`log
    modifies rt`doms, rt`pendingEffects, rt`pendingCleanups, rt`nextUnitOfWork
    modifies rt`queue, rt`nextTask, rt`currentRoot, rt`wipRoot, rt`scheduledTask, rt`isWorkLoopRunning
    ensures rt.Idle()
    ensures rt.isWorkLoopRunning <==> rt.nextUnitOfWork.Some?
    ensures rt.scheduledTask.Some? <==> rt.nextUnitOfWork.Some?
    ensures units <= |answers| && forall k :: 0 <= k < units ==> !answers[k]
    ensures rt.nextUnitOfWork.Some? ==> ShouldYield(answers, units) && rt.wipRoot == old(rt.wipRoot)
    ensures committed ==> old(rt.wipRoot).Some? && rt.currentRoot == old(rt.wipRoot) && rt.wipRoot.None?
    ensures old(rt.wipRoot).None? ==> !committed && rt.currentRoot == old(rt.currentRoot) && units == 0
  {
    rt.isWorkLoopRunning := true;
    units := WorkUnits(rt, host, answers);
    committed := FinishWork(rt, host);
  }

  // ---------------------------------------------------------------------
  // The scheduler running a task
  // ---------------------------------------------------------------------

  /** Taking the first task off the queue. */
  method Dequeue(rt: Runtime) returns (t: Task)
    requires rt.Idle() && rt.queue != []
    modifies rt`queue
    ensures t == old(rt.queue)[0] && rt.queue == old(rt.queue)[1..]
    ensures t.job == PerformWorkJob ==> Running(rt) && old(rt.scheduledTask) == Some(t.id)
    ensures t.job == FlushEffectsJob ==> rt.Idle()
  {
    t := rt.queue[0];
    ghost var q := rt.queue;
    rt.queue := rt.queue[1..];
    if t.job == PerformWorkJob {
      forall i | 0 <= i < |rt.queue| ensures rt.queue[i].job != PerformWorkJob {
        assert q[0].id < q[i + 1].id && rt.queue[i] == q[i + 1];
      }
    } else if rt.scheduledTask.Some? {
      ghost var i :| 0 <= i < |q| && q[i] == Task(rt.scheduledTask.value, PerformWorkJob);
      assert rt.queue[i - 1] == q[i];
    }
  }

  /**
   * The scheduler runs the first queued task: the render task performs
   * work, the effects task flushes the pending cleanups and effects.
   * Between tasks the runtime is idle again.
   */
  method RunTask(rt: Runtime, host: Host, answers: seq<bool>)
    requires rt.Idle() && rt.queue != []
    modifies rt
    ensures rt.Idle()
    ensures old(rt.queue)[0].job == FlushEffectsJob ==>
      && rt.pendingEffects == [] && rt.pendingCleanups == []
      && rt.queue == old(rt.queue)[1..] && rt.fibers == old(rt.fibers)
  {
    var t := Dequeue(rt);
    if t.job == PerformWorkJob {
      var units, committed := PerformWork(rt, host, answers);
    } else {
      Commit.FlushPendingEffects(rt, host);
    }
  }

  // ---------------------------------------------------------------------
  // scheduleUpdate
  // ---------------------------------------------------------------------

  /**
   * The render scheduleUpdate starts, as `(element, container)`: none while
   * rendering or while the work loop runs, none without a current root, and
   * none when the root's element is falsy.
   */
  function UpdateTarget(rendering: bool, running: bool, fs: seq<Fiber>, cur: Option<FiberId>): (r: Option<(Value, DomId)>)
    requires WellLinked(fs) && InArena(fs, cur) && (cur.Some? ==> fs[cur.value].parent.None?)
    ensures r.Some? ==> !rendering && !running && cur.Some? && Truthy(r.value.0)
    ensures r.Some? ==> r.value.0 == RootElement(fs[cur.value].props) && fs[cur.value].dom == Some(r.value.1)
    ensures r.None? && !rendering && !running && cur.Some? ==> !Truthy(RootElement(fs[cur.value].props))
  {
    if rendering || cur.None? || running then None
    else
      var root := fs[cur.value];
      assert LinksOk(fs, cur.value);
      var element := RootElement(root.props);
      if Truthy(element) then Some((element, root.dom.value)) else None
  }

  /**
   * scheduleUpdate(): from the current root, the element it was rendered
   * from is rendered again into the same container (UpdateTarget says when).
   */
  method ScheduleUpdate(rt: Runtime)
    requires rt.Idle()
    modifies rt`fibers, rt`hookSets, rt`wipRoot, rt`nextUnitOfWork, rt`fibersToDelete, rt`nextObj
    modifies rt`queue, rt`nextTask, rt`scheduledTask
    ensures rt.Idle()
    ensures var t := UpdateTarget(old(rt.isRendering), old(rt.isWorkLoopRunning), old(rt.fibers), old(rt.currentRoot));
      && (t.None? ==> unchanged(rt))
      && (t.Some? ==> RenderStarted(rt, t.value.0, t.value.1) && RootArraysAdded(rt, old(rt.hookSets)))
  {
    if rt.isRendering || rt.currentRoot.None? {
      return;
    }
    var root := rt.fibers[rt.currentRoot.value];
    var element := RootElement(root.props);
    if Truthy(element) {
      assert LinksOk(rt.fibers, rt.currentRoot.value);
      SetWorkInProgress(rt, element, root.dom.value);
    }
  }
}
