/**
 * The commit phase of core/fiber.ts: commitWork, commitDeletion, the effect
 * collection that runs inside commitWork, commitRoot and
 * flushPendingEffects.
 *
 * The fiber arena and the hook arrays do not change while a tree is
 * committed, so what commitWork does to the outside world is a list of
 * writes (`CommitPlan`) computed from the arena; the methods carry the
 * writes out and are proved to match the list.  A write that throws (a ref
 * callback) ends the whole commit.
 */
module Commit {
  import opened Values
  import opened HookSlots
  import opened Dom
  import opened Arena
  import opened State
  import opened World
  import CreateDom
  import UseEffect

  // ---------------------------------------------------------------------
  // Effect collection
  // ---------------------------------------------------------------------

  /** The queue writes of one effect slot: a dirty hook's callable cleanup, then its effect. */
  function SlotOps(h: Option<EffectHook>, x: FiberId, i: nat): seq<Op> {
    if h.None? || !h.value.isDirty then []
    else
      (if IsFunction(h.value.cleanup) then [QueueCleanup(h.value.cleanup)] else [])
      + (if IsFunction(h.value.effect) then [QueueEffect(x, i)] else [])
  }

  /** The collection loop of commitWork over the fiber's effect array, from slot `i` on. */
  function EffectOps(effects: Slots<EffectHook>, x: FiberId, i: nat): seq<Op>
    decreases |effects| - i
  {
    if i >= |effects| then [] else SlotOps(effects[i], x, i) + EffectOps(effects, x, i + 1)
  }

  /** Slot `i` holds a hook whose effect is due: present, dirty, and a function. */
  predicate EffectDue(effects: Slots<EffectHook>, i: nat) {
    i < |effects| && effects[i].Some? && effects[i].value.isDirty && IsFunction(effects[i].value.effect)
  }

  /** The collection queues exactly the due effects of the fiber, by slot. */
  lemma {:induction false} EffectOpsQueues(effects: Slots<EffectHook>, x: FiberId, i: nat, j: nat)
    ensures QueueEffect(x, j) in EffectOps(effects, x, i) <==> i <= j && EffectDue(effects, j)
    decreases |effects| - i
  {
    if i < |effects| {
      EffectOpsQueues(effects, x, i + 1, j);
      assert EffectOps(effects, x, i) == SlotOps(effects[i], x, i) + EffectOps(effects, x, i + 1);
      SlotQueues(effects[i], x, i, j);
      assert EffectDue(effects, i) <==> effects[i].Some? && effects[i].value.isDirty && IsFunction(effects[i].value.effect);
    }
  }

  lemma SlotQueues(h: Option<EffectHook>, x: FiberId, i: nat, j: nat)
    ensures QueueEffect(x, j) in SlotOps(h, x, i) <==> j == i && h.Some? && h.value.isDirty && IsFunction(h.value.effect)
  {
    if h.Some? && h.value.isDirty {
      var a := if IsFunction(h.value.cleanup) then [QueueCleanup(h.value.cleanup)] else [];
      var b := if IsFunction(h.value.effect) then [QueueEffect(x, i)] else [];
      assert SlotOps(h, x, i) == a + b;
      assert QueueEffect(x, j) !in a;
    }
  }

  /** Slot `k` holds a dirty hook whose cleanup is the function `c`. */
  predicate CleanupDue(effects: Slots<EffectHook>, k: nat, c: Value) {
    k < |effects| && effects[k].Some? && effects[k].value.isDirty && effects[k].value.cleanup == c && IsFunction(c)
  }

  lemma SlotCleanups(h: Option<EffectHook>, x: FiberId, i: nat, c: Value)
    ensures QueueCleanup(c) in SlotOps(h, x, i) <==> h.Some? && h.value.isDirty && h.value.cleanup == c && IsFunction(c)
  {
    if h.Some? && h.value.isDirty {
      var a := if IsFunction(h.value.cleanup) then [QueueCleanup(h.value.cleanup)] else [];
      var b := if IsFunction(h.value.effect) then [QueueEffect(x, i)] else [];
      assert SlotOps(h, x, i) == a + b;
      assert QueueCleanup(c) !in b;
    }
  }

  /** A queued cleanup belongs to a dirty hook at or after slot `i`. */
  lemma {:induction false} QueuedCleanupIsDue(effects: Slots<EffectHook>, x: FiberId, i: nat, c: Value)
    requires QueueCleanup(c) in EffectOps(effects, x, i)
    ensures exists k :: i <= k && CleanupDue(effects, k, c)
    decreases |effects| - i
  {
    if i < |effects| {
      assert EffectOps(effects, x, i) == SlotOps(effects[i], x, i) + EffectOps(effects, x, i + 1);
      SlotCleanups(effects[i], x, i, c);
      if QueueCleanup(c) in SlotOps(effects[i], x, i) {
        assert CleanupDue(effects, i, c);
      } else {
        QueuedCleanupIsDue(effects, x, i + 1, c);
      }
    }
  }

  /** The cleanup of a dirty hook at slot `k >= i` is queued. */
  lemma {:induction false} DueCleanupIsQueued(effects: Slots<EffectHook>, x: FiberId, i: nat, k: nat, c: Value)
    requires i <= k && CleanupDue(effects, k, c)
    ensures QueueCleanup(c) in EffectOps(effects, x, i)
    decreases |effects| - i
  {
    assert EffectOps(effects, x, i) == SlotOps(effects[i], x, i) + EffectOps(effects, x, i + 1);
    if k == i {
      SlotCleanups(effects[i], x, i, c);
    } else {
      DueCleanupIsQueued(effects, x, i + 1, k, c);
    }
  }

  /** The collection queues exactly the callable cleanups of the fiber's dirty hooks. */
  lemma EffectOpsCleanups(effects: Slots<EffectHook>, x: FiberId, i: nat, c: Value)
    ensures QueueCleanup(c) in EffectOps(effects, x, i) <==> exists k :: i <= k && CleanupDue(effects, k, c)
  {
    if QueueCleanup(c) in EffectOps(effects, x, i) {
      QueuedCleanupIsDue(effects, x, i, c);
    }
    if exists k :: i <= k && CleanupDue(effects, k, c) {
      var k :| i <= k && CleanupDue(effects, k, c);
      DueCleanupIsQueued(effects, x, i, k, c);
    }
  }

  /** The collection writes nothing but the two queues, and only effects of its own fiber. */
  lemma {:induction false} EffectOpsOnlyQueue(effects: Slots<EffectHook>, x: FiberId, i: nat)
    ensures forall op :: op in EffectOps(effects, x, i) ==> (op.QueueEffect? && op.fiber == x) || op.QueueCleanup?
    decreases |effects| - i
  {
    if i < |effects| {
      EffectOpsOnlyQueue(effects, x, i + 1);
      assert EffectOps(effects, x, i) == SlotOps(effects[i], x, i) + EffectOps(effects, x, i + 1);
    }
  }

  /** The queue writes collected for fiber `x`: only a placed or updated function-typed fiber's. */
  function CollectOps(fs: seq<Fiber>, hs: map<FiberId, HookSet>, x: FiberId): seq<Op>
    requires HooksPresent(fs, hs) && x < |fs|
  {
    var fib := fs[x];
    if (fib.tag == Placement || fib.tag == Update) && IsFunctionType(fib.ftype)
    then EffectOps(OwnHooks(fs, hs, x).effects, x, 0)
    else []
  }

  /** Carrying out one slot's queue writes, as the collection loop does. */
  lemma ExecSlot(host: Host, w: Outside, h: Option<EffectHook>, x: FiberId, i: nat)
    ensures Exec(host, w, SlotOps(h, x, i)) ==
      (w.(cleanups := w.cleanups + (if h.Some? && h.value.isDirty && IsFunction(h.value.cleanup) then [h.value.cleanup] else []),
          effects := w.effects + (if h.Some? && h.value.isDirty && IsFunction(h.value.effect) then [PendingEffect(x, i)] else [])),
       true)
  {
    if h.Some? && h.value.isDirty {
      var a := if IsFunction(h.value.cleanup) then [QueueCleanup(h.value.cleanup)] else [];
      var b := if IsFunction(h.value.effect) then [QueueEffect(x, i)] else [];
      var w1 := if a != [] then w.(cleanups := w.cleanups + [h.value.cleanup]) else w;
      var w2 := if b != [] then w1.(effects := w1.effects + [PendingEffect(x, i)]) else w1;
      assert SlotOps(h, x, i) == a + b;
      ExecAppend(host, w, a, b);
      if a != [] {
        assert a[1..] == [];
        assert Exec(host, w, a) == Exec(host, ExecOp(host, w, a[0]).0, a[1..]);
      }
      assert Exec(host, w, a) == (w1, true);
      if b != [] {
        assert b[1..] == [];
        assert Exec(host, w1, b) == Exec(host, ExecOp(host, w1, b[0]).0, b[1..]);
      }
      assert Exec(host, w1, b) == (w2, true);
      var ca := if IsFunction(h.value.cleanup) then [h.value.cleanup] else [];
      var eb := if IsFunction(h.value.effect) then [PendingEffect(x, i)] else [];
      assert w2.cleanups == w.cleanups + ca && w2.effects == w.effects + eb;
      assert w2 == w.(cleanups := w.cleanups + ca, effects := w.effects + eb);
    } else {
      assert w.cleanups + [] == w.cleanups && w.effects + [] == w.effects;
    }
  }

  // ---------------------------------------------------------------------
  // Deletion
  // ---------------------------------------------------------------------

  /**
   * commitDeletion(fiber, domParent): the fiber's ref is detached (given
   * null); its node is removed from `p`, or, for a fiber without a node,
   * its children are deleted; with `siblings`, the fiber's later siblings
   * are deleted after it.
   */
  function DeletionOps(fs: seq<Fiber>, p: DomId, x: FiberId, siblings: bool): seq<Op>
    requires WellLinked(fs) && x < |fs|
    decreases |fs| - x
  {
    assert LinksOk(fs, x);
    var fib := fs[x];
    CreateDom.RefWrites(RefTarget(Get(fib.props, REF), Null))
    + ((if fib.dom.Some? then [RemoveNode(p, fib.dom.value)]
        else if fib.child.Some? then DeletionOps(fs, p, fib.child.value, true)
        else [])
       + (if siblings && fib.sibling.Some? then DeletionOps(fs, p, fib.sibling.value, true) else []))
  }

  /** commitDeletion as written: the sibling recursion applies to the deleted fiber itself too. */
  function DeletionPlanAsWritten(fs: seq<Fiber>, p: DomId, x: FiberId): seq<Op>
    requires WellLinked(fs) && x < |fs|
  {
    DeletionOps(fs, p, x, true)
  }

  /** commitDeletion as intended: the fiber's subtree, its children's siblings included, and no more. */
  function DeletionPlan(fs: seq<Fiber>, p: DomId, x: FiberId): seq<Op>
    requires WellLinked(fs) && x < |fs|
  {
    DeletionOps(fs, p, x, false)
  }

  /** The nodes a list of writes removes. */
  function Removed(ops: seq<Op>): set<DomId> {
    set k | 0 <= k < |ops| && ops[k].RemoveNode? :: ops[k].node
  }

  /** The nodes the fibers `ys` hold. */
  function DomsOf(fs: seq<Fiber>, ys: seq<FiberId>): set<DomId> {
    set k | 0 <= k < |ys| && ys[k] < |fs| && fs[ys[k]].dom.Some? :: fs[ys[k]].dom.value
  }

  lemma RemovedAppend(a: seq<Op>, b: seq<Op>)
    ensures Removed(a + b) == Removed(a) + Removed(b)
  {
    forall d | d in Removed(a + b) ensures d in Removed(a) + Removed(b) {
      var k :| 0 <= k < |a + b| && (a + b)[k].RemoveNode? && (a + b)[k].node == d;
      if k >= |a| { assert b[k - |a|] == (a + b)[k]; }
    }
    forall d | d in Removed(b) ensures d in Removed(a + b) {
      var k :| 0 <= k < |b| && b[k].RemoveNode? && b[k].node == d;
      assert (a + b)[|a| + k] == b[k];
    }
    forall d | d in Removed(a) ensures d in Removed(a + b) {
      var k :| 0 <= k < |a| && a[k].RemoveNode? && a[k].node == d;
      assert (a + b)[k] == a[k];
    }
  }

  lemma DomsOfAppend(fs: seq<Fiber>, a: seq<FiberId>, b: seq<FiberId>)
    ensures DomsOf(fs, a + b) == DomsOf(fs, a) + DomsOf(fs, b)
  {
    forall d | d in DomsOf(fs, a + b) ensures d in DomsOf(fs, a) + DomsOf(fs, b) {
      var k :| 0 <= k < |a + b| && (a + b)[k] < |fs| && fs[(a + b)[k]].dom.Some? && fs[(a + b)[k]].dom.value == d;
      if k >= |a| { assert b[k - |a|] == (a + b)[k]; }
    }
    forall d | d in DomsOf(fs, b) ensures d in DomsOf(fs, a + b) {
      var k :| 0 <= k < |b| && b[k] < |fs| && fs[b[k]].dom.Some? && fs[b[k]].dom.value == d;
      assert (a + b)[|a| + k] == b[k];
    }
    forall d | d in DomsOf(fs, a) ensures d in DomsOf(fs, a + b) {
      var k :| 0 <= k < |a| && a[k] < |fs| && fs[a[k]].dom.Some? && fs[a[k]].dom.value == d;
      assert (a + b)[k] == a[k];
    }
  }

  /** Writes that only detach refs and remove nodes from `p`. */
  predicate DetachesOrRemoves(ops: seq<Op>, p: DomId) {
    forall k :: 0 <= k < |ops| ==> ops[k].RefWrite? || (ops[k].RemoveNode? && ops[k].parent == p)
  }

  lemma DetachesOrRemovesAppend(a: seq<Op>, b: seq<Op>, p: DomId)
    requires DetachesOrRemoves(a, p) && DetachesOrRemoves(b, p)
    ensures DetachesOrRemoves(a + b, p)
  {
    forall k | 0 <= k < |a + b| ensures (a + b)[k].RefWrite? || ((a + b)[k].RemoveNode? && (a + b)[k].parent == p) {
      if k < |a| { assert (a + b)[k] == a[k]; } else { assert (a + b)[k] == b[k - |a|]; }
    }
  }

  /** A deletion only detaches refs and removes nodes from the parent node it was given. */
  lemma {:induction false} DeletionShape(fs: seq<Fiber>, p: DomId, x: FiberId, siblings: bool)
    requires WellLinked(fs) && x < |fs|
    ensures DetachesOrRemoves(DeletionOps(fs, p, x, siblings), p)
    decreases |fs| - x
  {
    assert LinksOk(fs, x);
    var fib := fs[x];
    var refs := CreateDom.RefWrites(RefTarget(Get(fib.props, REF), Null));
    var down := if fib.dom.Some? then [RemoveNode(p, fib.dom.value)]
                else if fib.child.Some? then DeletionOps(fs, p, fib.child.value, true)
                else [];
    var side := if siblings && fib.sibling.Some? then DeletionOps(fs, p, fib.sibling.value, true) else [];
    if fib.dom.None? && fib.child.Some? {
      DeletionShape(fs, p, fib.child.value, true);
    }
    if siblings && fib.sibling.Some? {
      DeletionShape(fs, p, fib.sibling.value, true);
    }
    DetachesOrRemovesAppend(down, side, p);
    DetachesOrRemovesAppend(refs, down + side, p);
  }

  lemma RefWritesRemoveNothing(ops: seq<RefOp>)
    ensures Removed(CreateDom.RefWrites(ops)) == {}
  {
    var w := CreateDom.RefWrites(ops);
    forall k | 0 <= k < |w| ensures w[k].RefWrite? { }
  }

  /** A deletion's writes: the ref detached, the node or else the children, then the siblings when asked. */
  lemma DeletionUnfold(fs: seq<Fiber>, p: DomId, x: FiberId, siblings: bool)
    requires WellLinked(fs) && x < |fs|
    ensures LinksOk(fs, x)
    ensures var fib := fs[x];
      Removed(DeletionOps(fs, p, x, siblings))
        == (if fib.dom.Some? then {fib.dom.value}
            else if fib.child.Some? then Removed(DeletionOps(fs, p, fib.child.value, true)) else {})
           + (if siblings && fib.sibling.Some? then Removed(DeletionOps(fs, p, fib.sibling.value, true)) else {})
  {
    assert LinksOk(fs, x);
    var fib := fs[x];
    var refs := CreateDom.RefWrites(RefTarget(Get(fib.props, REF), Null));
    var down := if fib.dom.Some? then [RemoveNode(p, fib.dom.value)]
                else if fib.child.Some? then DeletionOps(fs, p, fib.child.value, true)
                else [];
    var side := if siblings && fib.sibling.Some? then DeletionOps(fs, p, fib.sibling.value, true) else [];
    assert DeletionOps(fs, p, x, siblings) == refs + (down + side);
    if fib.dom.Some? {
      assert Removed(down) == {fib.dom.value} by {
        assert down[0].node == fib.dom.value;
      }
    }
    RefWritesRemoveNothing(RefTarget(Get(fib.props, REF), Null));
    RemovedAppend(down, side);
    RemovedAppend(refs, down + side);
  }

  /**
   * The nodes a deletion removes belong to the fiber's subtree (with
   * `siblings`, to the subtrees of the fiber and its later siblings).
   */
  lemma {:induction false} DeletionStaysInside(fs: seq<Fiber>, p: DomId, x: FiberId, siblings: bool)
    requires WellLinked(fs) && x < |fs|
    ensures Removed(DeletionOps(fs, p, x, siblings)) <= DomsOf(fs, if siblings then Forest(fs, x) else PreOrder(fs, x))
    decreases |fs| - x
  {
    DeletionUnfold(fs, p, x, siblings);
    var fib := fs[x];
    var pre := PreOrder(fs, x);
    var below := if fib.child.Some? then Forest(fs, fib.child.value) else [];
    assert pre == [x] + below;
    DomsOfAppend(fs, [x], below);
    if fib.dom.Some? {
      assert fib.dom.value in DomsOf(fs, [x]) by {
        assert [x][0] == x;
      }
    } else if fib.child.Some? {
      DeletionStaysInside(fs, p, fib.child.value, true);
    }
    if siblings {
      if fib.sibling.Some? {
        DeletionStaysInside(fs, p, fib.sibling.value, true);
        DomsOfAppend(fs, pre, Forest(fs, fib.sibling.value));
        assert Forest(fs, x) == pre + Forest(fs, fib.sibling.value);
      } else {
        assert Forest(fs, x) == pre + [];
      }
    }
  }

  /**
   * commitDeletion as written, for every fiber: the nodes it removes lie in
   * the subtrees of the fiber and of its later siblings, and among them is
   * the node of the fiber and of every later sibling that holds one.
   */
  lemma {:induction false} DeletionAsWrittenReachesSiblings(fs: seq<Fiber>, p: DomId, x: FiberId)
    requires WellLinked(fs) && x < |fs|
    ensures Removed(DeletionPlanAsWritten(fs, p, x)) <= DomsOf(fs, Forest(fs, x))
    ensures var sibs := Chain(fs, Some(x));
      forall k :: 0 <= k < |sibs| && fs[sibs[k]].dom.Some? ==> fs[sibs[k]].dom.value in Removed(DeletionPlanAsWritten(fs, p, x))
    decreases |fs| - x
  {
    DeletionStaysInside(fs, p, x, true);
    DeletionUnfold(fs, p, x, true);
    var sibs := Chain(fs, Some(x));
    var next := fs[x].sibling;
    assert sibs == [x] + Chain(fs, next);
    if next.Some? {
      DeletionAsWrittenReachesSiblings(fs, p, next.value);
    }
    forall k | 0 <= k < |sibs| && fs[sibs[k]].dom.Some?
      ensures fs[sibs[k]].dom.value in Removed(DeletionPlanAsWritten(fs, p, x))
    {
      if 0 < k {
        assert sibs[k] == Chain(fs, next)[k - 1];
      }
    }
  }

  /** A deleted fiber's own node is always among the nodes removed. */
  lemma DeletionRemovesOwnNode(fs: seq<Fiber>, p: DomId, x: FiberId, siblings: bool)
    requires WellLinked(fs) && x < |fs| && fs[x].dom.Some?
    ensures fs[x].dom.value in Removed(DeletionOps(fs, p, x, siblings))
  {
    DeletionUnfold(fs, p, x, siblings);
  }

  /**
   * The deletion of a fiber that has a later sibling: an old tree
   * [div, span] re-rendered as [p, span] deletes the div, and as written
   * the deletion goes on to the span's old fiber, whose node the new span
   * fiber still holds, and removes it from the screen.  The intended
   * deletion removes the div's node only.
   */
  lemma DeletionReachesKeptSibling()
    ensures var fs := SiblingArena();
      && WellLinked(fs)
      && fs[1].tag == Deletion && fs[5].tag == Update && fs[5].alternate == Some(2) && fs[5].dom == Some(2)
      && DeletionPlanAsWritten(fs, 0, 1) == [RemoveNode(0, 1), RemoveNode(0, 2)]
      && DeletionPlan(fs, 0, 1) == [RemoveNode(0, 1)]
  {
    var fs := SiblingArena();
    assert LinksOk(fs, 0) && LinksOk(fs, 1) && LinksOk(fs, 2) && LinksOk(fs, 3) && LinksOk(fs, 4) && LinksOk(fs, 5);
    assert Get(CreateDom.NoProps, REF) == Undefined;
  }

  /**
   * The arena of that re-render: the old root 0 with children div 1 (being
   * deleted) and span 2, and the new root 3 with children p 4 (placed) and
   * span 5 (the updated span 2, holding node 2).
   */
  function SiblingArena(): seq<Fiber> {
    var p := CreateDom.NoProps;
    [ Fiber(Untyped, p, Some(0), None, Some(1), None, None, NoTag, 0, 0),
      Fiber(Tag("div"), p, Some(1), Some(0), None, Some(2), None, Deletion, 1, 0),
      Fiber(Tag("span"), p, Some(2), Some(0), None, None, None, NoTag, 2, 0),
      Fiber(Untyped, p, Some(0), None, Some(4), None, Some(0), NoTag, 3, 0),
      Fiber(Tag("p"), p, Some(3), Some(3), None, Some(5), None, Placement, 4, 0),
      Fiber(Tag("span"), p, Some(2), Some(3), None, None, Some(2), Update, 5, 0) ]
  }

  // ---------------------------------------------------------------------
  // commitWork
  // ---------------------------------------------------------------------

  /** The cleanup calls of cleanupEffects, each caught. */
  function CleanupOps(cs: seq<Value>): (r: seq<Op>)
    ensures |r| == |cs| && forall k :: 0 <= k < |cs| ==> r[k] == RunCleanup(cs[k])
  {
    seq(|cs|, k requires 0 <= k < |cs| => RunCleanup(cs[k]))
  }

  /** Running the cleanup calls logs one call per cleanup and never stops. */
  lemma {:induction false} CleanupOpsLog(host: Host, w: Outside, cs: seq<Value>)
    ensures Exec(host, w, CleanupOps(cs)) == (w.(log := w.log + UseEffect.Invocations(cs)), true)
    decreases |cs|
  {
    var ops := CleanupOps(cs);
    if cs != [] {
      var w1 := w.(log := w.log + [Invoke(cs[0], [])]);
      assert ops[0] == RunCleanup(cs[0]);
      assert ops[1..] == CleanupOps(cs[1..]);
      assert Exec(host, w, ops) == Exec(host, w1, ops[1..]);
      CleanupOpsLog(host, w1, cs[1..]);
      var inv := UseEffect.Invocations(cs);
      var rest := UseEffect.Invocations(cs[1..]);
      assert |w1.log + rest| == |w.log + inv|;
      forall k | 0 <= k < |w.log + inv| ensures (w1.log + rest)[k] == (w.log + inv)[k] {
        if k > |w.log| {
          assert (w1.log + rest)[k] == rest[k - |w.log| - 1];
        }
      }
      assert w1.log + rest == w.log + inv;
      assert w1.(log := w1.log + rest) == w.(log := w.log + inv);
    } else {
      assert UseEffect.Invocations(cs) == [] && w.log + [] == w.log;
    }
  }

  /** `fiber.alternate?.props || {}`. */
  function PrevProps(fs: seq<Fiber>, x: FiberId): Props
    requires WellLinked(fs) && x < |fs|
  {
    assert LinksOk(fs, x);
    if fs[x].alternate.Some? then fs[fs[x].alternate.value].props else CreateDom.NoProps
  }

  /** The node write of commitWork for a placed or updated fiber. */
  function LocalOps(fs: seq<Fiber>, kinds: seq<NodeKind>, x: FiberId, parentDom: Option<DomId>): seq<Op>
    requires WellLinked(fs) && x < |fs| && (fs[x].dom.Some? ==> fs[x].dom.value < |kinds|)
  {
    var fib := fs[x];
    if fib.tag == Placement && fib.dom.Some? && parentDom.Some? then [AppendNode(parentDom.value, fib.dom.value)]
    else if fib.tag == Update && fib.dom.Some? then UpdateDomOps(kinds[fib.dom.value], fib.dom.value, PrevProps(fs, x), fib.props)
    else []
  }

  /**
   * commitWork(fiber): a SKIP fiber goes straight on to its child and
   * sibling; a DELETION fiber under a node has its own cleanups called and
   * is deleted by commitDeletion as written (its subtree and its later
   * siblings' subtrees), and its children are not visited; any other fiber
   * has its node appended or updated, its effects collected, and then its
   * child and its sibling committed.  `kinds` are the node kinds.
   */
  function CommitPlan(fs: seq<Fiber>, hs: map<FiberId, HookSet>, kinds: seq<NodeKind>, x: FiberId): seq<Op>
    requires ArenaOk(fs, hs, |kinds|) && x < |fs|
    decreases |fs| - x, 1
  {
    assert LinksOk(fs, x);
    var fib := fs[x];
    var parentDom := NearestDom(fs, fib.parent);
    if fib.tag == Skip then RestPlan(fs, hs, kinds, x)
    else if fib.tag == Deletion && parentDom.Some? then
      CleanupOps(UseEffect.Cleanups(OwnHooks(fs, hs, x).effects)) + DeletionPlanAsWritten(fs, parentDom.value, x)
    else LocalOps(fs, kinds, x, parentDom) + (CollectOps(fs, hs, x) + RestPlan(fs, hs, kinds, x))
  }

  /** `commitWork(fiber.child); commitWork(fiber.sibling)`. */
  function RestPlan(fs: seq<Fiber>, hs: map<FiberId, HookSet>, kinds: seq<NodeKind>, x: FiberId): seq<Op>
    requires ArenaOk(fs, hs, |kinds|) && x < |fs|
    decreases |fs| - x, 0
  {
    assert LinksOk(fs, x);
    (if fs[x].child.Some? then CommitPlan(fs, hs, kinds, fs[x].child.value) else [])
    + (if fs[x].sibling.Some? then CommitPlan(fs, hs, kinds, fs[x].sibling.value) else [])
  }

  /** Every effect queued names a fiber of the arena and one of its due effects. */
  ghost predicate QueuesDue(fs: seq<Fiber>, hs: map<FiberId, HookSet>, ops: seq<Op>) {
    forall k :: 0 <= k < |ops| && ops[k].QueueEffect? ==>
      ops[k].fiber < |fs| && fs[ops[k].fiber].hooks in hs
      && EffectDue(hs[fs[ops[k].fiber].hooks].effects, ops[k].index)
  }

  lemma QueuesDueAppend(fs: seq<Fiber>, hs: map<FiberId, HookSet>, a: seq<Op>, b: seq<Op>)
    requires QueuesDue(fs, hs, a) && QueuesDue(fs, hs, b)
    ensures QueuesDue(fs, hs, a + b)
  {
    forall k | 0 <= k < |a + b| && (a + b)[k].QueueEffect?
      ensures (a + b)[k].fiber < |fs| && fs[(a + b)[k].fiber].hooks in hs
              && EffectDue(hs[fs[(a + b)[k].fiber].hooks].effects, (a + b)[k].index)
    {
      if k < |a| { assert (a + b)[k] == a[k]; } else { assert (a + b)[k] == b[k - |a|]; }
    }
  }

  /** Writes that queue no effect. */
  predicate QueuesNothing(ops: seq<Op>) {
    forall k :: 0 <= k < |ops| ==> !ops[k].QueueEffect?
  }

  lemma UpdateDomOpsQueueNothing(kind: NodeKind, node: DomId, prev: Props, next: Props)
    ensures QueuesNothing(UpdateDomOps(kind, node, prev, next))
  {
  }

  /** Only the collection queues effects, and only the fiber's own due ones. */
  lemma CollectQueuesDue(fs: seq<Fiber>, hs: map<FiberId, HookSet>, x: FiberId)
    requires HooksPresent(fs, hs) && x < |fs|
    ensures QueuesDue(fs, hs, CollectOps(fs, hs, x))
  {
    var ops := CollectOps(fs, hs, x);
    var fib := fs[x];
    if (fib.tag == Placement || fib.tag == Update) && IsFunctionType(fib.ftype) {
      var effects := OwnHooks(fs, hs, x).effects;
      EffectOpsOnlyQueue(effects, x, 0);
      forall k | 0 <= k < |ops| && ops[k].QueueEffect?
        ensures ops[k].fiber < |fs| && fs[ops[k].fiber].hooks in hs
                && EffectDue(hs[fs[ops[k].fiber].hooks].effects, ops[k].index)
      {
        assert ops[k] in ops;
        EffectOpsQueues(effects, x, 0, ops[k].index);
      }
    }
  }

  /**
   * Every effect a commit queues names a fiber of the arena and a slot of
   * that fiber's effect array holding a dirty hook whose effect is a
   * function, so the flush that follows finds a hook to run there.
   */
  lemma {:induction false} CommitQueuesDue(fs: seq<Fiber>, hs: map<FiberId, HookSet>, kinds: seq<NodeKind>, x: FiberId)
    requires ArenaOk(fs, hs, |kinds|) && x < |fs|
    ensures QueuesDue(fs, hs, CommitPlan(fs, hs, kinds, x))
    decreases |fs| - x, 1
  {
    assert LinksOk(fs, x);
    var fib := fs[x];
    var parentDom := NearestDom(fs, fib.parent);
    if fib.tag == Skip {
      RestQueuesDue(fs, hs, kinds, x);
    } else if fib.tag == Deletion && parentDom.Some? {
      var cs := CleanupOps(UseEffect.Cleanups(OwnHooks(fs, hs, x).effects));
      DeletionShape(fs, parentDom.value, x, true);
      QueuesDueAppend(fs, hs, cs, DeletionPlanAsWritten(fs, parentDom.value, x));
    } else {
      var local := LocalOps(fs, kinds, x, parentDom);
      if fib.tag == Update && fib.dom.Some? && !(fib.tag == Placement && parentDom.Some?) {
        UpdateDomOpsQueueNothing(kinds[fib.dom.value], fib.dom.value, PrevProps(fs, x), fib.props);
      }
      assert QueuesNothing(local);
      CollectQueuesDue(fs, hs, x);
      RestQueuesDue(fs, hs, kinds, x);
      QueuesDueAppend(fs, hs, CollectOps(fs, hs, x), RestPlan(fs, hs, kinds, x));
      QueuesDueAppend(fs, hs, local, CollectOps(fs, hs, x) + RestPlan(fs, hs, kinds, x));
    }
  }

  lemma {:induction false} RestQueuesDue(fs: seq<Fiber>, hs: map<FiberId, HookSet>, kinds: seq<NodeKind>, x: FiberId)
    requires ArenaOk(fs, hs, |kinds|) && x < |fs|
    ensures QueuesDue(fs, hs, RestPlan(fs, hs, kinds, x))
    decreases |fs| - x, 0
  {
    assert LinksOk(fs, x);
    var a := if fs[x].child.Some? then CommitPlan(fs, hs, kinds, fs[x].child.value) else [];
    var b := if fs[x].sibling.Some? then CommitPlan(fs, hs, kinds, fs[x].sibling.value) else [];
    if fs[x].child.Some? { CommitQueuesDue(fs, hs, kinds, fs[x].child.value); }
    if fs[x].sibling.Some? { CommitQueuesDue(fs, hs, kinds, fs[x].sibling.value); }
    QueuesDueAppend(fs, hs, a, b);
  }

  // ---------------------------------------------------------------------
  // The methods of the commit
  // ---------------------------------------------------------------------

  /** The `domParentFiber` loop of commitWork: the node of the nearest fiber with one, from `p` up. */
  method FindDomParent(rt: Runtime, p: Option<FiberId>) returns (d: Option<DomId>)
    requires rt.Valid() && InArena(rt.fibers, p)
    ensures d == NearestDom(rt.fibers, p)
  {
    var y := p;
    while y.Some? && rt.fibers[y.value].dom.None?
      invariant InArena(rt.fibers, y)
      invariant NearestDom(rt.fibers, p) == NearestDom(rt.fibers, y)
      decreases if y.Some? then y.value + 1 else 0
    {
      assert LinksOk(rt.fibers, y.value);
      y := rt.fibers[y.value].parent;
    }
    d := if y.Some? then rt.fibers[y.value].dom else None;
  }

  /** One pass of the collection loop: slot `i` of fiber `x`. */
  method QueueSlot(rt: Runtime, host: Host, hook: Option<EffectHook>, x: FiberId, i: nat)
    requires rt.Valid() && x < |rt.fibers|
    modifies rt`pendingEffects, rt`pendingCleanups
    ensures rt.Valid()
    ensures (Snap(rt), true) == Exec(host, old(Snap(rt)), SlotOps(hook, x, i))
  {
    ExecSlot(host, Snap(rt), hook, x, i);
    if hook.Some? && hook.value.isDirty {
      if IsFunction(hook.value.cleanup) {
        rt.pendingCleanups := rt.pendingCleanups + [hook.value.cleanup];
      }
      if IsFunction(hook.value.effect) {
        rt.pendingEffects := rt.pendingEffects + [PendingEffect(x, i)];
      }
    }
  }

  /** The effect collection of commitWork for fiber `x` (it makes no call). */
  method CollectEffects(rt: Runtime, host: Host, x: FiberId)
    requires rt.Valid() && x < |rt.fibers|
    modifies rt`pendingEffects, rt`pendingCleanups
    ensures rt.Valid()
    ensures (Snap(rt), true) == Exec(host, old(Snap(rt)), CollectOps(rt.fibers, rt.hookSets, x))
  {
    var fib := rt.fibers[x];
    if !((fib.tag == Placement || fib.tag == Update) && IsFunctionType(fib.ftype)) {
      return;
    }
    var effects := rt.hookSets[fib.hooks].effects;
    var i := 0;
    while i < |effects|
      invariant 0 <= i <= |effects| && rt.Valid()
      invariant Exec(host, old(Snap(rt)), EffectOps(effects, x, 0)) == Exec(host, Snap(rt), EffectOps(effects, x, i))
    {
      ghost var w := Snap(rt);
      QueueSlot(rt, host, effects[i], x, i);
      ExecAppend(host, w, SlotOps(effects[i], x, i), EffectOps(effects, x, i + 1));
      assert EffectOps(effects, x, i) == SlotOps(effects[i], x, i) + EffectOps(effects, x, i + 1);
      i := i + 1;
    }
  }

  /** commitDeletion(fiber, p): the ref, the node or else the children, then the later siblings. */
  method CommitDeletion(rt: Runtime, host: Host, p: DomId, x: FiberId) returns (ok: bool)
    requires rt.Valid() && x < |rt.fibers|
    modifies rt`doms, rt`refs, rt`log, rt`pendingEffects, rt`pendingCleanups
    ensures rt.Valid()
    ensures (Snap(rt), ok) == Exec(host, old(Snap(rt)), DeletionPlanAsWritten(rt.fibers, p, x))
    decreases |rt.fibers| - x
  {
    assert LinksOk(rt.fibers, x);
    var fib := rt.fibers[x];
    ghost var w0 := Snap(rt);
    ok := PerformAll(rt, host, CreateDom.RefWrites(RefTarget(Get(fib.props, REF), Null)));
    ghost var r1 := (Snap(rt), ok);
    ghost var r2 := r1;
    if ok {
      if fib.dom.Some? {
        ok := Perform(rt, host, RemoveNode(p, fib.dom.value));
      } else if fib.child.Some? {
        ok := CommitDeletion(rt, host, p, fib.child.value);
      }
      r2 := (Snap(rt), ok);
      if ok && fib.sibling.Some? {
        ok := CommitDeletion(rt, host, p, fib.sibling.value);
      }
    }
    DeletionThen(host, w0, rt.fibers, p, x, true, r1, r2, (Snap(rt), ok));
  }

  /** The writes of CommitDeletion in its three stages: the ref, the node or the children, the siblings. */
  lemma DeletionThen(host: Host, w: Outside, fs: seq<Fiber>, p: DomId, x: FiberId, siblings: bool,
                     r1: (Outside, bool), r2: (Outside, bool), r3: (Outside, bool))
    requires WellLinked(fs) && x < |fs|
    requires r1 == Exec(host, w, CreateDom.RefWrites(RefTarget(Get(fs[x].props, REF), Null)))
    requires !r1.1 ==> r2 == r1 && r3 == r1
    requires r1.1 && fs[x].dom.Some? ==> r2 == ExecOp(host, r1.0, RemoveNode(p, fs[x].dom.value))
    requires r1.1 && fs[x].dom.None? && fs[x].child.Some? ==>
      assert LinksOk(fs, x); r2 == Exec(host, r1.0, DeletionOps(fs, p, fs[x].child.value, true))
    requires r1.1 && fs[x].dom.None? && fs[x].child.None? ==> r2 == (r1.0, true)
    requires r1.1 && !r2.1 ==> r3 == r2
    requires r1.1 && r2.1 && siblings && fs[x].sibling.Some? ==>
      assert LinksOk(fs, x); r3 == Exec(host, r2.0, DeletionOps(fs, p, fs[x].sibling.value, true))
    requires r1.1 && r2.1 && !(siblings && fs[x].sibling.Some?) ==> r3 == r2
    ensures Exec(host, w, DeletionOps(fs, p, x, siblings)) == r3
  {
    assert LinksOk(fs, x);
    var fib := fs[x];
    var refs := CreateDom.RefWrites(RefTarget(Get(fib.props, REF), Null));
    var down := if fib.dom.Some? then [RemoveNode(p, fib.dom.value)]
                else if fib.child.Some? then DeletionOps(fs, p, fib.child.value, true)
                else [];
    var side := if siblings && fib.sibling.Some? then DeletionOps(fs, p, fib.sibling.value, true) else [];
    assert DeletionOps(fs, p, x, siblings) == refs + (down + side);
    ExecAppend(host, w, refs, down + side);
    if r1.1 {
      ExecAppend(host, r1.0, down, side);
      if fib.dom.Some? {
        assert down[1..] == [];
      }
    }
  }

  /** The node write of commitWork: appending a placed fiber's node, or updating an updated one's. */
  method WriteNode(rt: Runtime, host: Host, x: FiberId, parentDom: Option<DomId>) returns (ok: bool)
    requires rt.Valid() && x < |rt.fibers|
    modifies rt`doms, rt`refs, rt`log, rt`pendingEffects, rt`pendingCleanups
    ensures rt.Valid()
    ensures (Snap(rt), ok) == Exec(host, old(Snap(rt)), LocalOps(rt.fibers, Kinds(old(rt.doms)), x, parentDom))
  {
    var fib := rt.fibers[x];
    ghost var w0 := Snap(rt);
    ghost var local := LocalOps(rt.fibers, Kinds(rt.doms), x, parentDom);
    assert LinksOk(rt.fibers, x);
    if fib.tag == Placement && fib.dom.Some? && parentDom.Some? {
      ok := Perform(rt, host, AppendNode(parentDom.value, fib.dom.value));
      assert local[1..] == [];
      assert Exec(host, w0, local) == Exec(host, ExecOp(host, w0, local[0]).0, local[1..]);
    } else if fib.tag == Update && fib.dom.Some? {
      var prev := if fib.alternate.Some? then rt.fibers[fib.alternate.value].props else CreateDom.NoProps;
      ok := UpdateDom(rt, host, fib.dom.value, prev, fib.props);
    } else {
      ok := true;
    }
  }

  /** The DELETION branch of commitWork: the fiber's own cleanups, then its deletion from `p`. */
  method DeleteFiber(rt: Runtime, host: Host, x: FiberId, p: DomId) returns (ok: bool)
    requires rt.Valid() && x < |rt.fibers|
    modifies rt`doms, rt`refs, rt`log, rt`pendingEffects, rt`pendingCleanups
    ensures rt.Valid()
    ensures (Snap(rt), ok) == Exec(host, old(Snap(rt)),
      CleanupOps(UseEffect.Cleanups(OwnHooks(rt.fibers, rt.hookSets, x).effects)) + DeletionPlanAsWritten(rt.fibers, p, x))
  {
    ghost var w0 := Snap(rt);
    ghost var cs := UseEffect.Cleanups(OwnHooks(rt.fibers, rt.hookSets, x).effects);
    UseEffect.CleanupEffects(rt, x);
    CleanupOpsLog(host, w0, cs);
    ExecAppend(host, w0, CleanupOps(cs), DeletionPlanAsWritten(rt.fibers, p, x));
    ok := CommitDeletion(rt, host, p, x);
  }

  /**
   * commitWork(fiber), proved to make the writes of CommitPlan in order,
   * up to the first that throws.
   */
  method CommitWork(rt: Runtime, host: Host, x: FiberId) returns (ok: bool)
    requires rt.Valid() && x < |rt.fibers|
    modifies rt`doms, rt`refs, rt`log, rt`pendingEffects, rt`pendingCleanups
    ensures rt.Valid()
    ensures (Snap(rt), ok) == Exec(host, old(Snap(rt)), CommitPlan(rt.fibers, rt.hookSets, Kinds(old(rt.doms)), x))
    decreases |rt.fibers| - x, 2
  {
    assert LinksOk(rt.fibers, x);
    var fib := rt.fibers[x];
    var parentDom := FindDomParent(rt, fib.parent);
    if fib.tag == Skip {
      ok := CommitRest(rt, host, x);
    } else if fib.tag == Deletion && parentDom.Some? {
      ok := DeleteFiber(rt, host, x, parentDom.value);
    } else {
      ok := CommitOwn(rt, host, x, parentDom);
    }
  }

  /** commitWork of a fiber that is neither SKIP nor deleted under a node: its own writes, then its child and sibling. */
  method CommitOwn(rt: Runtime, host: Host, x: FiberId, parentDom: Option<DomId>) returns (ok: bool)
    requires rt.Valid() && x < |rt.fibers|
    modifies rt`doms, rt`refs, rt`log, rt`pendingEffects, rt`pendingCleanups
    ensures rt.Valid()
    ensures (Snap(rt), ok) == Exec(host, old(Snap(rt)),
      LocalOps(rt.fibers, Kinds(old(rt.doms)), x, parentDom)
        + (CollectOps(rt.fibers, rt.hookSets, x) + RestPlan(rt.fibers, rt.hookSets, Kinds(old(rt.doms)), x)))
    decreases |rt.fibers| - x, 1
  {
    ghost var kinds := Kinds(rt.doms);
    ghost var w0 := Snap(rt);
    ok := WriteAndCollect(rt, host, x, parentDom);
    ghost var mid := (Snap(rt), ok);
    if ok {
      assert Kinds(rt.doms) == kinds;
      ok := CommitRest(rt, host, x);
    }
    OwnThenRest(host, w0, rt.fibers, rt.hookSets, kinds, x, parentDom, mid, (Snap(rt), ok));
  }

  /** The writes of CommitOwn are the fiber's own, then, unless they threw, the rest. */
  lemma OwnThenRest(host: Host, w: Outside, fs: seq<Fiber>, hs: map<FiberId, HookSet>, kinds: seq<NodeKind>, x: FiberId,
                    parentDom: Option<DomId>, mid: (Outside, bool), fin: (Outside, bool))
    requires ArenaOk(fs, hs, |kinds|) && x < |fs|
    requires mid == Exec(host, w, LocalOps(fs, kinds, x, parentDom) + CollectOps(fs, hs, x))
    requires mid.1 ==> fin == Exec(host, mid.0, RestPlan(fs, hs, kinds, x))
    ensures Exec(host, w, LocalOps(fs, kinds, x, parentDom) + (CollectOps(fs, hs, x) + RestPlan(fs, hs, kinds, x)))
      == if mid.1 then fin else mid
  {
    var own := LocalOps(fs, kinds, x, parentDom) + CollectOps(fs, hs, x);
    var rest := RestPlan(fs, hs, kinds, x);
    assert own + rest == LocalOps(fs, kinds, x, parentDom) + (CollectOps(fs, hs, x) + rest);
    ExecAppend(host, w, own, rest);
  }

  /** The fiber's own part of commitWork: its node written, then its effects collected. */
  method WriteAndCollect(rt: Runtime, host: Host, x: FiberId, parentDom: Option<DomId>) returns (ok: bool)
    requires rt.Valid() && x < |rt.fibers|
    modifies rt`doms, rt`refs, rt`log, rt`pendingEffects, rt`pendingCleanups
    ensures rt.Valid()
    ensures (Snap(rt), ok) == Exec(host, old(Snap(rt)),
      LocalOps(rt.fibers, Kinds(old(rt.doms)), x, parentDom) + CollectOps(rt.fibers, rt.hookSets, x))
  {
    ghost var kinds := Kinds(rt.doms);
    ghost var w0 := Snap(rt);
    ExecAppend(host, w0, LocalOps(rt.fibers, kinds, x, parentDom), CollectOps(rt.fibers, rt.hookSets, x));
    ok := WriteNode(rt, host, x, parentDom);
    if ok {
      CollectEffects(rt, host, x);
    }
  }

  /** `commitWork(fiber.child); commitWork(fiber.sibling)`. */
  method CommitRest(rt: Runtime, host: Host, x: FiberId) returns (ok: bool)
    requires rt.Valid() && x < |rt.fibers|
    modifies rt`doms, rt`refs, rt`log, rt`pendingEffects, rt`pendingCleanups
    ensures rt.Valid()
    ensures (Snap(rt), ok) == Exec(host, old(Snap(rt)), RestPlan(rt.fibers, rt.hookSets, Kinds(old(rt.doms)), x))
    decreases |rt.fibers| - x, 0
  {
    assert LinksOk(rt.fibers, x);
    var fib := rt.fibers[x];
    ghost var kinds := Kinds(rt.doms);
    ghost var w0 := Snap(rt);
    ghost var a := if fib.child.Some? then CommitPlan(rt.fibers, rt.hookSets, kinds, fib.child.value) else [];
    ghost var b := if fib.sibling.Some? then CommitPlan(rt.fibers, rt.hookSets, kinds, fib.sibling.value) else [];
    ExecAppend(host, w0, a, b);
    ok := true;
    if fib.child.Some? {
      ok := CommitWork(rt, host, fib.child.value);
    }
    if ok && fib.sibling.Some? {
      ok := CommitWork(rt, host, fib.sibling.value);
    }
  }

  // ---------------------------------------------------------------------
  // commitRoot
  // ---------------------------------------------------------------------

  /** commitWork over each fiber of `xs`, in order. */
  function CommitAll(fs: seq<Fiber>, hs: map<FiberId, HookSet>, kinds: seq<NodeKind>, xs: seq<FiberId>): seq<Op>
    requires ArenaOk(fs, hs, |kinds|) && forall k :: 0 <= k < |xs| ==> xs[k] < |fs|
    decreases |xs|
  {
    if xs == [] then [] else CommitPlan(fs, hs, kinds, xs[0]) + CommitAll(fs, hs, kinds, xs[1..])
  }

  /** The writes of commitRoot: the deletions first, then the new tree from the root's child. */
  function RootPlan(fs: seq<Fiber>, hs: map<FiberId, HookSet>, kinds: seq<NodeKind>, dels: seq<FiberId>, root: FiberId): seq<Op>
    requires ArenaOk(fs, hs, |kinds|) && root < |fs| && forall k :: 0 <= k < |dels| ==> dels[k] < |fs|
  {
    assert LinksOk(fs, root);
    CommitAll(fs, hs, kinds, dels) + if fs[root].child.Some? then CommitPlan(fs, hs, kinds, fs[root].child.value) else []
  }

  /** The loop of commitRoot over the deletion list. */
  method CommitDeletions(rt: Runtime, host: Host, dels: seq<FiberId>) returns (ok: bool)
    requires rt.Valid() && forall k :: 0 <= k < |dels| ==> dels[k] < |rt.fibers|
    modifies rt`doms, rt`refs, rt`log, rt`pendingEffects, rt`pendingCleanups
    ensures rt.Valid()
    ensures (Snap(rt), ok) == Exec(host, old(Snap(rt)), CommitAll(rt.fibers, rt.hookSets, Kinds(old(rt.doms)), dels))
  {
    ghost var kinds := Kinds(rt.doms);
    ghost var w0 := Snap(rt);
    var i := 0;
    ok := true;
    while i < |dels|
      invariant 0 <= i <= |dels| && rt.Valid() && ok
      invariant Kinds(rt.doms) == kinds
      invariant Exec(host, w0, CommitAll(rt.fibers, rt.hookSets, kinds, dels))
             == Exec(host, Snap(rt), CommitAll(rt.fibers, rt.hookSets, kinds, dels[i..]))
    {
      assert dels[i..][0] == dels[i] && dels[i..][1..] == dels[i + 1..];
      ghost var w := Snap(rt);
      ok := CommitWork(rt, host, dels[i]);
      ExecAppend(host, w, CommitPlan(rt.fibers, rt.hookSets, kinds, dels[i]), CommitAll(rt.fibers, rt.hookSets, kinds, dels[i + 1..]));
      if !ok {
        return;
      }
      i := i + 1;
    }
  }

  /**
   * commitRoot(): the deletions are committed, then the root's child; a
   * flush of the effects is scheduled when the root has a child; the
   * committed root becomes current and the deletion list is emptied.  A
   * write that throws leaves commitRoot before any of the bookkeeping.
   */
  method CommitRoot(rt: Runtime, host: Host) returns (ok: bool)
    requires rt.Valid() && rt.wipRoot.Some?
    modifies rt`doms, rt`refs, rt`log, rt`pendingEffects, rt`pendingCleanups
    modifies rt`queue, rt`nextTask, rt`currentRoot, rt`wipRoot, rt`fibersToDelete
    ensures rt.Valid()
    ensures (Snap(rt), ok) == Exec(host, old(Snap(rt)),
      RootPlan(rt.fibers, rt.hookSets, Kinds(old(rt.doms)), old(rt.fibersToDelete), old(rt.wipRoot).value))
    ensures ok ==>
      var root := old(rt.wipRoot).value;
      && rt.currentRoot == Some(root) && rt.wipRoot.None? && rt.fibersToDelete == []
      && (rt.fibers[root].child.Some? ==>
            rt.queue == old(rt.queue) + [Task(old(rt.nextTask), FlushEffectsJob)] && rt.nextTask == old(rt.nextTask) + 1)
      && (rt.fibers[root].child.None? ==> rt.queue == old(rt.queue) && rt.nextTask == old(rt.nextTask))
    ensures !ok ==>
      && rt.currentRoot == old(rt.currentRoot) && rt.wipRoot == old(rt.wipRoot)
      && rt.fibersToDelete == old(rt.fibersToDelete) && rt.queue == old(rt.queue) && rt.nextTask == old(rt.nextTask)
  {
    var root := rt.wipRoot.value;
    ok := CommitWrites(rt, host, rt.fibersToDelete, root);
    if ok {
      if rt.fibers[root].child.Some? {
        rt.queue := rt.queue + [Task(rt.nextTask, FlushEffectsJob)];
        rt.nextTask := rt.nextTask + 1;
      }
      SwapRoots(rt);
    }
  }

  /** The bookkeeping that ends commitRoot: the committed tree becomes the current one. */
  method SwapRoots(rt: Runtime)
    requires rt.Valid() && rt.wipRoot.Some?
    modifies rt`currentRoot, rt`wipRoot, rt`fibersToDelete
    ensures rt.Valid()
    ensures rt.currentRoot == old(rt.wipRoot) && rt.wipRoot.None? && rt.fibersToDelete == []
  {
    rt.currentRoot := rt.wipRoot;
    rt.wipRoot := None;
    rt.fibersToDelete := [];
  }

  /** The writes of commitRoot: the deletion list, then the tree under the root. */
  method CommitWrites(rt: Runtime, host: Host, dels: seq<FiberId>, root: FiberId) returns (ok: bool)
    requires rt.Valid() && root < |rt.fibers| && forall k :: 0 <= k < |dels| ==> dels[k] < |rt.fibers|
    modifies rt`doms, rt`refs, rt`log, rt`pendingEffects, rt`pendingCleanups
    ensures rt.Valid()
    ensures (Snap(rt), ok) == Exec(host, old(Snap(rt)), RootPlan(rt.fibers, rt.hookSets, Kinds(old(rt.doms)), dels, root))
  {
    ghost var kinds := Kinds(rt.doms);
    ghost var w0 := Snap(rt);
    assert LinksOk(rt.fibers, root);
    ghost var tree := if rt.fibers[root].child.Some? then CommitPlan(rt.fibers, rt.hookSets, kinds, rt.fibers[root].child.value) else [];
    ghost var all := CommitAll(rt.fibers, rt.hookSets, kinds, dels);
    ExecAppend(host, w0, all, tree);
    ok := CommitDeletions(rt, host, dels);
    if ok && rt.fibers[root].child.Some? {
      ok := CommitWork(rt, host, rt.fibers[root].child.value);
    }
  }

  // ---------------------------------------------------------------------
  // flushPendingEffects
  // ---------------------------------------------------------------------

  /**
   * One pending effect: the hook now in the slot, if any, has its effect
   * called; a returned function becomes the hook's cleanup and anything
   * else clears it; a throw is caught and leaves the hook as it was.
   */
  function RunEffect(host: Host, fs: seq<Fiber>, hs: map<FiberId, HookSet>, log: seq<Event>, pe: PendingEffect): (r: (map<FiberId, HookSet>, seq<Event>))
    requires HooksPresent(fs, hs) && pe.fiber < |fs|
    ensures r.0.Keys == hs.Keys
  {
    var key := fs[pe.fiber].hooks;
    var effects := hs[key].effects;
    match SlotAt(effects, pe.index)
    case None => (hs, log)
    case Some(hook) =>
      var log' := log + [Invoke(hook.effect, [])];
      match Call(host, hook.effect, [])
      case Throws => (hs, log')
      case Returns(v) =>
        var stored := hook.(cleanup := if IsFunction(v) then v else Undefined);
        (hs[key := hs[key].(effects := effects[pe.index := Some(stored)])], log')
  }

  /** The pending effects, in order. */
  function RunEffects(host: Host, fs: seq<Fiber>, hs: map<FiberId, HookSet>, log: seq<Event>, pes: seq<PendingEffect>): (r: (map<FiberId, HookSet>, seq<Event>))
    requires HooksPresent(fs, hs) && forall k :: 0 <= k < |pes| ==> pes[k].fiber < |fs|
    ensures r.0.Keys == hs.Keys
    decreases |pes|
  {
    if pes == [] then (hs, log)
    else
      var s := RunEffect(host, fs, hs, log, pes[0]);
      RunEffects(host, fs, s.0, s.1, pes[1..])
  }

  /** `undefined` or something `typeof` calls a function: what a cleanup may hold. */
  predicate Callable(v: Value) {
    v == Undefined || IsFunction(v)
  }

  /** Every present effect hook's cleanup can be tested with `typeof` and called when it is a function. */
  ghost predicate CleanupsCallable(hs: map<FiberId, HookSet>) {
    forall key, j | key in hs && 0 <= j < |hs[key].effects| && hs[key].effects[j].Some? ::
      Callable(hs[key].effects[j].value.cleanup)
  }

  /**
   * Running effects only ever stores a function or `undefined` as a
   * cleanup: the arrays keep the property, and a call outcome can never
   * leave a non-function cleanup behind for a later unmount to call.
   */
  lemma {:induction false} RunEffectsKeepCallable(host: Host, fs: seq<Fiber>, hs: map<FiberId, HookSet>, log: seq<Event>, pes: seq<PendingEffect>)
    requires HooksPresent(fs, hs) && forall k :: 0 <= k < |pes| ==> pes[k].fiber < |fs|
    requires CleanupsCallable(hs)
    ensures CleanupsCallable(RunEffects(host, fs, hs, log, pes).0)
    decreases |pes|
  {
    if pes != [] {
      var s := RunEffect(host, fs, hs, log, pes[0]);
      RunEffectKeepsCallable(host, fs, hs, log, pes[0]);
      RunEffectsKeepCallable(host, fs, s.0, s.1, pes[1..]);
    }
  }

  lemma RunEffectKeepsCallable(host: Host, fs: seq<Fiber>, hs: map<FiberId, HookSet>, log: seq<Event>, pe: PendingEffect)
    requires HooksPresent(fs, hs) && pe.fiber < |fs| && CleanupsCallable(hs)
    ensures CleanupsCallable(RunEffect(host, fs, hs, log, pe).0)
  {
    var key := fs[pe.fiber].hooks;
    var effects := hs[key].effects;
    var r := RunEffect(host, fs, hs, log, pe);
    if SlotAt(effects, pe.index).Some? && Call(host, SlotAt(effects, pe.index).value.effect, []).Returns? {
      forall k, j | k in r.0 && 0 <= j < |r.0[k].effects| && r.0[k].effects[j].Some?
        ensures Callable(r.0[k].effects[j].value.cleanup)
      {
        if k == key && j == pe.index {
        } else if k == key {
          assert r.0[k].effects[j] == effects[j];
        } else {
          assert r.0[k] == hs[k];
        }
      }
    }
  }

  /**
   * flushPendingEffects(): every queued cleanup is called (a throw caught),
   * then every pending effect is run; both queues end empty.
   */
  method FlushPendingEffects(rt: Runtime, host: Host)
    requires rt.Valid()
    modifies rt`log, rt`hookSets, rt`pendingEffects, rt`pendingCleanups
    ensures rt.Valid() && rt.pendingEffects == [] && rt.pendingCleanups == []
    ensures (rt.hookSets, rt.log) == RunEffects(host, rt.fibers, old(rt.hookSets),
      old(rt.log) + UseEffect.Invocations(old(rt.pendingCleanups)), old(rt.pendingEffects))
  {
    CallEach(rt, rt.pendingCleanups);
    RunAll(rt, host, rt.pendingEffects);
    rt.pendingEffects := [];
    rt.pendingCleanups := [];
  }

  /** The cleanup loop of flushPendingEffects: each queued cleanup is called in order, a throw caught. */
  method CallEach(rt: Runtime, cleanups: seq<Value>)
    modifies rt`log
    ensures rt.log == old(rt.log) + UseEffect.Invocations(cleanups)
  {
    var i := 0;
    while i < |cleanups|
      invariant 0 <= i <= |cleanups|
      invariant rt.log == old(rt.log) + UseEffect.Invocations(cleanups[..i])
    {
      rt.log := rt.log + [Invoke(cleanups[i], [])];
      assert UseEffect.Invocations(cleanups[..i + 1]) == UseEffect.Invocations(cleanups[..i]) + [Invoke(cleanups[i], [])];
      i := i + 1;
    }
    assert cleanups[..i] == cleanups;
  }

  /** The effect loop of flushPendingEffects over the queued effects `pes`. */
  method RunAll(rt: Runtime, host: Host, pes: seq<PendingEffect>)
    requires rt.Valid() && forall k :: 0 <= k < |pes| ==> pes[k].fiber < |rt.fibers|
    modifies rt`log, rt`hookSets
    ensures rt.Valid()
    ensures (rt.hookSets, rt.log) == RunEffects(host, rt.fibers, old(rt.hookSets), old(rt.log), pes)
  {
    var j := 0;
    while j < |pes|
      invariant 0 <= j <= |pes| && rt.Valid()
      invariant RunEffects(host, rt.fibers, old(rt.hookSets), old(rt.log), pes) == RunEffects(host, rt.fibers, rt.hookSets, rt.log, pes[j..])
    {
      assert pes[j..][0] == pes[j] && pes[j..][1..] == pes[j + 1..];
      RunOne(rt, host, pes[j]);
      j := j + 1;
    }
  }

  /** One pass of the effect loop of flushPendingEffects. */
  method RunOne(rt: Runtime, host: Host, pe: PendingEffect)
    requires rt.Valid() && pe.fiber < |rt.fibers|
    modifies rt`log, rt`hookSets
    ensures rt.Valid()
    ensures (rt.hookSets, rt.log) == RunEffect(host, rt.fibers, old(rt.hookSets), old(rt.log), pe)
  {
    var key := rt.fibers[pe.fiber].hooks;
    var effects := rt.hookSets[key].effects;
    var hook := SlotAt(effects, pe.index);
    if hook.Some? {
      rt.log := rt.log + [Invoke(hook.value.effect, [])];
      var o := Call(host, hook.value.effect, []);
      if o.Returns? {
        var cleanup := if IsFunction(o.v) then o.v else Undefined;
        rt.hookSets := rt.hookSets[key := rt.hookSets[key].(effects := effects[pe.index := Some(hook.value.(cleanup := cleanup))])];
      }
    }
  }
}
