/**
 * The runtime's writes to the world outside the fiber tree: render-target
 * nodes, ref objects, calls into application code that may throw, and the
 * two effect queues of core/fiber.ts.
 *
 * updateDom, the commit of a fiber and the deletion of a subtree are each
 * specified as a list of such writes (an `Op` list); `Exec` runs a list in
 * order and stops at the first call that throws, since the throw leaves
 * the runtime code that was making the writes.
 */
module World {
  import opened Values
  import opened Dom
  import opened Arena
  import opened State

  datatype Op =
    | RefWrite(op: RefOp)                               // a ref attached or detached
    | PatchNode(node: DomId, prev: Props, next: Props)  // the node part of updateDom
    | AppendNode(parent: DomId, node: DomId)            // parent.appendChild(node)
    | RemoveNode(parent: DomId, node: DomId)            // parent.removeChild(node), its failure caught
    | RunCleanup(f: Value)                              // a cleanup call whose throw is caught
    | QueueCleanup(f: Value)                            // pendingCleanups.push(f)
    | QueueEffect(fiber: FiberId, index: nat)           // pendingEffects.push({fiber, hookIndex})

  /** The part of the runtime the writes change. */
  datatype Outside = Outside(
    doms: seq<DomNode>,
    refs: seq<Value>,
    log: seq<Event>,
    effects: seq<PendingEffect>,
    cleanups: seq<Value>)

  function Snap(rt: Runtime): Outside
    reads rt
  {
    Outside(rt.doms, rt.refs, rt.log, rt.pendingEffects, rt.pendingCleanups)
  }

  /** The kind of every node: what no write ever changes. */
  function Kinds(ds: seq<DomNode>): (r: seq<NodeKind>)
    ensures |r| == |ds| && forall k :: 0 <= k < |ds| ==> r[k] == ds[k].kind
  {
    seq(|ds|, k requires 0 <= k < |ds| => ds[k].kind)
  }

  lemma PatchedKeepsKind(n: DomNode, prev: Props, next: Props)
    ensures Patched(n, prev, next).kind == n.kind
  {
    if n.kind.ElementNode? {
      var a := Fold(RemoveOld, n, prev, next, prev.keys);
      var b := Fold(SetNew, a, prev, next, next.keys);
      var c := Fold(Unlisten, b, prev, next, prev.keys);
      FoldKeepsKind(RemoveOld, n, prev, next, prev.keys);
      FoldKeepsKind(SetNew, a, prev, next, next.keys);
      FoldKeepsKind(Unlisten, b, prev, next, prev.keys);
      FoldKeepsKind(Listen, c, prev, next, next.keys);
    }
  }

  /** One write: the new outside state, and `false` when a call threw out of it. */
  function ExecOp(host: Host, w: Outside, op: Op): (r: (Outside, bool))
    ensures |r.0.doms| == |w.doms| && |r.0.refs| == |w.refs| && Kinds(r.0.doms) == Kinds(w.doms)
    ensures !r.1 ==> op.RefWrite? && op.op.CallRef?
  {
    match op
    case RefWrite(CallRef(f, a)) =>
      (w.(log := w.log + [Invoke(f, [a])]), !Call(host, f, [a]).Throws?)
    case RefWrite(AssignCurrent(x, v)) =>
      (w.(refs := if x < |w.refs| then w.refs[x := v] else w.refs, log := w.log + [SetCurrent(x, v)]), true)
    case PatchNode(n, p, q) =>
      if n < |w.doms| then
        PatchedKeepsKind(w.doms[n], p, q);
        assert Kinds(w.doms[n := Patched(w.doms[n], p, q)]) == Kinds(w.doms);
        (w.(doms := w.doms[n := Patched(w.doms[n], p, q)], log := w.log + [Patch(n)]), true)
      else (w.(log := w.log + [Patch(n)]), true)
    case AppendNode(p, n) => (w.(log := w.log + [Append(p, n)]), true)
    case RemoveNode(p, n) => (w.(log := w.log + [Remove(p, n)]), true)
    case RunCleanup(f) => (w.(log := w.log + [Invoke(f, [])]), true)
    case QueueCleanup(f) => (w.(cleanups := w.cleanups + [f]), true)
    case QueueEffect(x, i) => (w.(effects := w.effects + [PendingEffect(x, i)]), true)
  }

  /** The writes in order, up to and including the first that throws. */
  function Exec(host: Host, w: Outside, ops: seq<Op>): (r: (Outside, bool))
    ensures |r.0.doms| == |w.doms| && |r.0.refs| == |w.refs| && Kinds(r.0.doms) == Kinds(w.doms)
    decreases |ops|
  {
    if ops == [] then (w, true)
    else
      var s := ExecOp(host, w, ops[0]);
      if !s.1 then s else Exec(host, s.0, ops[1..])
  }

  /** Running two lists is running the first, then the second unless the first threw. */
  lemma {:induction false} ExecAppend(host: Host, w: Outside, a: seq<Op>, b: seq<Op>)
    ensures var x := Exec(host, w, a);
      Exec(host, w, a + b) == if x.1 then Exec(host, x.0, b) else x
    decreases |a|
  {
    if a == [] {
      assert a + b == b;
    } else {
      assert (a + b)[0] == a[0];
      assert (a + b)[1..] == a[1..] + b;
      var s := ExecOp(host, w, a[0]);
      if s.1 {
        ExecAppend(host, s.0, a[1..], b);
      }
    }
  }

  /** Writes that make no call into application code never stop the list. */
  predicate NoCalls(ops: seq<Op>) {
    forall k :: 0 <= k < |ops| ==> !(ops[k].RefWrite? && ops[k].op.CallRef?)
  }

  lemma {:induction false} ExecNoCalls(host: Host, w: Outside, ops: seq<Op>)
    requires NoCalls(ops)
    ensures Exec(host, w, ops).1
    decreases |ops|
  {
    if ops != [] {
      assert NoCalls(ops[1..]) by {
        forall k | 0 <= k < |ops[1..]| ensures !(ops[1..][k].RefWrite? && ops[1..][k].op.CallRef?) {
          assert ops[1..][k] == ops[k + 1];
        }
      }
      ExecNoCalls(host, ExecOp(host, w, ops[0]).0, ops[1..]);
    }
  }

  /** The fibers named by queued effects stay in the arena. */
  predicate QueuesIn(ops: seq<Op>, n: nat) {
    forall k :: 0 <= k < |ops| && ops[k].QueueEffect? ==> ops[k].fiber < n
  }

  lemma {:induction false} ExecKeepsQueueBound(host: Host, w: Outside, ops: seq<Op>, n: nat)
    requires QueuesIn(ops, n) && forall k :: 0 <= k < |w.effects| ==> w.effects[k].fiber < n
    ensures var e := Exec(host, w, ops).0.effects; forall k :: 0 <= k < |e| ==> e[k].fiber < n
    decreases |ops|
  {
    if ops != [] {
      assert QueuesIn(ops[1..], n) by {
        forall k | 0 <= k < |ops[1..]| && ops[1..][k].QueueEffect? ensures ops[1..][k].fiber < n {
          assert ops[1..][k] == ops[k + 1];
        }
      }
      var s := ExecOp(host, w, ops[0]);
      assert ops[0].QueueEffect? ==> ops[0].fiber < n;
      assert forall k :: 0 <= k < |s.0.effects| ==> s.0.effects[k].fiber < n;
      assert Exec(host, w, ops) == if !s.1 then s else Exec(host, s.0, ops[1..]);
      if s.1 {
        ExecKeepsQueueBound(host, s.0, ops[1..], n);
      }
    }
  }

  /** Carrying out one write on the runtime. */
  method Perform(rt: Runtime, host: Host, op: Op) returns (ok: bool)
    requires rt.Valid() && (op.QueueEffect? ==> op.fiber < |rt.fibers|)
    modifies rt`doms, rt`refs, rt`log, rt`pendingEffects, rt`pendingCleanups
    ensures rt.Valid()
    ensures (Snap(rt), ok) == ExecOp(host, old(Snap(rt)), op)
  {
    ok := true;
    match op {
      case RefWrite(CallRef(f, a)) =>
        rt.log := rt.log + [Invoke(f, [a])];
        ok := !Call(host, f, [a]).Throws?;
      case RefWrite(AssignCurrent(x, v)) =>
        if x < |rt.refs| {
          rt.refs := rt.refs[x := v];
        }
        rt.log := rt.log + [SetCurrent(x, v)];
      case PatchNode(n, p, q) =>
        if n < |rt.doms| {
          var node := UpdateNode(rt.doms[n], p, q);
          rt.doms := rt.doms[n := node];
        }
        rt.log := rt.log + [Patch(n)];
      case AppendNode(p, n) =>
        rt.log := rt.log + [Append(p, n)];
      case RemoveNode(p, n) =>
        rt.log := rt.log + [Remove(p, n)];
      case RunCleanup(f) =>
        rt.log := rt.log + [Invoke(f, [])];
      case QueueCleanup(f) =>
        rt.pendingCleanups := rt.pendingCleanups + [f];
      case QueueEffect(x, i) =>
        rt.pendingEffects := rt.pendingEffects + [PendingEffect(x, i)];
    }
  }

  /** Carrying out a list of writes, stopping at the first that throws. */
  method PerformAll(rt: Runtime, host: Host, ops: seq<Op>) returns (ok: bool)
    requires rt.Valid() && QueuesIn(ops, |rt.fibers|)
    modifies rt`doms, rt`refs, rt`log, rt`pendingEffects, rt`pendingCleanups
    ensures rt.Valid()
    ensures (Snap(rt), ok) == Exec(host, old(Snap(rt)), ops)
  {
    var i := 0;
    ok := true;
    while i < |ops|
      invariant 0 <= i <= |ops| && rt.Valid()
      invariant ok
      invariant Exec(host, old(Snap(rt)), ops) == Exec(host, Snap(rt), ops[i..])
    {
      assert ops[i..][0] == ops[i] && ops[i..][1..] == ops[i + 1..];
      ok := Perform(rt, host, ops[i]);
      if !ok {
        return;
      }
      i := i + 1;
    }
  }

  /** The writes of `updateDom(node, prev, next)`: an element is patched before its refs move, a Text node after. */
  function UpdateDomOps(kind: NodeKind, node: DomId, prev: Props, next: Props): seq<Op> {
    var refs := seq(|RefOps(Get(prev, REF), Get(next, REF), node)|,
                    k requires 0 <= k < |RefOps(Get(prev, REF), Get(next, REF), node)| =>
                      RefWrite(RefOps(Get(prev, REF), Get(next, REF), node)[k]));
    if kind.ElementNode? then [PatchNode(node, prev, next)] + refs else refs + [PatchNode(node, prev, next)]
  }

  /**
   * A node keeps its props' effect under updateDom: the node ends patched
   * whatever the refs do when no ref callback is involved, and an unchanged
   * ref makes no write beyond the patch.
   */
  lemma UpdateDomOpsMeaning(host: Host, w: Outside, node: DomId, prev: Props, next: Props)
    requires node < |w.doms|
    requires Same(Get(prev, REF), Get(next, REF))
    ensures var r := Exec(host, w, UpdateDomOps(w.doms[node].kind, node, prev, next));
      && r.1
      && r.0 == w.(doms := w.doms[node := Patched(w.doms[node], prev, next)], log := w.log + [Patch(node)])
  {
    var ops := UpdateDomOps(w.doms[node].kind, node, prev, next);
    assert ops == [PatchNode(node, prev, next)];
    assert ops[1..] == [];
  }

  /** updateDom(dom, prevProps, nextProps) on node `node`. */
  method UpdateDom(rt: Runtime, host: Host, node: DomId, prev: Props, next: Props) returns (ok: bool)
    requires rt.Valid() && node < |rt.doms|
    modifies rt`doms, rt`refs, rt`log, rt`pendingEffects, rt`pendingCleanups
    ensures rt.Valid()
    ensures (Snap(rt), ok) == Exec(host, old(Snap(rt)), UpdateDomOps(old(rt.doms[node].kind), node, prev, next))
  {
    ok := PerformAll(rt, host, UpdateDomOps(rt.doms[node].kind, node, prev, next));
  }
}
