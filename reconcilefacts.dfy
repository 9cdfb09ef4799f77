/**
 * What reconcileChildren produces, stated over the specification
 * `ReconcileAt` (which the loop in `Reconcile.ReconcileChildren` is proved
 * equal to): one new fiber per element, in order, each either an update of
 * the old fiber at its position or a placement; the old fibers left
 * unmatched queued for deletion; and the new fibers linked as one chain
 * under the parent.
 */
module ReconcileFacts {
  import opened Values
  import opened HookSlots
  import opened Arena
  import opened State
  import opened Reconcile

  /** The elements from position `i` on: the entries that make a fiber, in order. */
  function Made(elems: seq<Value>, i: nat): (r: seq<Value>)
    ensures |r| <= |elems| - i || (i >= |elems| && r == [])
    decreases |elems| - i
  {
    if i >= |elems| then []
    else (if IsElement(elems[i]) then [elems[i]] else []) + Made(elems, i + 1)
  }

  /** The id of the fiber made for position `j`, when the loop starts at `i` with `n` fibers. */
  function IdAt(n: nat, elems: seq<Value>, i: nat, j: nat): int {
    n + |Made(elems, i)| - |Made(elems, j)|
  }

  /**
   * The fiber at `id` is the one made for element `e` paired with `oldf`:
   * the element's type and props under `wip`; an update that keeps the old
   * fiber's node and hook arrays when the types and keys match, a placement
   * with no node and fresh hook arrays otherwise.
   */
  ghost predicate MadeFor(r: RState, fs: seq<Fiber>, wip: FiberId, e: Value, oldf: Option<FiberId>, id: int)
    requires e.Elem? && (oldf.Some? ==> oldf.value < |fs|)
  {
    && 0 <= id < |r.fibers|
    && var f := r.fibers[id];
    && f.ftype == e.etype && f.props == e.props && f.parent == Some(wip) && f.hookIndex == 0
    && if SameType(fs, e, oldf) then
         var o := fs[oldf.value];
         && f.alternate == oldf && f.dom == o.dom && f.hooks == o.hooks
         && f.tag == (if HasPropsChanged(o.props, e.props) then Update else Skip)
       else
         && f.alternate.None? && f.dom.None? && f.tag == Placement
         && f.hooks == id && id in r.hookSets && r.hookSets[id] == EmptyHooks
  }

  lemma {:induction false} MadeAfter(elems: seq<Value>, i: nat, j: nat)
    requires i <= j
    ensures |Made(elems, j)| <= |Made(elems, i)|
    decreases j - i
  {
    if i < j && i < |elems| {
      MadeAfter(elems, i + 1, j);
    }
  }

  /** `MadeFor` reads the old fibers only through fields the loop keeps. */
  lemma MadeForKept(r: RState, fs: seq<Fiber>, gs: seq<Fiber>, wip: FiberId, e: Value, oldf: Option<FiberId>, id: int)
    requires e.Elem? && (oldf.Some? ==> oldf.value < |fs| && oldf.value < |gs| && Kept(fs[oldf.value], gs[oldf.value]))
    ensures MadeFor(r, fs, wip, e, oldf, id) <==> MadeFor(r, gs, wip, e, oldf, id)
  {
  }

  /** The fiber one step appends is the one made for its element. */
  lemma StepMakes(s: RState, wip: FiberId, e: Value, oldf: Option<FiberId>, i: nat, prev: Option<FiberId>, rule: LinkRule)
    requires wip < |s.fibers| && (oldf.Some? ==> oldf.value < |s.fibers|) && (prev.Some? ==> prev.value < |s.fibers|)
    requires IsElement(e)
    ensures MadeFor(Step(s, wip, e, oldf, i, prev, rule).0, s.fibers, wip, e, oldf, |s.fibers|)
  {
    GrowFacts(s, wip, e, oldf);
    LinkStable(Grow(s, wip, e, oldf).fibers, wip, i, prev, Some(|s.fibers|), rule);
  }

  /** A made fiber stays as made while later steps run. */
  lemma MadeForLater(r1: RState, r2: RState, fs: seq<Fiber>, wip: FiberId, e: Value, oldf: Option<FiberId>, id: nat)
    requires e.Elem? && (oldf.Some? ==> oldf.value < |fs|)
    requires MadeFor(r1, fs, wip, e, oldf, id) && id < |r2.fibers|
    requires Kept(r1.fibers[id], r2.fibers[id]) && r2.fibers[id].tag == r1.fibers[id].tag
    requires id in r1.hookSets ==> id in r2.hookSets && r2.hookSets[id] == r1.hookSets[id]
    ensures MadeFor(r2, fs, wip, e, oldf, id)
  {
  }

  /** One step keeps what an existing fiber holds. */
  lemma StepKeeps(s: RState, wip: FiberId, e: Value, oldf: Option<FiberId>, i: nat, prev: Option<FiberId>, rule: LinkRule, x: FiberId)
    requires wip < |s.fibers| && (oldf.Some? ==> oldf.value < |s.fibers|) && (prev.Some? ==> prev.value < |s.fibers|)
    requires x < |s.fibers|
    ensures x < |Step(s, wip, e, oldf, i, prev, rule).0.fibers| && Kept(s.fibers[x], Step(s, wip, e, oldf, i, prev, rule).0.fibers[x])
  {
    StepStable(s, wip, e, oldf, i, prev, rule);
  }

  /** The rest of the loop keeps one existing fiber's payload, its tag unless it is an old child, and its hook arrays. */
  lemma RestKeeps(s: RState, wip: FiberId, elems: seq<Value>, olds: seq<FiberId>, i: nat, prev: Option<FiberId>, rule: LinkRule, x: FiberId)
    requires wip < |s.fibers| && (forall k :: 0 <= k < |olds| ==> olds[k] < |s.fibers|) && (prev.Some? ==> prev.value < |s.fibers|)
    requires x < |s.fibers|
    ensures var r := ReconcileAt(s, wip, elems, olds, i, prev, rule);
      && x < |r.fibers| && Kept(s.fibers[x], r.fibers[x])
      && ((forall j :: i <= j < |olds| ==> olds[j] != x) ==> r.fibers[x].tag == s.fibers[x].tag)
      && (x in s.hookSets ==> x in r.hookSets && r.hookSets[x] == s.hookSets[x])
  {
    ReconcileStable(s, wip, elems, olds, i, prev, rule);
  }

  /** The fiber made at position `i` is the first one appended, and it stays as made. */
  lemma MakesHead(s: RState, wip: FiberId, elems: seq<Value>, olds: seq<FiberId>, i: nat, prev: Option<FiberId>, rule: LinkRule)
    requires wip < |s.fibers| && (forall k :: 0 <= k < |olds| ==> olds[k] < |s.fibers|) && (prev.Some? ==> prev.value < |s.fibers|)
    requires i < |elems| && IsElement(elems[i])
    ensures MadeFor(ReconcileAt(s, wip, elems, olds, i, prev, rule), s.fibers, wip, elems[i], OldAt(olds, i), |s.fibers|)
  {
    var n := |s.fibers|;
    var st := Step(s, wip, elems[i], OldAt(olds, i), i, prev, rule);
    ReconcileUnfold(s, wip, elems, olds, i, prev, rule);
    StepMakes(s, wip, elems[i], OldAt(olds, i), i, prev, rule);
    RestKeeps(st.0, wip, elems, olds, i + 1, st.1, rule, n);
    MadeForLater(st.0, ReconcileAt(st.0, wip, elems, olds, i + 1, st.1, rule), s.fibers, wip, elems[i], OldAt(olds, i), n);
  }

  /**
   * The loop from position `i` appends one fiber per element, in order,
   * and the fiber for the element at position `j` is the one made for it
   * and the old fiber at `j`.
   */
  lemma {:induction false} ReconcileMakes(s: RState, wip: FiberId, elems: seq<Value>, olds: seq<FiberId>, i: nat, prev: Option<FiberId>, rule: LinkRule)
    requires wip < |s.fibers| && (forall k :: 0 <= k < |olds| ==> olds[k] < |s.fibers|) && (prev.Some? ==> prev.value < |s.fibers|)
    ensures var r := ReconcileAt(s, wip, elems, olds, i, prev, rule);
      && |r.fibers| == |s.fibers| + |Made(elems, i)|
      && forall j :: i <= j < |elems| && IsElement(elems[j]) ==>
           MadeFor(r, s.fibers, wip, elems[j], OldAt(olds, j), IdAt(|s.fibers|, elems, i, j))
    decreases Span(elems, olds) - i
  {
    if i < Span(elems, olds) {
      var n := |s.fibers|;
      var st := Step(s, wip, ElemAt(elems, i), OldAt(olds, i), i, prev, rule);
      var r := ReconcileAt(st.0, wip, elems, olds, i + 1, st.1, rule);
      ReconcileUnfold(s, wip, elems, olds, i, prev, rule);
      ReconcileMakes(st.0, wip, elems, olds, i + 1, st.1, rule);
      if i < |elems| {
        assert |Made(elems, i)| == (if IsElement(elems[i]) then 1 else 0) + |Made(elems, i + 1)|;
      }
      MakesStep(s, wip, elems, olds, i, prev, rule);
    }
  }

  /** One step of ReconcileMakes: the head's fiber, and the later ones carried back over the step. */
  lemma MakesStep(s: RState, wip: FiberId, elems: seq<Value>, olds: seq<FiberId>, i: nat, prev: Option<FiberId>, rule: LinkRule)
    requires wip < |s.fibers| && (forall k :: 0 <= k < |olds| ==> olds[k] < |s.fibers|) && (prev.Some? ==> prev.value < |s.fibers|)
    requires i < Span(elems, olds)
    requires var st := Step(s, wip, ElemAt(elems, i), OldAt(olds, i), i, prev, rule);
      var r := ReconcileAt(st.0, wip, elems, olds, i + 1, st.1, rule);
      forall j :: i + 1 <= j < |elems| && IsElement(elems[j]) ==>
        MadeFor(r, st.0.fibers, wip, elems[j], OldAt(olds, j), IdAt(|st.0.fibers|, elems, i + 1, j))
    ensures var st := Step(s, wip, ElemAt(elems, i), OldAt(olds, i), i, prev, rule);
      var r := ReconcileAt(st.0, wip, elems, olds, i + 1, st.1, rule);
      forall j :: i <= j < |elems| && IsElement(elems[j]) ==>
        MadeFor(r, s.fibers, wip, elems[j], OldAt(olds, j), IdAt(|s.fibers|, elems, i, j))
  {
    var n := |s.fibers|;
    var st := Step(s, wip, ElemAt(elems, i), OldAt(olds, i), i, prev, rule);
    var r := ReconcileAt(st.0, wip, elems, olds, i + 1, st.1, rule);
    forall j | i <= j < |elems| && IsElement(elems[j])
      ensures MadeFor(r, s.fibers, wip, elems[j], OldAt(olds, j), IdAt(n, elems, i, j))
    {
      if j == i {
        ReconcileUnfold(s, wip, elems, olds, i, prev, rule);
        MakesHead(s, wip, elems, olds, i, prev, rule);
      } else {
        assert IdAt(|st.0.fibers|, elems, i + 1, j) == IdAt(n, elems, i, j);
        if j < |olds| {
          StepKeeps(s, wip, ElemAt(elems, i), OldAt(olds, i), i, prev, rule, olds[j]);
        }
        MadeForKept(r, st.0.fibers, s.fibers, wip, elems[j], OldAt(olds, j), IdAt(n, elems, i, j));
      }
    }
  }

  /** The old fibers from position `i` on that no element matches: the ones queued for deletion, in order. */
  function Deleted(fs: seq<Fiber>, elems: seq<Value>, olds: seq<FiberId>, i: nat): seq<FiberId>
    requires forall k :: 0 <= k < |olds| ==> olds[k] < |fs|
    decreases |olds| - i
  {
    if i >= |olds| then []
    else (if SameType(fs, ElemAt(elems, i), Some(olds[i])) then [] else [olds[i]]) + Deleted(fs, elems, olds, i + 1)
  }

  lemma {:induction false} DeletedKept(fs: seq<Fiber>, gs: seq<Fiber>, elems: seq<Value>, olds: seq<FiberId>, i: nat)
    requires forall k :: 0 <= k < |olds| ==> olds[k] < |fs| && olds[k] < |gs| && Kept(fs[olds[k]], gs[olds[k]])
    ensures Deleted(fs, elems, olds, i) == Deleted(gs, elems, olds, i)
    decreases |olds| - i
  {
    if i < |olds| {
      DeletedKept(fs, gs, elems, olds, i + 1);
    }
  }

  /** One step tags the old fiber at its position for deletion exactly when it is not matched, and queues it. */
  lemma StepDeletes(s: RState, wip: FiberId, e: Value, o: FiberId, i: nat, prev: Option<FiberId>, rule: LinkRule)
    requires wip < |s.fibers| && o < |s.fibers| && (prev.Some? ==> prev.value < |s.fibers|)
    ensures var r := Step(s, wip, e, Some(o), i, prev, rule).0;
      && r.fibers[o].tag == (if SameType(s.fibers, e, Some(o)) then s.fibers[o].tag else Deletion)
      && r.deletions == s.deletions + (if SameType(s.fibers, e, Some(o)) then [] else [o])
  {
    var g := Grow(s, wip, e, Some(o));
    GrowFacts(s, wip, e, Some(o));
    if SameType(s.fibers, e, Some(o)) {
      assert g.fibers[o] == s.fibers[o];
    }
    LinkStable(g.fibers, wip, i, prev, if IsElement(e) then Some(|s.fibers|) else None, rule);
  }

  /** One step keeps what every old fiber holds. */
  lemma StepKeepsOlds(s: RState, wip: FiberId, elems: seq<Value>, olds: seq<FiberId>, i: nat, prev: Option<FiberId>, rule: LinkRule)
    requires wip < |s.fibers| && (forall k :: 0 <= k < |olds| ==> olds[k] < |s.fibers|) && (prev.Some? ==> prev.value < |s.fibers|)
    ensures var st := Step(s, wip, ElemAt(elems, i), OldAt(olds, i), i, prev, rule).0;
      forall k :: 0 <= k < |olds| ==> olds[k] < |st.fibers| && Kept(s.fibers[olds[k]], st.fibers[olds[k]])
  {
    StepStable(s, wip, ElemAt(elems, i), OldAt(olds, i), i, prev, rule);
  }

  /** What one step queues, followed by what the rest queues, is what the loop from `i` queues. */
  lemma QueueStep(s: RState, wip: FiberId, elems: seq<Value>, olds: seq<FiberId>, i: nat, prev: Option<FiberId>, rule: LinkRule)
    requires wip < |s.fibers| && (forall k :: 0 <= k < |olds| ==> olds[k] < |s.fibers|) && (prev.Some? ==> prev.value < |s.fibers|)
    ensures var st := Step(s, wip, ElemAt(elems, i), OldAt(olds, i), i, prev, rule).0;
      (forall k :: 0 <= k < |olds| ==> olds[k] < |st.fibers|)
      && st.deletions + Deleted(st.fibers, elems, olds, i + 1) == s.deletions + Deleted(s.fibers, elems, olds, i)
  {
    var st := Step(s, wip, ElemAt(elems, i), OldAt(olds, i), i, prev, rule);
    StepKeepsOlds(s, wip, elems, olds, i, prev, rule);
    DeletedKept(s.fibers, st.0.fibers, elems, olds, i + 1);
    if i < |olds| {
      QueueStepOld(s, wip, elems, olds, i, prev, rule);
    } else {
      QueueStepNew(s, wip, elems, olds, i, prev, rule);
    }
  }

  /** QueueStep at a position with an old fiber: the step queues it exactly when it is unmatched. */
  lemma QueueStepOld(s: RState, wip: FiberId, elems: seq<Value>, olds: seq<FiberId>, i: nat, prev: Option<FiberId>, rule: LinkRule)
    requires wip < |s.fibers| && (forall k :: 0 <= k < |olds| ==> olds[k] < |s.fibers|) && (prev.Some? ==> prev.value < |s.fibers|)
    requires i < |olds|
    ensures var st := Step(s, wip, ElemAt(elems, i), OldAt(olds, i), i, prev, rule).0;
      st.deletions + Deleted(s.fibers, elems, olds, i + 1) == s.deletions + Deleted(s.fibers, elems, olds, i)
  {
    var e := ElemAt(elems, i);
    StepDeletes(s, wip, e, olds[i], i, prev, rule);
    var rest := Deleted(s.fibers, elems, olds, i + 1);
    var mine := if SameType(s.fibers, e, Some(olds[i])) then [] else [olds[i]];
    assert Deleted(s.fibers, elems, olds, i) == mine + rest;
    assert (s.deletions + mine) + rest == s.deletions + (mine + rest);
  }

  /** QueueStep past the old fibers: the step queues nothing and nothing is left to queue. */
  lemma QueueStepNew(s: RState, wip: FiberId, elems: seq<Value>, olds: seq<FiberId>, i: nat, prev: Option<FiberId>, rule: LinkRule)
    requires wip < |s.fibers| && (forall k :: 0 <= k < |olds| ==> olds[k] < |s.fibers|) && (prev.Some? ==> prev.value < |s.fibers|)
    requires |olds| <= i
    ensures var st := Step(s, wip, ElemAt(elems, i), OldAt(olds, i), i, prev, rule).0;
      && st.deletions == s.deletions
      && Deleted(st.fibers, elems, olds, i + 1) == [] && Deleted(s.fibers, elems, olds, i) == []
  {
    var e := ElemAt(elems, i);
    GrowFacts(s, wip, e, None);
    LinkStable(Grow(s, wip, e, None).fibers, wip, i, prev, if IsElement(e) then Some(|s.fibers|) else None, rule);
  }

  /** The loop from position `i` queues exactly the unmatched old fibers, in chain order. */
  lemma {:induction false} ReconcileQueues(s: RState, wip: FiberId, elems: seq<Value>, olds: seq<FiberId>, i: nat, prev: Option<FiberId>, rule: LinkRule)
    requires wip < |s.fibers| && (forall k :: 0 <= k < |olds| ==> olds[k] < |s.fibers|) && (prev.Some? ==> prev.value < |s.fibers|)
    ensures ReconcileAt(s, wip, elems, olds, i, prev, rule).deletions == s.deletions + Deleted(s.fibers, elems, olds, i)
    decreases Span(elems, olds) - i
  {
    if i < Span(elems, olds) {
      var st := Step(s, wip, ElemAt(elems, i), OldAt(olds, i), i, prev, rule);
      ReconcileUnfold(s, wip, elems, olds, i, prev, rule);
      QueueStep(s, wip, elems, olds, i, prev, rule);
      ReconcileQueues(st.0, wip, elems, olds, i + 1, st.1, rule);
    } else {
      assert Deleted(s.fibers, elems, olds, i) == [];
    }
  }

  /** One step leaves the later old fibers' tags, and whether they match, as they were. */
  lemma RetagStep(s: RState, wip: FiberId, elems: seq<Value>, olds: seq<FiberId>, i: nat, prev: Option<FiberId>, rule: LinkRule)
    requires wip < |s.fibers| && (forall k :: 0 <= k < |olds| ==> olds[k] < |s.fibers|) && (prev.Some? ==> prev.value < |s.fibers|)
    requires forall j, k :: 0 <= j < k < |olds| ==> olds[j] < olds[k]
    ensures var st := Step(s, wip, ElemAt(elems, i), OldAt(olds, i), i, prev, rule).0;
      forall j :: i < j < |olds| ==>
        && olds[j] < |st.fibers|
        && st.fibers[olds[j]].tag == s.fibers[olds[j]].tag
        && SameType(st.fibers, ElemAt(elems, j), Some(olds[j])) == SameType(s.fibers, ElemAt(elems, j), Some(olds[j]))
  {
    StepStable(s, wip, ElemAt(elems, i), OldAt(olds, i), i, prev, rule);
  }

  /** The step at an old fiber's own position settles its tag for good. */
  lemma RetagHead(s: RState, wip: FiberId, elems: seq<Value>, olds: seq<FiberId>, i: nat, prev: Option<FiberId>, rule: LinkRule)
    requires wip < |s.fibers| && (forall k :: 0 <= k < |olds| ==> olds[k] < |s.fibers|) && (prev.Some? ==> prev.value < |s.fibers|)
    requires forall j, k :: 0 <= j < k < |olds| ==> olds[j] < olds[k]
    requires i < |olds|
    ensures var r := ReconcileAt(s, wip, elems, olds, i, prev, rule);
      && olds[i] < |r.fibers|
      && r.fibers[olds[i]].tag == if SameType(s.fibers, ElemAt(elems, i), Some(olds[i])) then s.fibers[olds[i]].tag else Deletion
  {
    var st := Step(s, wip, ElemAt(elems, i), OldAt(olds, i), i, prev, rule);
    ReconcileUnfold(s, wip, elems, olds, i, prev, rule);
    StepKeepsOlds(s, wip, elems, olds, i, prev, rule);
    StepDeletes(s, wip, ElemAt(elems, i), olds[i], i, prev, rule);
    RestKeeps(st.0, wip, elems, olds, i + 1, st.1, rule, olds[i]);
  }

  /** The loop tags each unmatched old fiber for deletion; a matched old fiber keeps its tag. */
  lemma {:induction false} ReconcileRetags(s: RState, wip: FiberId, elems: seq<Value>, olds: seq<FiberId>, i: nat, prev: Option<FiberId>, rule: LinkRule)
    requires wip < |s.fibers| && (forall k :: 0 <= k < |olds| ==> olds[k] < |s.fibers|) && (prev.Some? ==> prev.value < |s.fibers|)
    requires forall j, k :: 0 <= j < k < |olds| ==> olds[j] < olds[k]
    ensures var r := ReconcileAt(s, wip, elems, olds, i, prev, rule);
      forall j :: i <= j < |olds| ==>
        && olds[j] < |r.fibers|
        && r.fibers[olds[j]].tag == if SameType(s.fibers, ElemAt(elems, j), Some(olds[j])) then s.fibers[olds[j]].tag else Deletion
    decreases Span(elems, olds) - i
  {
    if i < Span(elems, olds) {
      var st := Step(s, wip, ElemAt(elems, i), OldAt(olds, i), i, prev, rule);
      ReconcileUnfold(s, wip, elems, olds, i, prev, rule);
      StepKeepsOlds(s, wip, elems, olds, i, prev, rule);
      RetagStep(s, wip, elems, olds, i, prev, rule);
      ReconcileRetags(st.0, wip, elems, olds, i + 1, st.1, rule);
      if i < |olds| {
        RetagHead(s, wip, elems, olds, i, prev, rule);
      }
    }
  }

  /** The loop from position `i` appends one fiber per element. */
  lemma {:induction false} ReconcileCount(s: RState, wip: FiberId, elems: seq<Value>, olds: seq<FiberId>, i: nat, prev: Option<FiberId>, rule: LinkRule)
    requires wip < |s.fibers| && (forall k :: 0 <= k < |olds| ==> olds[k] < |s.fibers|) && (prev.Some? ==> prev.value < |s.fibers|)
    ensures |ReconcileAt(s, wip, elems, olds, i, prev, rule).fibers| == |s.fibers| + |Made(elems, i)|
    decreases Span(elems, olds) - i
  {
    if i < Span(elems, olds) {
      var st := Step(s, wip, ElemAt(elems, i), OldAt(olds, i), i, prev, rule);
      ReconcileUnfold(s, wip, elems, olds, i, prev, rule);
      ReconcileCount(st.0, wip, elems, olds, i + 1, st.1, rule);
    }
  }

  /** The rest of the loop leaves the `sibling` of a fiber other than the last one made as it was. */
  lemma RestKeepsSibling(s: RState, wip: FiberId, elems: seq<Value>, olds: seq<FiberId>, i: nat, prev: Option<FiberId>, rule: LinkRule, x: FiberId)
    requires wip < |s.fibers| && (forall k :: 0 <= k < |olds| ==> olds[k] < |s.fibers|) && (prev.Some? ==> prev.value < |s.fibers|)
    requires x < |s.fibers|
    ensures var r := ReconcileAt(s, wip, elems, olds, i, prev, rule);
      x < |r.fibers|
      && (prev != Some(x) ==> r.fibers[x].sibling == s.fibers[x].sibling)
      && (x != wip ==> r.fibers[x].child == s.fibers[x].child)
  {
    ReconcileStable(s, wip, elems, olds, i, prev, rule);
  }

  /** How one step links, under the corrected rule. */
  lemma LinkStepFacts(s: RState, wip: FiberId, e: Value, oldf: Option<FiberId>, i: nat, prev: Option<FiberId>)
    requires wip < |s.fibers| && (oldf.Some? ==> oldf.value < |s.fibers|) && (prev.Some? ==> wip < prev.value < |s.fibers|)
    ensures var st := Step(s, wip, e, oldf, i, prev, Corrected).0;
      var n := |s.fibers|;
      var made := if IsElement(e) then Some(n) else None;
      && st.fibers[wip].child == (if i == 0 || prev.None? then made else s.fibers[wip].child)
      && (prev.Some? && i > 0 ==> st.fibers[prev.value].sibling == if made.Some? then made else s.fibers[prev.value].sibling)
      && (IsElement(e) ==> st.fibers[n].sibling.None?)
  {
    GrowFacts(s, wip, e, oldf);
  }

  /** The chain `ReconcileLinks` describes, for the loop from `i` with `n` fibers before it. */
  ghost predicate Linked(s: RState, r: RState, wip: FiberId, elems: seq<Value>, olds: seq<FiberId>, i: nat, prev: Option<FiberId>)
    requires wip < |s.fibers| && |r.fibers| == |s.fibers| + |Made(elems, i)|
    requires prev.Some? ==> prev.value < |s.fibers|
  {
    var n := |s.fibers|;
    var m := |Made(elems, i)|;
    && (forall x :: n <= x < n + m ==> r.fibers[x].sibling == if x + 1 < n + m then Some(x + 1) else None)
    && (prev.Some? ==> r.fibers[prev.value].sibling == (if m > 0 then Some(n) else None) && r.fibers[wip].child == s.fibers[wip].child)
    && (prev.None? && i < Span(elems, olds) ==> r.fibers[wip].child == if m > 0 then Some(n) else None)
  }

  /**
   * Under the corrected rule the fibers the loop makes form one sibling
   * chain, in order, ending with no sibling; the chain hangs from the last
   * fiber made before position `i` when there is one, and otherwise from
   * the parent's `child` (which ends empty when no fiber is made).
   */
  lemma {:induction false} ReconcileLinks(s: RState, wip: FiberId, elems: seq<Value>, olds: seq<FiberId>, i: nat, prev: Option<FiberId>)
    requires wip < |s.fibers| && (forall k :: 0 <= k < |olds| ==> olds[k] < |s.fibers|)
    requires prev.Some? ==> 0 < i && wip < prev.value == |s.fibers| - 1 && s.fibers[prev.value].sibling.None?
    ensures var r := ReconcileAt(s, wip, elems, olds, i, prev, Corrected);
      && |r.fibers| == |s.fibers| + |Made(elems, i)|
      && Linked(s, r, wip, elems, olds, i, prev)
    decreases Span(elems, olds) - i, 1
  {
    ReconcileCount(s, wip, elems, olds, i, prev, Corrected);
    if i < Span(elems, olds) {
      if IsElement(ElemAt(elems, i)) {
        LinksElement(s, wip, elems, olds, i, prev);
      } else if prev.Some? {
        LinksSkipAfter(s, wip, elems, olds, i, prev);
      } else if i + 1 < Span(elems, olds) {
        LinksSkipFirst(s, wip, elems, olds, i);
      } else {
        LinksSkipLast(s, wip, elems, olds, i);
      }
    }
  }

  /** `ReconcileLinks` when position `i` holds an element: it heads the chain. */
  lemma {:induction false} LinksElement(s: RState, wip: FiberId, elems: seq<Value>, olds: seq<FiberId>, i: nat, prev: Option<FiberId>)
    requires wip < |s.fibers| && (forall k :: 0 <= k < |olds| ==> olds[k] < |s.fibers|)
    requires prev.Some? ==> 0 < i && wip < prev.value == |s.fibers| - 1 && s.fibers[prev.value].sibling.None?
    requires i < Span(elems, olds) && IsElement(ElemAt(elems, i))
    ensures var r := ReconcileAt(s, wip, elems, olds, i, prev, Corrected);
      && |r.fibers| == |s.fibers| + |Made(elems, i)|
      && Linked(s, r, wip, elems, olds, i, prev)
    decreases Span(elems, olds) - i, 0
  {
    var st := Step(s, wip, ElemAt(elems, i), OldAt(olds, i), i, prev, Corrected);
    ReconcileUnfold(s, wip, elems, olds, i, prev, Corrected);
    ReconcileLinks(st.0, wip, elems, olds, i + 1, st.1);
    var r := ReconcileAt(st.0, wip, elems, olds, i + 1, st.1, Corrected);
    if prev.Some? {
      RestKeepsSibling(st.0, wip, elems, olds, i + 1, st.1, Corrected, prev.value);
    }
    ElementLinked(s, st.0, r, wip, elems, olds, i, prev);
  }

  /** The step of `LinksElement`: the new fiber heads the chain the rest of the loop links after it. */
  lemma ElementLinked(s: RState, st: RState, r: RState, wip: FiberId, elems: seq<Value>, olds: seq<FiberId>, i: nat, prev: Option<FiberId>)
    requires wip < |s.fibers| && (forall k :: 0 <= k < |olds| ==> olds[k] < |s.fibers|)
    requires prev.Some? ==> 0 < i && wip < prev.value == |s.fibers| - 1 && s.fibers[prev.value].sibling.None?
    requires i < Span(elems, olds) && IsElement(ElemAt(elems, i))
    requires st == Step(s, wip, ElemAt(elems, i), OldAt(olds, i), i, prev, Corrected).0
    requires |r.fibers| == |st.fibers| + |Made(elems, i + 1)|
    requires Linked(st, r, wip, elems, olds, i + 1, Some(|s.fibers|))
    requires prev.Some? ==> r.fibers[prev.value].sibling == st.fibers[prev.value].sibling
    ensures |r.fibers| == |s.fibers| + |Made(elems, i)|
    ensures Linked(s, r, wip, elems, olds, i, prev)
  {
    LinkStepFacts(s, wip, ElemAt(elems, i), OldAt(olds, i), i, prev);
    var m := |Made(elems, i + 1)|;
    assert |Made(elems, i)| == 1 + m;
    ChainHead(r.fibers, |s.fibers|, m);
  }

  /** A fiber whose sibling heads a chain of `m` fibers heads a chain of `m + 1`. */
  lemma ChainHead(fs: seq<Fiber>, n: nat, m: nat)
    requires n + 1 + m <= |fs|
    requires fs[n].sibling == if m > 0 then Some(n + 1) else None
    requires forall x :: n + 1 <= x < n + 1 + m ==> fs[x].sibling == if x + 1 < n + 1 + m then Some(x + 1) else None
    ensures forall x :: n <= x < n + 1 + m ==> fs[x].sibling == if x + 1 < n + 1 + m then Some(x + 1) else None
  {
  }

  /** `ReconcileLinks` when position `i` holds no element and a fiber was made before it: nothing changes at `i`. */
  lemma {:induction false} LinksSkipAfter(s: RState, wip: FiberId, elems: seq<Value>, olds: seq<FiberId>, i: nat, prev: Option<FiberId>)
    requires wip < |s.fibers| && (forall k :: 0 <= k < |olds| ==> olds[k] < |s.fibers|)
    requires prev.Some? && 0 < i && wip < prev.value == |s.fibers| - 1 && s.fibers[prev.value].sibling.None?
    requires i < Span(elems, olds) && !IsElement(ElemAt(elems, i))
    ensures var r := ReconcileAt(s, wip, elems, olds, i, prev, Corrected);
      && |r.fibers| == |s.fibers| + |Made(elems, i)|
      && Linked(s, r, wip, elems, olds, i, prev)
    decreases Span(elems, olds) - i, 0
  {
    var e := ElemAt(elems, i);
    var st := Step(s, wip, e, OldAt(olds, i), i, prev, Corrected);
    ReconcileUnfold(s, wip, elems, olds, i, prev, Corrected);
    LinkStepFacts(s, wip, e, OldAt(olds, i), i, prev);
    ReconcileLinks(st.0, wip, elems, olds, i + 1, st.1);
    assert |Made(elems, i)| == |Made(elems, i + 1)|;
  }

  /** `ReconcileLinks` when position `i` holds no element, no fiber was made before it, and more positions follow. */
  lemma {:induction false} LinksSkipFirst(s: RState, wip: FiberId, elems: seq<Value>, olds: seq<FiberId>, i: nat)
    requires wip < |s.fibers| && (forall k :: 0 <= k < |olds| ==> olds[k] < |s.fibers|)
    requires i + 1 < Span(elems, olds) && !IsElement(ElemAt(elems, i))
    ensures var r := ReconcileAt(s, wip, elems, olds, i, None, Corrected);
      && |r.fibers| == |s.fibers| + |Made(elems, i)|
      && Linked(s, r, wip, elems, olds, i, None)
    decreases Span(elems, olds) - i, 0
  {
    var st := Step(s, wip, ElemAt(elems, i), OldAt(olds, i), i, None, Corrected);
    ReconcileUnfold(s, wip, elems, olds, i, None, Corrected);
    ReconcileLinks(st.0, wip, elems, olds, i + 1, None);
    assert |Made(elems, i)| == |Made(elems, i + 1)|;
  }

  /** `ReconcileLinks` at the last position when it holds no element and no fiber was made: the parent's `child` is cleared. */
  lemma LinksSkipLast(s: RState, wip: FiberId, elems: seq<Value>, olds: seq<FiberId>, i: nat)
    requires wip < |s.fibers| && (forall k :: 0 <= k < |olds| ==> olds[k] < |s.fibers|)
    requires i + 1 == Span(elems, olds) && !IsElement(ElemAt(elems, i))
    ensures var r := ReconcileAt(s, wip, elems, olds, i, None, Corrected);
      && |r.fibers| == |s.fibers| + |Made(elems, i)|
      && Linked(s, r, wip, elems, olds, i, None)
  {
    var st := Step(s, wip, ElemAt(elems, i), OldAt(olds, i), i, None, Corrected);
    ReconcileUnfold(s, wip, elems, olds, i, None, Corrected);
    LinkStepFacts(s, wip, ElemAt(elems, i), OldAt(olds, i), i, None);
    assert |Made(elems, i)| == 0;
  }

  /** A run of consecutive fibers each linked to the next, the last to none, is the chain from its first. */
  lemma {:induction false} ChainOfRun(fs: seq<Fiber>, x: FiberId, end: nat)
    requires WellLinked(fs) && x < end <= |fs|
    requires forall y :: x <= y < end ==> fs[y].sibling == if y + 1 < end then Some(y + 1) else None
    ensures Chain(fs, Some(x)) == seq(end - x, k => x + k)
    decreases end - x
  {
    assert LinksOk(fs, x);
    if x + 1 < end {
      ChainOfRun(fs, x + 1, end);
    }
  }

  /**
   * reconcileChildren, as a whole and under the corrected rule: when the
   * loop runs at all, the parent's children are exactly the fibers made,
   * in element order, and the arena invariant holds.
   */
  lemma ChildrenInOrder(s: RState, ndoms: nat, wip: FiberId, elems: seq<Value>)
    requires WellLinked(s.fibers) && wip < |s.fibers|
    requires StepReady(s, ndoms, wip, OldChildren(s.fibers, wip), None)
    ensures var olds := OldChildren(s.fibers, wip);
      var r := ReconcileAt(s, wip, elems, olds, 0, None, Corrected);
      && ArenaOk(r.fibers, r.hookSets, ndoms)
      && |r.fibers| == |s.fibers| + |Made(elems, 0)|
      && InArena(r.fibers, r.fibers[wip].child)
      && (0 < Span(elems, olds) ==> Chain(r.fibers, r.fibers[wip].child) == seq(|Made(elems, 0)|, k => |s.fibers| + k))
  {
    var olds := OldChildren(s.fibers, wip);
    var r := ReconcileAt(s, wip, elems, olds, 0, None, Corrected);
    ReconcileKeepsArena(s, ndoms, wip, elems, olds, 0, None, Corrected);
    ReconcileLinks(s, wip, elems, olds, 0, None);
    assert LinksOk(r.fibers, wip);
    if 0 < Span(elems, olds) && 0 < |Made(elems, 0)| {
      ChainOfRun(r.fibers, |s.fibers|, |s.fibers| + |Made(elems, 0)|);
    }
  }

  /**
   * As written, a fiber made after a position that made none is never
   * linked: for the children `[false, <p/>]` (what `{cond && <A/>}` followed
   * by `<p/>` produces) the parent ends with no child although a fiber was
   * made for `<p/>`.  The corrected rule links it as the first child.
   */
  lemma LinkAsWrittenDropsLaterChildren()
    ensures var root := Fiber(Untyped, Props(0, [], map[]), Some(0), None, None, None, None, NoTag, 0, 0);
      var s := RState([root], map[0 := EmptyHooks], []);
      var elems := [Bool(false), Elem(Tag("p"), Props(1, [], map[]))];
      var asWritten := ReconcileAt(s, 0, elems, [], 0, None, AsWritten);
      var corrected := ReconcileAt(s, 0, elems, [], 0, None, Corrected);
      && |asWritten.fibers| == 2 && asWritten.fibers[1].parent == Some(0) && asWritten.fibers[0].child == None
      && |corrected.fibers| == 2 && corrected.fibers[0].child == Some(1)
  {
    var root := Fiber(Untyped, Props(0, [], map[]), Some(0), None, None, None, None, NoTag, 0, 0);
    var s := RState([root], map[0 := EmptyHooks], []);
    var elems := [Bool(false), Elem(Tag("p"), Props(1, [], map[]))];
    forall rule: LinkRule
      ensures var r := ReconcileAt(s, 0, elems, [], 0, None, rule);
        && |r.fibers| == 2 && r.fibers[1].parent == Some(0)
        && r.fibers[0].child == (if rule == AsWritten then None else Some(1))
    {
      var s1 := Step(s, 0, Bool(false), None, 0, None, rule);
      assert s1.0.fibers[0].child == None && s1.1 == None && |s1.0.fibers| == 1;
      var s2 := Step(s1.0, 0, elems[1], None, 1, None, rule);
      assert s2.0.fibers[1].parent == Some(0);
      assert ReconcileAt(s2.0, 0, elems, [], 2, s2.1, rule) == s2.0;
      assert ReconcileAt(s1.0, 0, elems, [], 1, s1.1, rule) == s2.0;
    }
  }

  /** Once a fiber has been made (or position 0 holds an element), the two rules link alike. */
  lemma {:induction false} RulesAgreeAfterElement(s: RState, wip: FiberId, elems: seq<Value>, olds: seq<FiberId>, i: nat, prev: Option<FiberId>)
    requires wip < |s.fibers| && (forall k :: 0 <= k < |olds| ==> olds[k] < |s.fibers|) && (prev.Some? ==> prev.value < |s.fibers|)
    requires prev.Some? || (i == 0 && 0 < |elems| && IsElement(elems[0]))
    ensures ReconcileAt(s, wip, elems, olds, i, prev, AsWritten) == ReconcileAt(s, wip, elems, olds, i, prev, Corrected)
    decreases Span(elems, olds) - i
  {
    if i < Span(elems, olds) {
      var r := Step(s, wip, ElemAt(elems, i), OldAt(olds, i), i, prev, AsWritten);
      assert Step(s, wip, ElemAt(elems, i), OldAt(olds, i), i, prev, Corrected) == r;
      RulesAgreeAfterElement(r.0, wip, elems, olds, i + 1, r.1);
    }
  }

  /** No element from `i` on: none at `i`, and none from `i + 1` on. */
  lemma NoElementAt(elems: seq<Value>, i: nat)
    requires Made(elems, i) == []
    ensures !IsElement(ElemAt(elems, i)) && Made(elems, i + 1) == []
  {
    MadeAfter(elems, i, i + 1);
  }

  /** A step making no fiber, with no previous fiber and a childless parent, links alike under both rules. */
  lemma StepWithoutElement(s: RState, wip: FiberId, e: Value, oldf: Option<FiberId>, i: nat)
    requires wip < |s.fibers| && (oldf.Some? ==> oldf.value < |s.fibers|)
    requires !IsElement(e) && (0 < i ==> s.fibers[wip].child.None?)
    ensures var r := Step(s, wip, e, oldf, i, None, AsWritten);
      && r == Step(s, wip, e, oldf, i, None, Corrected)
      && r.0.fibers[wip].child.None? && r.1.None?
  {
    var g := Grow(s, wip, e, oldf);
    GrowFacts(s, wip, e, oldf);
    if 0 < i {
      assert g.fibers[wip := g.fibers[wip].(child := None)] == g.fibers;
    }
  }

  /** With no element left and the parent still childless, the two rules link alike. */
  lemma {:induction false} RulesAgreeWithoutElements(s: RState, wip: FiberId, elems: seq<Value>, olds: seq<FiberId>, i: nat)
    requires wip < |s.fibers| && (forall k :: 0 <= k < |olds| ==> olds[k] < |s.fibers|)
    requires Made(elems, i) == [] && (0 < i ==> s.fibers[wip].child.None?)
    ensures ReconcileAt(s, wip, elems, olds, i, None, AsWritten) == ReconcileAt(s, wip, elems, olds, i, None, Corrected)
    decreases Span(elems, olds) - i
  {
    if i < Span(elems, olds) {
      NoElementAt(elems, i);
      StepWithoutElement(s, wip, ElemAt(elems, i), OldAt(olds, i), i);
      var r := Step(s, wip, ElemAt(elems, i), OldAt(olds, i), i, None, AsWritten);
      RulesAgreeWithoutElements(r.0, wip, elems, olds, i + 1);
    }
  }

  /** As written, no position after the first touches the parent's `child`. */
  lemma {:induction false} AsWrittenKeepsChild(s: RState, wip: FiberId, elems: seq<Value>, olds: seq<FiberId>, i: nat, prev: Option<FiberId>)
    requires wip < |s.fibers| && (forall k :: 0 <= k < |olds| ==> olds[k] < |s.fibers|) && (prev.Some? ==> wip < prev.value < |s.fibers|)
    requires 0 < i
    ensures var r := ReconcileAt(s, wip, elems, olds, i, prev, AsWritten);
      |s.fibers| <= |r.fibers| && r.fibers[wip].child == s.fibers[wip].child
    decreases Span(elems, olds) - i
  {
    if i < Span(elems, olds) {
      var e := ElemAt(elems, i);
      GrowFacts(s, wip, e, OldAt(olds, i));
      var r := Step(s, wip, e, OldAt(olds, i), i, prev, AsWritten);
      assert r.0.fibers[wip].child == s.fibers[wip].child;
      AsWrittenKeepsChild(r.0, wip, elems, olds, i + 1, r.1);
    }
  }

  /**
   * The rule as written, for every list of children: it links exactly as
   * the corrected rule when position 0 holds an element or no position
   * does; when position 0 holds anything else, the parent ends with no
   * child, however many fibers later positions make.
   */
  lemma LinkAsWrittenMeaning(s: RState, wip: FiberId, elems: seq<Value>, olds: seq<FiberId>)
    requires wip < |s.fibers| && (forall k :: 0 <= k < |olds| ==> olds[k] < |s.fibers|)
    ensures ((0 < |elems| && IsElement(elems[0])) || Made(elems, 0) == []) ==>
      ReconcileAt(s, wip, elems, olds, 0, None, AsWritten) == ReconcileAt(s, wip, elems, olds, 0, None, Corrected)
    ensures 0 < |elems| && !IsElement(elems[0]) ==>
      var r := ReconcileAt(s, wip, elems, olds, 0, None, AsWritten);
      |s.fibers| <= |r.fibers| && r.fibers[wip].child.None?
  {
    if 0 < |elems| && IsElement(elems[0]) {
      RulesAgreeAfterElement(s, wip, elems, olds, 0, None);
    } else if Made(elems, 0) == [] {
      RulesAgreeWithoutElements(s, wip, elems, olds, 0);
    }
    if 0 < |elems| && !IsElement(elems[0]) {
      var r := Step(s, wip, elems[0], OldAt(olds, 0), 0, None, AsWritten);
      AsWrittenKeepsChild(r.0, wip, elems, olds, 1, r.1);
    }
  }

  lemma {:induction false} MadeAll(elems: seq<Value>, i: nat)
    requires i <= |elems| && forall j :: i <= j < |elems| ==> elems[j].Elem?
    ensures |Made(elems, i)| == |elems| - i
    decreases |elems| - i
  {
    if i < |elems| {
      MadeAll(elems, i + 1);
    }
  }

  lemma {:induction false} NoneDeleted(fs: seq<Fiber>, elems: seq<Value>, olds: seq<FiberId>, i: nat)
    requires forall k :: 0 <= k < |olds| ==> olds[k] < |fs|
    requires forall j :: i <= j < |olds| ==> SameType(fs, ElemAt(elems, j), Some(olds[j]))
    ensures Deleted(fs, elems, olds, i) == []
    decreases |olds| - i
  {
    if i < |olds| {
      NoneDeleted(fs, elems, olds, i + 1);
    }
  }

  /** Position `j`'s fiber when every position holds an element: the `j`-th new fiber. */
  lemma MadeAt(r: RState, s: RState, wip: FiberId, elems: seq<Value>, olds: seq<FiberId>, j: nat)
    requires wip < |s.fibers| && (forall k :: 0 <= k < |olds| ==> olds[k] < |s.fibers|)
    requires forall k :: 0 <= k < |elems| ==> elems[k].Elem?
    requires j < |elems|
    requires forall k :: 0 <= k < |elems| && IsElement(elems[k]) ==>
               MadeFor(r, s.fibers, wip, elems[k], OldAt(olds, k), IdAt(|s.fibers|, elems, 0, k))
    ensures MadeFor(r, s.fibers, wip, elems[j], OldAt(olds, j), |s.fibers| + j)
  {
    MadeAll(elems, 0);
    MadeAll(elems, j);
    assert IdAt(|s.fibers|, elems, 0, j) == |s.fibers| + j;
  }

  /**
   * Rendering the same shape again, each element of the old fiber's type
   * and key and carrying the very props object it had: nothing is deleted,
   * and the fiber for position `j` is the `j`-th new fiber, updates old
   * fiber `j`, keeps its node, and is tagged SKIP.
   */
  lemma RerenderSameShape(s: RState, wip: FiberId, elems: seq<Value>, olds: seq<FiberId>)
    requires wip < |s.fibers| && (forall k :: 0 <= k < |olds| ==> olds[k] < |s.fibers|)
    requires |elems| == |olds| && forall j :: 0 <= j < |elems| ==> elems[j].Elem?
    requires forall j :: 0 <= j < |olds| ==> SameType(s.fibers, elems[j], Some(olds[j]))
    requires forall j :: 0 <= j < |olds| ==> elems[j].props.pid == s.fibers[olds[j]].props.pid
    ensures var r := ReconcileAt(s, wip, elems, olds, 0, None, Corrected);
      && r.deletions == s.deletions
      && |r.fibers| == |s.fibers| + |elems|
      && forall j :: 0 <= j < |elems| ==> SkippedUpdate(r.fibers, |s.fibers| + j, s.fibers, olds[j], elems[j])
  {
    var r := ReconcileAt(s, wip, elems, olds, 0, None, Corrected);
    ReconcileQueues(s, wip, elems, olds, 0, None, Corrected);
    NoneDeleted(s.fibers, elems, olds, 0);
    ReconcileMakes(s, wip, elems, olds, 0, None, Corrected);
    MadeAll(elems, 0);
    SameShapeAll(r, s, wip, elems, olds);
  }

  /** `RerenderSameShape` for every position, from what the loop makes. */
  lemma SameShapeAll(r: RState, s: RState, wip: FiberId, elems: seq<Value>, olds: seq<FiberId>)
    requires wip < |s.fibers| && (forall k :: 0 <= k < |olds| ==> olds[k] < |s.fibers|)
    requires |elems| == |olds| && forall j :: 0 <= j < |elems| ==> elems[j].Elem?
    requires forall j :: 0 <= j < |olds| ==> SameType(s.fibers, elems[j], Some(olds[j]))
    requires forall j :: 0 <= j < |olds| ==> elems[j].props.pid == s.fibers[olds[j]].props.pid
    requires forall k :: 0 <= k < |elems| && IsElement(elems[k]) ==>
               MadeFor(r, s.fibers, wip, elems[k], OldAt(olds, k), IdAt(|s.fibers|, elems, 0, k))
    ensures forall j :: 0 <= j < |elems| ==> SkippedUpdate(r.fibers, |s.fibers| + j, s.fibers, olds[j], elems[j])
  {
    forall j | 0 <= j < |elems|
      ensures SkippedUpdate(r.fibers, |s.fibers| + j, s.fibers, olds[j], elems[j])
    {
      MadeAt(r, s, wip, elems, olds, j);
      assert OldAt(olds, j) == Some(olds[j]);
      SameShapeAt(r, s.fibers, wip, elems[j], olds[j], |s.fibers| + j);
    }
  }

  /** Fiber `id` updates old fiber `o` for element `e`: it keeps the node, takes the props, and is tagged SKIP. */
  ghost predicate SkippedUpdate(rs: seq<Fiber>, id: int, fs: seq<Fiber>, o: FiberId, e: Value)
    requires e.Elem? && o < |fs|
  {
    0 <= id < |rs| && rs[id].alternate == Some(o) && rs[id].tag == Skip && rs[id].dom == fs[o].dom && rs[id].props == e.props
  }

  /** The fiber made for an element of the old fiber's type and props is an update tagged SKIP. */
  lemma SameShapeAt(r: RState, fs: seq<Fiber>, wip: FiberId, e: Value, o: FiberId, id: int)
    requires e.Elem? && o < |fs| && SameType(fs, e, Some(o)) && e.props.pid == fs[o].props.pid
    requires MadeFor(r, fs, wip, e, Some(o), id)
    ensures SkippedUpdate(r.fibers, id, fs, o, e)
  {
  }

}
