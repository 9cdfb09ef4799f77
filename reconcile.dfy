/**
 * The children reconciliation of core/reconciler.ts (`reconcileChildren`
 * and `hasPropsChanged`).
 *
 * `ReconcileAt` is the specification: one `Step` per position of the
 * element list or of the old child chain, whichever is longer.  The method
 * `ReconcileChildren` is the loop, proved equal to it; the lemmas say what
 * the result is.
 */
module Reconcile {
  import opened Values
  import opened HookSlots
  import opened Arena
  import opened State

  // ---------------------------------------------------------------------
  // hasPropsChanged
  // ---------------------------------------------------------------------

  /** `ks.some(k => a[k] !== b[k])`. */
  function SomeKeyDiffers(a: Props, b: Props, ks: seq<string>): bool
    decreases |ks|
  {
    ks != [] && (!Same(Get(a, ks[0]), Get(b, ks[0])) || SomeKeyDiffers(a, b, ks[1..]))
  }

  /** Shallow props comparison: the same object, else the key counts, else the old keys' values. */
  function HasPropsChanged(a: Props, b: Props): bool {
    if a.pid == b.pid then false
    else if |a.keys| != |b.keys| then true
    else SomeKeyDiffers(a, b, a.keys)
  }

  lemma {:induction false} SomeKeyDiffersMeaning(a: Props, b: Props, ks: seq<string>)
    ensures SomeKeyDiffers(a, b, ks) <==> exists k :: k in ks && !Same(Get(a, k), Get(b, k))
    decreases |ks|
  {
    if ks != [] {
      SomeKeyDiffersMeaning(a, b, ks[1..]);
      if exists k :: k in ks && !Same(Get(a, k), Get(b, k)) {
        var k :| k in ks && !Same(Get(a, k), Get(b, k));
        if k != ks[0] {
          assert k in ks[1..];
        }
      }
    }
  }

  /**
   * Props count as changed exactly when they are another object and either
   * the key counts differ or some old key reads a different value.
   */
  lemma HasPropsChangedMeaning(a: Props, b: Props)
    ensures HasPropsChanged(a, b) <==>
      a.pid != b.pid && (|a.keys| != |b.keys| || exists k :: k in a.keys && !Same(Get(a, k), Get(b, k)))
  {
    SomeKeyDiffersMeaning(a, b, a.keys);
  }

  /**
   * The comparison reads only the old keys: a key renamed while holding
   * undefined goes unnoticed.
   */
  lemma RenamedUndefinedGoesUnnoticed()
    ensures !HasPropsChanged(Props(1, ["a"], map["a" := Undefined]), Props(2, ["b"], map["b" := Undefined]))
  {
    SomeKeyDiffersMeaning(Props(1, ["a"], map["a" := Undefined]), Props(2, ["b"], map["b" := Undefined]), ["a"]);
  }

  // ---------------------------------------------------------------------
  // reconcileChildren, as a specification
  // ---------------------------------------------------------------------

  /** The part of the runtime reconcileChildren writes. */
  datatype RState = RState(fibers: seq<Fiber>, hookSets: map<FiberId, HookSet>, deletions: seq<FiberId>)

  /**
   * How a new fiber is linked in: as written (the first position sets the
   * parent's `child`, later ones need a previous sibling), or corrected (the
   * first fiber made sets `child`, whatever its position).
   */
  datatype LinkRule = AsWritten | Corrected

  /** `elements[index]`: undefined past the end. */
  function ElemAt(elems: seq<Value>, i: nat): Value {
    if i < |elems| then elems[i] else Undefined
  }

  /** The old fiber at position `i` of the old chain, if any. */
  function OldAt(olds: seq<FiberId>, i: nat): Option<FiberId> {
    if i < |olds| then Some(olds[i]) else None
  }

  /** The positions the loop visits: the longer of the two lists. */
  function Span(elems: seq<Value>, olds: seq<FiberId>): nat {
    if |elems| < |olds| then |olds| else |elems|
  }

  /** `sameType`: an old fiber, and an element of its type with the same key. */
  predicate SameType(fs: seq<Fiber>, e: Value, oldf: Option<FiberId>)
    requires oldf.Some? ==> oldf.value < |fs|
  {
    oldf.Some? && IsElement(e) && e.etype == fs[oldf.value].ftype
    && Same(Get(e.props, KEY), Get(fs[oldf.value].props, KEY))
  }

  /** The fiber made for element `e` at id `n`: an update of the old fiber, a placement, or none. */
  function NewFiber(fs: seq<Fiber>, wip: FiberId, e: Value, oldf: Option<FiberId>, n: FiberId): Option<Fiber>
    requires oldf.Some? ==> oldf.value < |fs|
  {
    if SameType(fs, e, oldf) then
      var o := fs[oldf.value];
      Some(Fiber(o.ftype, e.props, o.dom, Some(wip), None, None, oldf,
                 if HasPropsChanged(o.props, e.props) then Update else Skip, o.hooks, 0))
    else if IsElement(e) then
      Some(Fiber(e.etype, e.props, None, Some(wip), None, None, None, Placement, n, 0))
    else None
  }

  /** Linking the fiber made at position `i` (if any) to the parent or the previous sibling. */
  function Link(fs: seq<Fiber>, wip: FiberId, i: nat, prev: Option<FiberId>, made: Option<FiberId>, rule: LinkRule): seq<Fiber>
    requires wip < |fs| && (prev.Some? ==> prev.value < |fs|)
  {
    var first := match rule
      case AsWritten => i == 0
      case Corrected => i == 0 || prev.None?;
    if first then fs[wip := fs[wip].(child := made)]
    else if prev.Some? && made.Some? then fs[prev.value := fs[prev.value].(sibling := made)]
    else fs
  }

  /**
   * The first half of an iteration: the fiber made for `e` appended (with
   * fresh hook arrays for a placement), and an unmatched old fiber tagged
   * for deletion and queued.
   */
  function Grow(s: RState, wip: FiberId, e: Value, oldf: Option<FiberId>): (r: RState)
    requires wip < |s.fibers| && (oldf.Some? ==> oldf.value < |s.fibers|)
    ensures |r.fibers| == |s.fibers| + if IsElement(e) then 1 else 0
  {
    var n := |s.fibers|;
    var same := SameType(s.fibers, e, oldf);
    var nf := NewFiber(s.fibers, wip, e, oldf, n);
    var fs1 := if nf.Some? then s.fibers + [nf.value] else s.fibers;
    var hs1 := if nf.Some? && !same then s.hookSets[n := EmptyHooks] else s.hookSets;
    var gone := oldf.Some? && !same;
    var fs2 := if gone then fs1[oldf.value := fs1[oldf.value].(tag := Deletion)] else fs1;
    var ds := if gone then s.deletions + [oldf.value] else s.deletions;
    RState(fs2, hs1, ds)
  }

  /** One iteration of the loop at position `i`: the new state and the new previous sibling. */
  function Step(s: RState, wip: FiberId, e: Value, oldf: Option<FiberId>, i: nat, prev: Option<FiberId>, rule: LinkRule)
    : (r: (RState, Option<FiberId>))
    requires wip < |s.fibers| && (oldf.Some? ==> oldf.value < |s.fibers|) && (prev.Some? ==> prev.value < |s.fibers|)
    ensures |r.0.fibers| == |s.fibers| + if IsElement(e) then 1 else 0
    ensures r.1 == if IsElement(e) then Some(|s.fibers|) else prev
  {
    var g := Grow(s, wip, e, oldf);
    var made := if IsElement(e) then Some(|s.fibers|) else None;
    (g.(fibers := Link(g.fibers, wip, i, prev, made, rule)), if made.Some? then made else prev)
  }

  /** The loop from position `i` on, with `prev` the last fiber made. */
  function ReconcileAt(s: RState, wip: FiberId, elems: seq<Value>, olds: seq<FiberId>, i: nat, prev: Option<FiberId>, rule: LinkRule)
    : RState
    requires wip < |s.fibers| && (forall k :: 0 <= k < |olds| ==> olds[k] < |s.fibers|)
    requires prev.Some? ==> prev.value < |s.fibers|
    decreases Span(elems, olds) - i
  {
    if i >= Span(elems, olds) then s
    else
      var r := Step(s, wip, ElemAt(elems, i), OldAt(olds, i), i, prev, rule);
      ReconcileAt(r.0, wip, elems, olds, i + 1, r.1, rule)
  }

  /** The old children: the chain from the alternate's first child. */
  function OldChildren(fs: seq<Fiber>, wip: FiberId): (olds: seq<FiberId>)
    requires WellLinked(fs) && wip < |fs|
    ensures forall k :: 0 <= k < |olds| ==> olds[k] < |fs|
    ensures forall j, k :: 0 <= j < k < |olds| ==> olds[j] < olds[k]
  {
    assert LinksOk(fs, wip);
    match fs[wip].alternate
    case None => []
    case Some(a) => assert LinksOk(fs, a); Chain(fs, fs[a].child)
  }

  // ---------------------------------------------------------------------
  // The arena invariant is kept
  // ---------------------------------------------------------------------

  /** What each iteration needs and keeps: the arena invariant, and `prev` the last fiber made, still unlinked. */
  ghost predicate StepReady(s: RState, ndoms: nat, wip: FiberId, olds: seq<FiberId>, prev: Option<FiberId>) {
    && ArenaOk(s.fibers, s.hookSets, ndoms)
    && wip < |s.fibers|
    && (forall k :: 0 <= k < |olds| ==> olds[k] < |s.fibers|)
    && (forall k :: 0 <= k < |s.deletions| ==> s.deletions[k] < |s.fibers|)
    && (prev.Some? ==>
          && wip < prev.value == |s.fibers| - 1
          && s.fibers[prev.value].parent == Some(wip)
          && s.fibers[prev.value].sibling.None?)
  }

  lemma AppendKeepsArena(fs: seq<Fiber>, hs: map<FiberId, HookSet>, hs': map<FiberId, HookSet>, ndoms: nat, f: Fiber)
    requires ArenaOk(fs, hs, ndoms)
    requires f.parent.Some? && f.parent.value < |fs|
    requires f.alternate.Some? ==> f.alternate.value < |fs|
    requires f.child.None? && f.sibling.None? && f.hooks <= |fs| && f.hooks in hs'
    requires f.dom.Some? ==> f.dom.value < ndoms
    requires forall k :: k in hs ==> k in hs'
    ensures ArenaOk(fs + [f], hs', ndoms)
  {
    var gs := fs + [f];
    forall i | 0 <= i < |gs| ensures LinksOk(gs, i) {
      if i < |fs| {
        assert LinksOk(fs, i);
      }
    }
  }

  lemma SetChildKeepsArena(fs: seq<Fiber>, hs: map<FiberId, HookSet>, ndoms: nat, w: FiberId, c: Option<FiberId>)
    requires ArenaOk(fs, hs, ndoms) && w < |fs|
    requires c.Some? ==> w < c.value < |fs| && fs[c.value].parent == Some(w)
    ensures ArenaOk(fs[w := fs[w].(child := c)], hs, ndoms)
  {
    var gs := fs[w := fs[w].(child := c)];
    forall i | 0 <= i < |gs| ensures LinksOk(gs, i) {
      assert LinksOk(fs, i);
    }
  }

  lemma SetSiblingKeepsArena(fs: seq<Fiber>, hs: map<FiberId, HookSet>, ndoms: nat, p: FiberId, s: FiberId)
    requires ArenaOk(fs, hs, ndoms) && p < s < |fs| && fs[s].parent == fs[p].parent
    ensures ArenaOk(fs[p := fs[p].(sibling := Some(s))], hs, ndoms)
  {
    var gs := fs[p := fs[p].(sibling := Some(s))];
    forall i | 0 <= i < |gs| ensures LinksOk(gs, i) {
      assert LinksOk(fs, i);
    }
  }


  /** Everything but the tag, `child` and `sibling` of a fiber. */
  predicate Kept(f: Fiber, g: Fiber) {
    f.ftype == g.ftype && f.props == g.props && f.dom == g.dom && f.parent == g.parent
    && f.alternate == g.alternate && f.hooks == g.hooks && f.hookIndex == g.hookIndex
  }

  /** What the first half of an iteration does, field by field. */
  lemma GrowFacts(s: RState, wip: FiberId, e: Value, oldf: Option<FiberId>)
    requires wip < |s.fibers| && (oldf.Some? ==> oldf.value < |s.fibers|)
    ensures var g := Grow(s, wip, e, oldf);
      var n := |s.fibers|;
      var same := SameType(s.fibers, e, oldf);
      && (forall x :: 0 <= x < n ==>
            && Kept(s.fibers[x], g.fibers[x])
            && g.fibers[x].child == s.fibers[x].child && g.fibers[x].sibling == s.fibers[x].sibling
            && (oldf != Some(x) ==> g.fibers[x].tag == s.fibers[x].tag))
      && (IsElement(e) ==> g.fibers[n] == NewFiber(s.fibers, wip, e, oldf, n).value)
      && (oldf.Some? && !same ==> g.fibers[oldf.value].tag == Deletion && g.deletions == s.deletions + [oldf.value])
      && (oldf.None? || same ==> g.deletions == s.deletions)
      && g.hookSets == if IsElement(e) && !same then s.hookSets[n := EmptyHooks] else s.hookSets
  {
  }

  lemma LinkStable(fs: seq<Fiber>, wip: FiberId, i: nat, prev: Option<FiberId>, made: Option<FiberId>, rule: LinkRule)
    requires wip < |fs| && (prev.Some? ==> prev.value < |fs|)
    ensures var r := Link(fs, wip, i, prev, made, rule);
      && |r| == |fs|
      && (forall x :: 0 <= x < |fs| ==> Kept(fs[x], r[x]) && r[x].tag == fs[x].tag)
      && (forall x :: 0 <= x < |fs| && x != wip ==> r[x].child == fs[x].child)
      && (forall x :: 0 <= x < |fs| && prev != Some(x) ==> r[x].sibling == fs[x].sibling)
  {
  }

  /** The first half of an iteration keeps the arena invariant. */
  lemma GrowKeepsArena(s: RState, ndoms: nat, wip: FiberId, e: Value, oldf: Option<FiberId>)
    requires ArenaOk(s.fibers, s.hookSets, ndoms) && wip < |s.fibers| && (oldf.Some? ==> oldf.value < |s.fibers|)
    ensures var g := Grow(s, wip, e, oldf); ArenaOk(g.fibers, g.hookSets, ndoms)
  {
    var fs := s.fibers;
    var n := |fs|;
    var same := SameType(fs, e, oldf);
    var nf := NewFiber(fs, wip, e, oldf, n);
    var fs1 := if nf.Some? then fs + [nf.value] else fs;
    var hs1 := if nf.Some? && !same then s.hookSets[n := EmptyHooks] else s.hookSets;
    if nf.Some? {
      if same {
        assert LinksOk(fs, oldf.value);
      }
      AppendKeepsArena(fs, s.hookSets, hs1, ndoms, nf.value);
    }
    var gone := oldf.Some? && !same;
    if gone {
      assert LinksOk(fs1, oldf.value);
      ArenaUpdate(fs1, hs1, ndoms, oldf.value, fs1[oldf.value].(tag := Deletion));
    }
  }

  lemma StepKeepsReady(s: RState, ndoms: nat, wip: FiberId, olds: seq<FiberId>, e: Value, i: nat, prev: Option<FiberId>, rule: LinkRule)
    requires StepReady(s, ndoms, wip, olds, prev)
    ensures var r := Step(s, wip, e, OldAt(olds, i), i, prev, rule);
      StepReady(r.0, ndoms, wip, olds, r.1)
  {
    var oldf := OldAt(olds, i);
    var n := |s.fibers|;
    var g := Grow(s, wip, e, oldf);
    GrowKeepsArena(s, ndoms, wip, e, oldf);
    GrowFacts(s, wip, e, oldf);
    var made := if IsElement(e) then Some(n) else None;
    var first := match rule
      case AsWritten => i == 0
      case Corrected => i == 0 || prev.None?;
    if first {
      SetChildKeepsArena(g.fibers, g.hookSets, ndoms, wip, made);
    } else if prev.Some? && made.Some? {
      SetSiblingKeepsArena(g.fibers, g.hookSets, ndoms, prev.value, n);
    }
    LinkStable(g.fibers, wip, i, prev, made, rule);
  }

  /** The whole loop keeps the arena invariant. */
  lemma {:induction false} ReconcileKeepsArena(s: RState, ndoms: nat, wip: FiberId, elems: seq<Value>, olds: seq<FiberId>, i: nat, prev: Option<FiberId>, rule: LinkRule)
    requires StepReady(s, ndoms, wip, olds, prev)
    ensures var r := ReconcileAt(s, wip, elems, olds, i, prev, rule);
      ArenaOk(r.fibers, r.hookSets, ndoms) && forall k :: 0 <= k < |r.deletions| ==> r.deletions[k] < |r.fibers|
    decreases Span(elems, olds) - i
  {
    if i < Span(elems, olds) {
      var r := Step(s, wip, ElemAt(elems, i), OldAt(olds, i), i, prev, rule);
      StepKeepsReady(s, ndoms, wip, olds, ElemAt(elems, i), i, prev, rule);
      ReconcileKeepsArena(r.0, ndoms, wip, elems, olds, i + 1, r.1, rule);
    }
  }

  /**
   * One step leaves the existing fibers as they were, except the old
   * fiber's tag, the parent's `child` and the previous sibling's `sibling`;
   * existing hook arrays are kept.
   */
  lemma StepStable(s: RState, wip: FiberId, e: Value, oldf: Option<FiberId>, i: nat, prev: Option<FiberId>, rule: LinkRule)
    requires wip < |s.fibers| && (oldf.Some? ==> oldf.value < |s.fibers|) && (prev.Some? ==> prev.value < |s.fibers|)
    ensures var r := Step(s, wip, e, oldf, i, prev, rule).0;
      && |s.fibers| <= |r.fibers|
      && (forall x :: 0 <= x < |s.fibers| ==> Kept(s.fibers[x], r.fibers[x]))
      && (forall x :: 0 <= x < |s.fibers| && oldf != Some(x) ==> r.fibers[x].tag == s.fibers[x].tag)
      && (forall x :: 0 <= x < |s.fibers| && x != wip ==> r.fibers[x].child == s.fibers[x].child)
      && (forall x :: 0 <= x < |s.fibers| && prev != Some(x) ==> r.fibers[x].sibling == s.fibers[x].sibling)
      && (forall k :: k in s.hookSets && k < |s.fibers| ==> k in r.hookSets && r.hookSets[k] == s.hookSets[k])
      && (forall k :: k in s.hookSets ==> k in r.hookSets)
  {
    var g := Grow(s, wip, e, oldf);
    GrowFacts(s, wip, e, oldf);
    LinkStable(g.fibers, wip, i, prev, if IsElement(e) then Some(|s.fibers|) else None, rule);
  }

  /** The first half of an iteration, in place: make the fiber for `element`, and retire an unmatched old fiber. */
  method GrowFiber(rt: Runtime, wip: FiberId, element: Value, oldFiber: Option<FiberId>) returns (newFiber: Option<FiberId>)
    requires wip < |rt.fibers| && (oldFiber.Some? ==> oldFiber.value < |rt.fibers|)
    modifies rt`fibers, rt`hookSets, rt`fibersToDelete
    ensures RState(rt.fibers, rt.hookSets, rt.fibersToDelete)
         == Grow(RState(old(rt.fibers), old(rt.hookSets), old(rt.fibersToDelete)), wip, element, oldFiber)
    ensures newFiber == if IsElement(element) then Some(|old(rt.fibers)|) else None
  {
    var n := |rt.fibers|;
    var sameType := SameType(rt.fibers, element, oldFiber);
    newFiber := None;
    if sameType {
      var o := rt.fibers[oldFiber.value];
      var tag := if HasPropsChanged(o.props, element.props) then Update else Skip;
      rt.fibers := rt.fibers + [Fiber(o.ftype, element.props, o.dom, Some(wip), None, None, oldFiber, tag, o.hooks, 0)];
      newFiber := Some(n);
    }
    if IsElement(element) && !sameType {
      rt.fibers := rt.fibers + [Fiber(element.etype, element.props, None, Some(wip), None, None, None, Placement, n, 0)];
      rt.hookSets := rt.hookSets[n := EmptyHooks];
      newFiber := Some(n);
    }
    if oldFiber.Some? && !sameType {
      rt.fibers := rt.fibers[oldFiber.value := rt.fibers[oldFiber.value].(tag := Deletion)];
      rt.fibersToDelete := rt.fibersToDelete + [oldFiber.value];
    }
  }

  /**
   * The second half of an iteration, in place: position 0 sets the
   * parent's `child`, a later fiber is linked to the previous one made.
   */
  method LinkFiber(rt: Runtime, wip: FiberId, i: nat, prev: Option<FiberId>, newFiber: Option<FiberId>)
    requires wip < |rt.fibers| && (prev.Some? ==> prev.value < |rt.fibers|)
    modifies rt`fibers
    ensures rt.fibers == Link(old(rt.fibers), wip, i, prev, newFiber, AsWritten)
  {
    if i == 0 {
      rt.fibers := rt.fibers[wip := rt.fibers[wip].(child := newFiber)];
    } else if prev.Some? && newFiber.Some? {
      rt.fibers := rt.fibers[prev.value := rt.fibers[prev.value].(sibling := newFiber)];
    }
  }

  /**
   * reconcileChildren(wipFiber, elements): pairs the elements with the old
   * children position by position, making updated or placed fibers,
   * marking unmatched old fibers for deletion and linking the new fibers
   * under `wip`.
   */
  method ReconcileChildren(rt: Runtime, wip: FiberId, elems: seq<Value>)
    requires rt.Valid() && wip < |rt.fibers|
    modifies rt`fibers, rt`hookSets, rt`fibersToDelete
    ensures rt.Valid() && |old(rt.fibers)| <= |rt.fibers|
    ensures RState(rt.fibers, rt.hookSets, rt.fibersToDelete)
         == ReconcileAt(RState(old(rt.fibers), old(rt.hookSets), old(rt.fibersToDelete)),
                        wip, elems, OldChildren(old(rt.fibers), wip), 0, None, AsWritten)
  {
    ghost var s := RState(rt.fibers, rt.hookSets, rt.fibersToDelete);
    ghost var olds := OldChildren(rt.fibers, wip);
    ReconcileLoop(rt, wip, elems);
    ReconcileKeepsArena(s, |rt.doms|, wip, elems, olds, 0, None, AsWritten);
    ReconcileStable(s, wip, elems, olds, 0, None, AsWritten);
  }

  /**
   * The loop of reconcileChildren.  The old chain is walked in `before`,
   * the arena as it was on entry: the loop only appends fibers, retags old
   * ones and links new ones, so an old fiber's `sibling` reads the same in
   * either.
   */
  method ReconcileLoop(rt: Runtime, wip: FiberId, elems: seq<Value>)
    requires WellLinked(rt.fibers) && wip < |rt.fibers|
    requires StepReady(RState(rt.fibers, rt.hookSets, rt.fibersToDelete), |rt.doms|, wip, OldChildren(rt.fibers, wip), None)
    modifies rt`fibers, rt`hookSets, rt`fibersToDelete
    ensures RState(rt.fibers, rt.hookSets, rt.fibersToDelete)
         == ReconcileAt(RState(old(rt.fibers), old(rt.hookSets), old(rt.fibersToDelete)),
                        wip, elems, OldChildren(old(rt.fibers), wip), 0, None, AsWritten)
  {
    var before := rt.fibers;
    ghost var olds := OldChildren(before, wip);
    ghost var goal := ReconcileAt(RState(rt.fibers, rt.hookSets, rt.fibersToDelete), wip, elems, olds, 0, None, AsWritten);
    assert LinksOk(rt.fibers, wip);
    var oldFiber: Option<FiberId> := None;
    if rt.fibers[wip].alternate.Some? {
      assert LinksOk(rt.fibers, rt.fibers[wip].alternate.value);
      oldFiber := rt.fibers[rt.fibers[wip].alternate.value].child;
    }
    var prev: Option<FiberId> := None;
    var i := 0;
    while i < |elems| || oldFiber.Some?
      invariant StepReady(RState(rt.fibers, rt.hookSets, rt.fibersToDelete), |rt.doms|, wip, olds, prev)
      invariant i <= Span(elems, olds)
      invariant oldFiber == OldAt(olds, i)
      invariant ReconcileAt(RState(rt.fibers, rt.hookSets, rt.fibersToDelete), wip, elems, olds, i, prev, AsWritten) == goal
      decreases Span(elems, olds) - i
    {
      oldFiber, prev := Iterate(rt, wip, elems, before, olds, i, oldFiber, prev);
      i := i + 1;
    }
  }

  /** One pass of the loop body at position `i`, in place. */
  method Iterate(rt: Runtime, wip: FiberId, elems: seq<Value>, before: seq<Fiber>, ghost olds: seq<FiberId>,
                 i: nat, oldFiber: Option<FiberId>, prev: Option<FiberId>)
    returns (nextOld: Option<FiberId>, last: Option<FiberId>)
    requires WellLinked(before) && wip < |before| && olds == OldChildren(before, wip)
    requires StepReady(RState(rt.fibers, rt.hookSets, rt.fibersToDelete), |rt.doms|, wip, olds, prev)
    requires i < Span(elems, olds) && oldFiber == OldAt(olds, i)
    modifies rt`fibers, rt`hookSets, rt`fibersToDelete
    ensures StepReady(RState(rt.fibers, rt.hookSets, rt.fibersToDelete), |rt.doms|, wip, olds, last)
    ensures nextOld == OldAt(olds, i + 1)
    ensures ReconcileAt(RState(old(rt.fibers), old(rt.hookSets), old(rt.fibersToDelete)), wip, elems, olds, i, prev, AsWritten)
         == ReconcileAt(RState(rt.fibers, rt.hookSets, rt.fibersToDelete), wip, elems, olds, i + 1, last, AsWritten)
  {
    ghost var s := RState(rt.fibers, rt.hookSets, rt.fibersToDelete);
    var element := ElemAt(elems, i);
    ghost var r := Step(s, wip, element, oldFiber, i, prev, AsWritten);
    ReconcileUnfold(s, wip, elems, olds, i, prev, AsWritten);
    StepKeepsReady(s, |rt.doms|, wip, olds, element, i, prev, AsWritten);
    var newFiber := GrowFiber(rt, wip, element, oldFiber);
    LinkFiber(rt, wip, i, prev, newFiber);
    assert RState(rt.fibers, rt.hookSets, rt.fibersToDelete) == r.0;
    nextOld := None;
    if oldFiber.Some? {
      OldChildrenLinks(before, wip, i);
      nextOld := before[oldFiber.value].sibling;
    }
    last := if newFiber.Some? then newFiber else prev;
  }

  lemma ReconcileUnfold(s: RState, wip: FiberId, elems: seq<Value>, olds: seq<FiberId>, i: nat, prev: Option<FiberId>, rule: LinkRule)
    requires wip < |s.fibers| && (forall k :: 0 <= k < |olds| ==> olds[k] < |s.fibers|) && (prev.Some? ==> prev.value < |s.fibers|)
    requires i < Span(elems, olds)
    ensures var r := Step(s, wip, ElemAt(elems, i), OldAt(olds, i), i, prev, rule);
      ReconcileAt(s, wip, elems, olds, i, prev, rule) == ReconcileAt(r.0, wip, elems, olds, i + 1, r.1, rule)
  {
  }

  /** The loop leaves every existing fiber's payload and parent as they were, and only adds fibers. */
  lemma ReconcileStable(s: RState, wip: FiberId, elems: seq<Value>, olds: seq<FiberId>, i: nat, prev: Option<FiberId>, rule: LinkRule)
    requires wip < |s.fibers| && (forall k :: 0 <= k < |olds| ==> olds[k] < |s.fibers|) && (prev.Some? ==> prev.value < |s.fibers|)
    ensures var r := ReconcileAt(s, wip, elems, olds, i, prev, rule);
      && |s.fibers| <= |r.fibers|
      && (forall x :: 0 <= x < |s.fibers| ==> Kept(s.fibers[x], r.fibers[x]))
      && (forall x :: 0 <= x < |s.fibers| && (forall j :: i <= j < |olds| ==> olds[j] != x) ==> r.fibers[x].tag == s.fibers[x].tag)
      && (forall x :: 0 <= x < |s.fibers| && x != wip ==> r.fibers[x].child == s.fibers[x].child)
      && (forall x :: 0 <= x < |s.fibers| && prev != Some(x) ==> r.fibers[x].sibling == s.fibers[x].sibling)
      && (forall k :: k in s.hookSets && k < |s.fibers| ==> k in r.hookSets && r.hookSets[k] == s.hookSets[k])
  {
    ReconcileKeeps(s, wip, elems, olds, i, prev, rule);
    ReconcileKeepsLinks(s, wip, elems, olds, i, prev, rule);
  }

  /** The loop only adds fibers, keeps every existing fiber's payload and parent, and every existing hook array. */
  lemma {:induction false} ReconcileKeeps(s: RState, wip: FiberId, elems: seq<Value>, olds: seq<FiberId>, i: nat, prev: Option<FiberId>, rule: LinkRule)
    requires wip < |s.fibers| && (forall k :: 0 <= k < |olds| ==> olds[k] < |s.fibers|) && (prev.Some? ==> prev.value < |s.fibers|)
    ensures var r := ReconcileAt(s, wip, elems, olds, i, prev, rule);
      && |s.fibers| <= |r.fibers|
      && (forall x :: 0 <= x < |s.fibers| ==> Kept(s.fibers[x], r.fibers[x]))
      && (forall k :: k in s.hookSets && k < |s.fibers| ==> k in r.hookSets && r.hookSets[k] == s.hookSets[k])
    decreases Span(elems, olds) - i
  {
    if i < Span(elems, olds) {
      var r := Step(s, wip, ElemAt(elems, i), OldAt(olds, i), i, prev, rule);
      StepStable(s, wip, ElemAt(elems, i), OldAt(olds, i), i, prev, rule);
      ReconcileKeeps(r.0, wip, elems, olds, i + 1, r.1, rule);
    }
  }

  /** The loop retags only the old children from `i` on, and relinks only the parent and the previous sibling. */
  lemma {:induction false} ReconcileKeepsLinks(s: RState, wip: FiberId, elems: seq<Value>, olds: seq<FiberId>, i: nat, prev: Option<FiberId>, rule: LinkRule)
    requires wip < |s.fibers| && (forall k :: 0 <= k < |olds| ==> olds[k] < |s.fibers|) && (prev.Some? ==> prev.value < |s.fibers|)
    ensures var r := ReconcileAt(s, wip, elems, olds, i, prev, rule);
      && |s.fibers| <= |r.fibers|
      && (forall x :: 0 <= x < |s.fibers| && (forall j :: i <= j < |olds| ==> olds[j] != x) ==> r.fibers[x].tag == s.fibers[x].tag)
      && (forall x :: 0 <= x < |s.fibers| && x != wip ==> r.fibers[x].child == s.fibers[x].child)
      && (forall x :: 0 <= x < |s.fibers| && prev != Some(x) ==> r.fibers[x].sibling == s.fibers[x].sibling)
    decreases Span(elems, olds) - i
  {
    if i < Span(elems, olds) {
      var r := Step(s, wip, ElemAt(elems, i), OldAt(olds, i), i, prev, rule);
      StepStable(s, wip, ElemAt(elems, i), OldAt(olds, i), i, prev, rule);
      ReconcileKeepsLinks(r.0, wip, elems, olds, i + 1, r.1, rule);
    }
  }

  /** Consecutive old children are linked by `sibling`, and the last has none. */
  lemma OldChildrenLinks(fs: seq<Fiber>, wip: FiberId, k: nat)
    requires WellLinked(fs) && wip < |fs| && k < |OldChildren(fs, wip)|
    ensures var olds := OldChildren(fs, wip);
      fs[olds[k]].sibling == OldAt(olds, k + 1)
  {
    assert LinksOk(fs, wip);
    var a := fs[wip].alternate.value;
    assert LinksOk(fs, a);
    ChainLinks(fs, fs[a].child, k);
  }
}
