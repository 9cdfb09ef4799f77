/**
 * The positional hook-slot arrays every component fiber carries.
 *
 * The five arrays (state, effect, ref, callback, context) are JavaScript
 * arrays indexed by the fiber's single shared hook counter, so each of them
 * is sparse: a slot never written is a hole.  A hole is `None` here.
 */
module HookSlots {
  import opened Values

  /** A sparse JavaScript array. */
  type Slots<T> = seq<Option<T>>

  /** `arr[i]`: a hole or an index past the end reads as missing. */
  function SlotAt<T>(s: Slots<T>, i: nat): Option<T> {
    if i < |s| then s[i] else None
  }

  /** `arr[i] = x`: writing past the end grows the array and leaves holes in between. */
  function SlotWrite<T>(s: Slots<T>, i: nat, x: T): (r: Slots<T>)
    ensures |r| == if i < |s| then |s| else i + 1
    ensures r[i] == Some(x)
    ensures forall j :: 0 <= j < |s| && j != i ==> r[j] == s[j]
    ensures forall j :: |s| <= j < i ==> r[j] == None
  {
    if i < |s| then s[i := Some(x)] else s + seq(i - |s|, _ => None) + [Some(x)]
  }

  /** An effect hook `{effect, cleanup, deps, isDirty}`; `cleanup` is undefined when absent. */
  datatype EffectHook = EffectHook(effect: Value, cleanup: Value, deps: Option<seq<Value>>, isDirty: bool)

  /** A callback hook `{callback, deps}`. */
  datatype CallbackHook = CallbackHook(callback: Value, deps: Option<seq<Value>>)

  /** A context hook `{context, value}`. */
  datatype ContextHook = ContextHook(context: ContextId, value: Value)

  /** The five arrays of one component lineage. */
  datatype HookSet = HookSet(
    state: Slots<Value>,
    effects: Slots<EffectHook>,
    refs: Slots<RefId>,
    callbacks: Slots<CallbackHook>,
    contexts: Slots<ContextHook>)

  const EmptyHooks := HookSet([], [], [], [], [])

  /**
   * The dependency comparison of hooks/useEffect.ts (`areDepEqual`) and of
   * hooks/useCallback.ts (`areDepsEqual`); the two are the same loop.
   */
  function AreDepsEqual(a: seq<Value>, b: seq<Value>): bool {
    |a| == |b| && DepsEqualFrom(a, b, 0)
  }

  /** The loop of the comparison, from index `i` on. */
  function DepsEqualFrom(a: seq<Value>, b: seq<Value>, i: nat): bool
    requires |a| == |b|
    decreases |a| - i
  {
    if i >= |a| then true
    else if !Same(a[i], b[i]) then false
    else DepsEqualFrom(a, b, i + 1)
  }

  lemma {:induction false} DepsEqualFromMeaning(a: seq<Value>, b: seq<Value>, i: nat)
    requires |a| == |b|
    ensures DepsEqualFrom(a, b, i) <==> forall j :: i <= j < |a| ==> Same(a[j], b[j])
    decreases |a| - i
  {
    if i < |a| {
      DepsEqualFromMeaning(a, b, i + 1);
    }
  }

  /** Equal lengths and pairwise strict equality, in both directions. */
  lemma AreDepsEqualMeaning(a: seq<Value>, b: seq<Value>)
    ensures AreDepsEqual(a, b) <==> |a| == |b| && forall j :: 0 <= j < |a| ==> Same(a[j], b[j])
  {
    if |a| == |b| {
      DepsEqualFromMeaning(a, b, 0);
    }
  }

  /** The comparison is reflexive and symmetric. */
  lemma AreDepsEqualReflexiveSymmetric(a: seq<Value>, b: seq<Value>)
    ensures AreDepsEqual(a, a)
    ensures AreDepsEqual(a, b) ==> AreDepsEqual(b, a)
  {
    AreDepsEqualMeaning(a, a);
    AreDepsEqualMeaning(a, b);
    AreDepsEqualMeaning(b, a);
    forall j | 0 <= j < |a| ensures Same(a[j], a[j]) {
      SameIsEquivalence(a[j], a[j], a[j]);
    }
    if |a| == |b| {
      forall j | 0 <= j < |a| ensures Same(a[j], b[j]) ==> Same(b[j], a[j]) {
        SameIsEquivalence(a[j], b[j], a[j]);
      }
    }
  }
}
