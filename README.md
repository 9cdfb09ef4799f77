# Zeroact runtime core in Dafny

This project models the core of Zeroact, a small React-like runtime.

**Rendering.** Function components and host elements are described by element descriptors (`createElement`). A render turns them into a tree of *fibers*. Each fiber is linked to its parent (`return`), its first child, its next sibling and the fiber it replaces (`alternate`). The runtime builds a new tree one *unit of work* at a time, inside an interruptible work loop run by a scheduler task. A finished tree is *committed*:
- deletions first;
- then each placed fiber's node is appended and each updated fiber's node is diffed (`updateDom`);
- the effects of rendered components are queued, and a later task flushes them.

**Hooks.** Components keep per-position state in five sparse hook arrays: state, effect, ref, callback and context. A fiber shares these arrays with its alternate.

**What is modelled.**
- `core/fiber.ts`: the work loop, the commit and the effect flush.
- `core/reconciler.ts`: the unit of work, children reconciliation and the props comparison.
- `hooks/`: the hooks `useState`, `useEffect`, `useRef`, `useCallback` and `useContext`, together with context objects.
- `core/createElement.ts`: building descriptors.
- `dom/createDom.ts` and `dom/updateDom.ts`: creating and diffing nodes.

Module by module:

- **Values**: JavaScript values as the runtime sees them. Objects carry an identity, so `===` compares objects by identity and primitives by value. A props object records its key order (`Object.keys`) and its members.
- **Arena**: the fiber graph as a sequence. Every link is an index. Children and siblings come later in the sequence; parents and alternates come earlier. This order makes every walk terminate: the depth-first walk of `performUnitOfWork`, the `return`-chain searches for a parent node and for a context provider, and the sibling chains.
- **HookSlots**: sparse hook arrays (a hole is `None`) and the dependency-list comparison.
- **State**: the runtime's mutable state is the class `Runtime`. Its fields are the module variables of `core/fiber.ts`, `core/reconciler.ts` and the hook modules, plus the parts of the host the runtime writes:
  - render-target nodes;
  - ref objects;
  - context objects;
  - the scheduler's task queue;
  - an event log.

  Application code (components, effects, cleanups, ref callbacks) is a parameter `Host`. Its calls are logged, and their outcomes (return or throw) come from the host.
- **World**: what the runtime does to the outside world is a list of writes (`Op`). `Exec` carries out a list and stops at the first ref callback that throws. The methods that make the writes are proved to make exactly the writes of a specification function. Three kinds of writes are specified this way: `updateDom`, `commitWork` and `commitDeletion`.
- **Dom** and **CreateDom**: the four `forEach` passes of `updateDom` (loops, proved equal to folds), the ref writes, and node creation.
- **CreateElement**: descriptor construction and the normalisation of children (filter, wrap, flatten).
- **UseState**, **UseEffect**, **UseRef**, **UseCallback**, **UseContext**, **StateSetter**: the hooks. Each is a method on the runtime, with pure functions saying what it stores.
- **Reconcile** and **ReconcileFacts**: `reconcileChildren`. It is a loop proved equal to a step function `ReconcileAt`. Lemmas state that it makes one fiber per element, in order, each an update or a placement, and that it queues exactly the unmatched old fibers for deletion. The method links as the code does: only position 0 sets the parent's `child`. Lemmas state when that agrees with the corrected rule, under which the new fibers form one chain (see Findings).
- **Reconciler**: `performUnitOfWork`, `updateFunctionComponent` and `updateHostComponent`.
- **Commit**: `commitRoot`, `commitWork`, `commitDeletion` (as written, it follows the deleted fiber's later siblings too; see Findings), the effect collection and `flushPendingEffects`.
- **WorkLoop**: `setWorkInProgress`, `startWorkLoop`, `performWork`, the scheduler tasks and `scheduleUpdate`.

## Model

| member | source | states |
|---|---|---|
| Values.NatToString | core/createElement.ts:27 | the decimal form of a number is a non-empty string of digits |
| Values.ChildList | core/reconciler.ts:28-29 | `children.length` throws exactly for undefined and null; an array is iterated as its items; a non-array never yields a descriptor |
| HookSlots.SlotWrite | hooks/useState.ts:32 | writing slot `i` of a sparse array grows it to `i + 1` when needed, sets slot `i`, keeps every other slot and leaves holes in between |
| HookSlots.DepsEqualFromMeaning | hooks/useEffect.ts:59-68 | the comparison loop from index `i` succeeds iff every later pair is strictly equal |
| HookSlots.AreDepsEqualMeaning | hooks/useCallback.ts:42-50 | dependency lists are equal iff they have the same length and are strictly equal position by position (both directions) |
| HookSlots.AreDepsEqualReflexiveSymmetric | hooks/useEffect.ts:59-68 | the dependency comparison is reflexive and symmetric |
| Arena.SameLinksKeepWellLinked | core/fiber.ts:14-25 | changing fibers' payloads without touching links keeps the arena well linked |
| Arena.UpdateKeepsWellLinked | core/reconciler.ts:192-194 | rewriting one fiber's non-link fields (e.g. giving it a node) keeps the arena well linked |
| Arena.NextUp | core/reconciler.ts:149-154 | the `return` walk ends inside the arena (a sibling of the fiber or of an ancestor, or none) |
| Arena.Next | core/reconciler.ts:147-154 | the next unit of work is a fiber of the arena or none |
| Arena.Up | core/reconciler.ts:149-154 | leaving a sibling chain continues from the parent's `NextUp`, inside the arena |
| Arena.Walk | core/fiber.ts:81-88 | any number of units of work stays inside the arena |
| Arena.WalkAdd | core/fiber.ts:81-88 | walking `a + b` steps is walking `a` steps and then `b` (an interrupted loop resumes where it stopped) |
| Arena.PreOrderWalk | core/reconciler.ts:146-154 | the walk from a fiber lists its subtree in pre-order, then leaves it through the nearest sibling on the way up |
| Arena.ForestWalk | core/reconciler.ts:146-154 | the walk from a child lists the subtrees of it and its later siblings in order, then continues from the parent |
| Arena.WalkFromRoot | core/fiber.ts:81-88 | from a root, successive units of work visit exactly the root's tree in pre-order, then the walk ends |
| Arena.Ancestors | hooks/useContext.ts:85-97 | the `return` chain from a fiber stays inside the arena |
| Arena.ProviderValueNearest | hooks/useContext.ts:85-97 | the provider search returns the `value` of the first provider of the context on the ancestor chain, and fails only when there is none |
| Arena.NearestDomFound | core/fiber.ts:134-138 | the search for a parent node always succeeds: every `return` chain ends at a root, which holds its container |
| Arena.Chain | core/reconciler.ts:25-101 | the old-children chain lists fibers in strictly increasing order, starting at the first child |
| Arena.ChainLinks | core/reconciler.ts:99-101 | consecutive entries of a chain are linked by `sibling`, the last has none |
| State.Runtime.constructor | core/fiber.ts:14-25 | a fresh runtime is idle: no tree, no root, nothing scheduled, empty queues |
| State.HookStepKeepsArena | hooks/useState.ts:32-49 | a hook's write to its slot and the counter's increment keep the arena invariant |
| State.AtMostOneContinuation | core/fiber.ts:68-72 | in a well-formed scheduler queue at most one render task is queued |
| State.FlushTaskKeepsQueueOk | core/fiber.ts:118-121 | scheduling the effects flush keeps the queue well formed |
| State.ArenaUpdate | core/reconciler.ts:192-194 | rewriting a fiber's non-link fields with arrays and a node that exist keeps the arena invariant |
| World.Kinds | dom/updateDom.ts:20-172 | the kinds of the nodes, position by position |
| World.PatchedKeepsKind | dom/updateDom.ts:20-172 | updateDom never changes a node's kind |
| World.ExecOp | core/fiber.ts:131-215 | a write keeps the number of nodes and refs and every node's kind; only a ref callback can throw |
| World.Exec | core/fiber.ts:131-215 | a list of writes keeps the number and kinds of nodes and refs |
| World.ExecAppend | core/fiber.ts:131-215 | running `a + b` is running `a`, then `b` unless `a` threw |
| World.ExecNoCalls | core/fiber.ts:192-209 | writes that call no ref callback never stop early |
| World.ExecKeepsQueueBound | core/fiber.ts:161-179 | queued effects keep naming fibers of the arena |
| World.Perform | core/fiber.ts:131-215 | one write on the runtime has exactly the effect `ExecOp` specifies |
| World.PerformAll | core/fiber.ts:131-215 | a list of writes on the runtime has exactly the effect `Exec` specifies, stopping at a throw |
| World.UpdateDomOpsMeaning | dom/updateDom.ts:143-164 | with an unchanged ref, updateDom only patches the node and cannot throw |
| World.UpdateDom | dom/updateDom.ts:20-172 | updateDom on the runtime makes exactly the writes of `UpdateDomOps`: an element is patched before its refs move, a text node after |
| Dom.Lower | dom/updateDom.ts:103-115 | lower-casing keeps the length |
| Dom.EventTypeExamples | dom/updateDom.ts:103-115 | `onClick` is `click`; `onChange` is `input` on input and textarea and `change` elsewhere |
| Dom.ClearMissingStyles | dom/updateDom.ts:62-68 | the old style names missing from the new object are removed, nothing else |
| Dom.AssignStyles | dom/updateDom.ts:69-75 | every name of the new style object is assigned (removed when empty), as `StyleAssigned` |
| Dom.AssignStyleObject | dom/updateDom.ts:59-86 | a style object clears the missing old names, then assigns the new ones |
| Dom.SetPropInPlace | dom/updateDom.ts:53-97 | one attribute write is `SetProp`: className, style, boolean attributes, and other names |
| Dom.RunPass | dom/updateDom.ts:34-137 | each `forEach` pass is the fold of its step over the keys in order |
| Dom.UpdateNode | dom/updateDom.ts:20-172 | an element gets the four passes in source order; a text node gets its `nodeValue` when the new props define one |
| Dom.FoldKeepsKind | dom/updateDom.ts:34-137 | no pass changes the node's kind |
| Dom.FoldKeepsAttr | dom/updateDom.ts:34-98 | a pass leaves an attribute alone unless one of its keys names it |
| Dom.ListenerPassKeepsRest | dom/updateDom.ts:118-137 | the listener passes touch only listeners |
| Dom.AttrPassKeepsListeners | dom/updateDom.ts:34-98 | the attribute passes never touch listeners |
| Dom.NonAttributesUntouched | dom/updateDom.ts:25-27 | `children`, `key` and `on…` names are never written or removed as attributes |
| Dom.FoldIdle | dom/updateDom.ts:34-137 | a pass in which every key is a no-op changes nothing |
| Dom.UpdateDomUnchanged | dom/updateDom.ts:20-172 | when no key was dropped and no value changed, the node is left exactly as it was |
| Dom.UpdateDomSameProps | dom/updateDom.ts:20-172 | diffing a props object against itself changes nothing |
| Dom.RemoveOldRemoves | dom/updateDom.ts:34-45 | the remove pass removes the attribute a dropped key names |
| Dom.UpdateDomRemovesDroppedAttribute | dom/updateDom.ts:34-45 | a dropped attribute prop ends removed (`className` removing `class`), unless a new key names the same attribute |
| Dom.SetNewWrites | dom/updateDom.ts:50-98 | the set pass leaves a changed attribute as `AttrWritten` says |
| Dom.UpdateDomWritesChangedAttribute | dom/updateDom.ts:50-98 | a changed attribute prop ends written: `class` (empty when falsy), a boolean attribute as "" or removed, others removed for null/undefined/false and set to their string form otherwise |
| Dom.UnlistenFold | dom/updateDom.ts:118-126 | the unlisten pass removes exactly the listeners of dropped or changed truthy handlers |
| Dom.ListenFold | dom/updateDom.ts:129-137 | the listen pass adds exactly the listeners of changed truthy handlers |
| Dom.UpdateDomListeners | dom/updateDom.ts:118-137 | an element's listeners end as the old ones minus the dropped or changed, plus the changed new ones, under their event types |
| Dom.UpdateDomTextNode | dom/updateDom.ts:169-171 | a text node keeps everything but its text, which is replaced only when `nodeValue` is defined |
| Dom.RefTarget | dom/updateDom.ts:143-164 | a ref is written at most once, and exactly when it is truthy and a function or a ref object |
| Dom.RefOpsMeaning | dom/updateDom.ts:143-164 | an unchanged ref is not touched; a changed one is detached (given null) before the new one is attached (given the node), and nothing else is written |
| CreateDom.FreshNode | dom/createDom.ts:15-19 | the host makes a text node exactly for TEXT_ELEMENT, with no attributes, styles or listeners |
| CreateDom.RefWrites | dom/createDom.ts:22-30 | one ref write per ref operation, in order |
| CreateDom.CreateDom | dom/createDom.ts:8-36 | the node store grows by the new node, and the writes of `CreateDomOps` are made up to a throw; the result is the new node unless a ref callback threw |
| CreateDom.ElementRefSetTwice | dom/createDom.ts:22-35 | an element's ref object is set to the new node twice (by createDom and by updateDom), and the node ends patched from `{}` |
| CreateDom.TextRefSetOnce | dom/createDom.ts:22-35 | a text node's ref object is set once, by updateDom |
| CreateDom.CreateDomWithoutRef | dom/createDom.ts:8-36 | without a ref, a new node gets exactly the attributes, styles and listeners its props call for, and nothing can throw |
| CreateElement.CreateTextNode | core/createElement.ts:4-11 | a TEXT_ELEMENT descriptor holding `String(v)`, with an empty children array |
| CreateElement.DropNulls | core/createElement.ts:24 | no null or undefined child survives the filter |
| CreateElement.WrapAll | core/createElement.ts:25-29 | each child is wrapped in place, the k-th text descriptor getting the k-th new id |
| CreateElement.Flatten | core/createElement.ts:30 | the flattened list contains no array |
| CreateElement.CreateElement | core/createElement.ts:14-32 | the descriptor has the given type |
| CreateElement.CreateElementProps | core/createElement.ts:21-30 | every given prop is kept, and the computed `children` overrides a given one |
| CreateElement.DropNullsKeeps | core/createElement.ts:24 | a list without null or undefined passes the filter unchanged |
| CreateElement.FlattenAppend | core/createElement.ts:30 | flattening distributes over concatenation |
| CreateElement.FlattenFlat | core/createElement.ts:30 | a list without arrays is unchanged by flattening, so order is preserved |
| CreateElement.FlattenIdempotent | core/createElement.ts:30 | flattening twice is flattening once |
| CreateElement.NormaliseFlatChildren | core/createElement.ts:23-30 | without arrays among the children, nulls are dropped, the rest keep their order, strings and numbers become text descriptors and other children stay as they are |
| CreateElement.DropNullsNoArrays | core/createElement.ts:24 | filtering introduces no array |
| CreateElement.NestedArrayPassesThrough | core/createElement.ts:23-30 | a nested array is flattened after filtering and wrapping, so its contents pass through unfiltered and unwrapped |
| CreateElement.NestedExample | core/createElement.ts:23-30 | a nested null, string and number survive as they are |
| UseState.PrepareHooksForFiber | hooks/useState.ts:7-10 | the fiber becomes the hooks' fiber and its counter restarts at 0 |
| UseState.UseState | hooks/useState.ts:15-52 | outside a render it throws and changes nothing; inside, the state (the alternate's slot, or `initial`) is written to the fiber's slot, the counter moves on and the result is `[state, setter]` |
| UseState.RenderAgainKeepsState | hooks/useState.ts:22-32 | re-rendering returns the stored state and writes the array back unchanged |
| UseState.StateFallsBackToInitial | hooks/useState.ts:25-26 | a first render or an empty slot yields `initial` |
| UseEffect.EffectFor | hooks/useEffect.ts:40-49 | the stored hook holds the new effect and dependencies |
| UseEffect.UseEffect | hooks/useEffect.ts:20-54 | outside a render it throws and changes nothing; inside, the hook of `EffectFor` is stored at the slot and the counter moves on |
| UseEffect.IsDirtyMeaning | hooks/useEffect.ts:40-42 | an effect is dirty iff there is no previous hook, either dependency list is missing, or the lists differ (both directions) |
| UseEffect.SameDepsStayClean | hooks/useEffect.ts:40-49 | equal dependencies give a clean hook that keeps the previous cleanup |
| UseEffect.Cleanups | hooks/useEffect.ts:73-85 | at most one cleanup per slot, each truthy |
| UseEffect.CleanupsMeaning | hooks/useEffect.ts:73-85 | exactly the truthy cleanups of present hooks are called |
| UseEffect.Invocations | hooks/useEffect.ts:73-85 | one logged call per cleanup, in order |
| UseEffect.CleanupEffects | hooks/useEffect.ts:73-85 | the fiber's cleanups are called in array order, a throw not stopping the others |
| UseEffect.CallCleanups | hooks/useEffect.ts:76-84 | the loop logs one call per cleanup, in order |
| UseRef.UseRef | hooks/useRef.ts:15-39 | outside a render it throws; inside, the alternate's ref at the slot is reused, or a new ref holding `initial` is made, and it is stored at the slot |
| UseRef.RefStable | hooks/useRef.ts:28-36 | once a slot holds a ref, every later render returns that ref and leaves the array as it was |
| UseRef.FirstRenderMakesRef | hooks/useRef.ts:28-32 | a first render or an empty slot makes a new ref |
| UseCallback.CallbackFor | hooks/useCallback.ts:19-30 | the stored hook holds the new dependency list |
| UseCallback.UseCallback | hooks/useCallback.ts:9-40 | outside a render it throws; inside, the hook of `CallbackFor` is stored at the slot and its callback returned |
| UseCallback.CallbackForMeaning | hooks/useCallback.ts:19-30 | the old callback is returned exactly when both dependency lists exist and are equal position by position; otherwise the new one is |
| UseCallback.AreDepsEqualTransitive | hooks/useCallback.ts:42-50 | the dependency comparison is transitive |
| UseCallback.RepeatedRendersKeepCallback | hooks/useCallback.ts:19-37 | across any number of renders with equal dependencies, the first stored callback is returned |
| UseContext.CreateContext | hooks/useContext.ts:9-12 | a new context whose current and default values are both the default |
| UseContext.ContextValueNearest | hooks/useContext.ts:85-97 | the value is the nearest strict ancestor provider's, or the default when there is none |
| UseContext.ContextValueIgnoresCurrent | hooks/useContext.ts:85-97 | the lookup never reads a context's current value |
| UseContext.UseContext | hooks/useContext.ts:58-83 | outside a render it throws; inside, the found value is stored in a context hook at the slot and returned |
| UseContext.Provider | hooks/useContext.ts:13-26 | the Provider makes `value` current and returns a CONTEXT_PROVIDER descriptor whose props carry children, context, value and the previous current value |
| UseContext.RestoreHook | hooks/useContext.ts:106-116 | the provider's effect hook is dirty, has no cleanup, depends on `[value]` and restores `prevValue` |
| UseContext.HandleContextProvider | hooks/useContext.ts:99-118 | other fibers are untouched; a provider sets its context's current value and pushes its restore hook; it throws when `context` cannot take a member |
| UseContext.ConsumerFn | hooks/useContext.ts:27-31 | the corrected Consumer calls `children` itself unless it is an array |
| UseContext.ConsumerResult | hooks/useContext.ts:33-52 | a descriptor is returned as is, an array as a FRAGMENT, anything else as a TEXT_NODE holding its string form |
| UseContext.Consume | hooks/useContext.ts:27-53 | a non-function throws and logs nothing; a function is called once with the current value and its result shaped by `ConsumerResult` |
| UseContext.ConsumerAsWritten | hooks/useContext.ts:27-31 | as written, the Consumer calls `props.children` and throws unless it is a function |
| UseContext.Consumer | hooks/useContext.ts:27-53 | the corrected Consumer calls its single function child with the current value |
| UseContext.ConsumerAsWrittenRejectsElements | hooks/useContext.ts:28-30 | on every Consumer descriptor createElement makes, `children` is an array, so the Consumer as written throws |
| UseContext.ConsumerCallsFunctionChild | hooks/useContext.ts:27-31 | the corrected Consumer calls the function written as the only child |
| StateSetter.Prev | hooks/useState.ts:39 | reading the slot yields its value, or undefined for a hole |
| StateSetter.NextState | hooks/useState.ts:40-41 | a non-function action is the next state; a function is called on the previous state, and its throw is `None` |
| StateSetter.ApplyAction | hooks/useState.ts:40-41 | the next state is `NextState`, and exactly the call of a function action is logged |
| StateSetter.StoreState | hooks/useState.ts:44 | the lineage's arrays are replaced, keeping the runtime idle |
| StateSetter.StoreAndSchedule | hooks/useState.ts:43-46 | a changed state is stored, then scheduleUpdate starts a render exactly when `UpdateTarget` gives one |
| StateSetter.SetState | hooks/useState.ts:38-47 | a throwing action stores nothing; an unchanged state (`===`) stores and schedules nothing; a changed state is written to the slot and a re-render is scheduled |
| StateSetter.SetThenRender | hooks/useState.ts:22-44 | the next render reads the stored state back, except that null and undefined read as `initial` |
| StateSetter.SetSameTwiceStoresOnce | hooks/useState.ts:39-44 | the setter reads back what it stored, so a second call with the same value is a no-op |
| Reconcile.SomeKeyDiffersMeaning | core/reconciler.ts:128-131 | some key differs iff one of the keys reads a different value |
| Reconcile.HasPropsChangedMeaning | core/reconciler.ts:118-132 | props changed iff they are another object and either the key counts differ or some old key reads a different value |
| Reconcile.RenamedUndefinedGoesUnnoticed | core/reconciler.ts:123-131 | a key renamed while holding undefined goes unnoticed |
| Reconcile.Grow | core/reconciler.ts:41-97 | an iteration appends one fiber exactly when the entry is an element |
| Reconcile.Step | core/reconciler.ts:28-112 | one iteration appends a fiber exactly for an element, which becomes the previous sibling |
| Reconcile.OldChildren | core/reconciler.ts:25 | the old children are arena fibers in increasing order |
| Reconcile.AppendKeepsArena | core/reconciler.ts:41-91 | appending an unlinked new fiber under an existing parent keeps the arena invariant |
| Reconcile.SetChildKeepsArena | core/reconciler.ts:103-104 | setting the parent's `child` to a later fiber of its own keeps the arena invariant |
| Reconcile.SetSiblingKeepsArena | core/reconciler.ts:105-106 | linking a later fiber of the same parent as `sibling` keeps the arena invariant |
| Reconcile.GrowFacts | core/reconciler.ts:41-97 | an iteration's first half, field by field: the new fiber, the old fiber's tag, the deletion queue |
| Reconcile.LinkStable | core/reconciler.ts:103-111 | linking changes only the parent's `child` and the previous sibling's `sibling` |
| Reconcile.GrowKeepsArena | core/reconciler.ts:41-97 | an iteration's first half keeps the arena invariant |
| Reconcile.StepKeepsReady | core/reconciler.ts:28-112 | an iteration keeps the loop invariant |
| Reconcile.ReconcileKeepsArena | core/reconciler.ts:20-114 | the whole loop keeps the arena invariant |
| Reconcile.StepStable | core/reconciler.ts:28-112 | an iteration changes only the old fiber's tag and the two links, and keeps every hook array |
| Reconcile.GrowFiber | core/reconciler.ts:41-97 | the in-place first half is `Grow`, returning the new fiber's id exactly for an element |
| Reconcile.LinkFiber | core/reconciler.ts:103-111 | the in-place second half is `Link` under the rule as written: position 0 sets the parent's `child`, a later fiber is linked only to a previous fiber |
| Reconcile.ReconcileChildren | core/reconciler.ts:20-114 | reconcileChildren keeps the runtime invariant and has exactly the effect of `ReconcileAt` under the linking rule as written |
| Reconcile.ReconcileLoop | core/reconciler.ts:28-113 | the loop has exactly the effect of `ReconcileAt` under the linking rule as written |
| Reconcile.Iterate | core/reconciler.ts:29-112 | one pass of the loop body is one as-written `Step` of `ReconcileAt`, and the old fiber moves to its sibling |
| Reconcile.ReconcileUnfold | core/reconciler.ts:28-113 | the loop is one step followed by the loop from the next position |
| Reconcile.ReconcileStable | core/reconciler.ts:20-114 | the loop keeps every existing fiber's payload and parent, and only adds fibers |
| Reconcile.ReconcileKeeps | core/reconciler.ts:20-114 | the loop keeps existing fibers' payloads, parents and hook arrays |
| Reconcile.ReconcileKeepsLinks | core/reconciler.ts:20-114 | the loop retags only the old children and relinks only the parent and previous siblings |
| Reconcile.OldChildrenLinks | core/reconciler.ts:99-101 | the old children are linked by `sibling`, the last to none |
| ReconcileFacts.Made | core/reconciler.ts:28-112 | the elements that make a fiber, from position `i` on |
| ReconcileFacts.MadeAfter | core/reconciler.ts:28-112 | later positions make no more fibers |
| ReconcileFacts.MadeForKept | core/reconciler.ts:41-91 | what a new fiber is depends only on old-fiber fields the loop keeps |
| ReconcileFacts.StepMakes | core/reconciler.ts:41-91 | one step appends the fiber made for its element: an update keeping node and hooks when the types and keys match, a placement otherwise |
| ReconcileFacts.MadeForLater | core/reconciler.ts:41-91 | a made fiber stays as made while later steps run |
| ReconcileFacts.StepKeeps | core/reconciler.ts:28-112 | a step keeps what an existing fiber holds |
| ReconcileFacts.RestKeeps | core/reconciler.ts:28-112 | the rest of the loop keeps a fiber's payload, its tag unless it is an old child, and its hook arrays |
| ReconcileFacts.MakesHead | core/reconciler.ts:41-91 | the fiber for position `i` is the first appended, and stays as made |
| ReconcileFacts.ReconcileMakes | core/reconciler.ts:20-114 | one fiber per element, in order; each is the update or placement made for its element and the old fiber at its position |
| ReconcileFacts.MakesStep | core/reconciler.ts:28-112 | the per-position facts are carried back over one step |
| ReconcileFacts.DeletedKept | core/reconciler.ts:93-97 | which old fibers are unmatched depends only on kept fields |
| ReconcileFacts.StepDeletes | core/reconciler.ts:93-97 | an old fiber is tagged DELETION and queued exactly when it is unmatched |
| ReconcileFacts.StepKeepsOlds | core/reconciler.ts:28-112 | a step keeps what every old fiber holds |
| ReconcileFacts.QueueStep | core/reconciler.ts:93-97 | what one step queues, then what the rest queues, is what the loop queues |
| ReconcileFacts.QueueStepOld | core/reconciler.ts:93-97 | at a position with an old fiber, the step queues it exactly when unmatched |
| ReconcileFacts.QueueStepNew | core/reconciler.ts:93-97 | past the old fibers, nothing is queued |
| ReconcileFacts.ReconcileQueues | core/reconciler.ts:93-97 | the loop queues exactly the unmatched old fibers, in chain order |
| ReconcileFacts.RetagStep | core/reconciler.ts:93-97 | a step leaves later old fibers' tags and matches alone |
| ReconcileFacts.RetagHead | core/reconciler.ts:93-97 | the step at an old fiber's position settles its tag |
| ReconcileFacts.ReconcileRetags | core/reconciler.ts:93-97 | each unmatched old fiber is tagged DELETION; a matched one keeps its tag |
| ReconcileFacts.ReconcileCount | core/reconciler.ts:20-114 | the loop appends exactly one fiber per element |
| ReconcileFacts.RestKeepsSibling | core/reconciler.ts:103-111 | later steps never relink a fiber other than the last made |
| ReconcileFacts.LinkStepFacts | core/reconciler.ts:103-111 | how one step links under the corrected rule |
| ReconcileFacts.ReconcileLinks | core/reconciler.ts:103-111 | under the corrected rule the new fibers form one sibling chain in order, hanging from the parent's `child` (empty when none is made) |
| ReconcileFacts.LinksElement | core/reconciler.ts:103-111 | a position holding an element heads the chain |
| ReconcileFacts.ElementLinked | core/reconciler.ts:103-111 | the new fiber heads the chain the rest links after it |
| ReconcileFacts.ChainHead | core/reconciler.ts:105-106 | a fiber linked to a chain of `m` heads a chain of `m + 1` |
| ReconcileFacts.LinksSkipAfter | core/reconciler.ts:103-111 | a non-element after a made fiber links nothing |
| ReconcileFacts.LinksSkipFirst | core/reconciler.ts:103-111 | a non-element before any made fiber defers the parent's `child` |
| ReconcileFacts.LinksSkipLast | core/reconciler.ts:103-104 | when no fiber is made, the parent ends with no child |
| ReconcileFacts.ChainOfRun | core/reconciler.ts:105-106 | consecutive fibers linked in a run are the chain from the first |
| ReconcileFacts.ChildrenInOrder | core/reconciler.ts:20-114 | after reconciliation the parent's children are exactly the fibers made, in element order, and the arena invariant holds |
| ReconcileFacts.LinkAsWrittenDropsLaterChildren | core/reconciler.ts:103-107 | as written, `[false, <p/>]` leaves the parent with no child although a fiber was made for `<p/>`; the corrected rule links it |
| ReconcileFacts.RulesAgreeAfterElement | core/reconciler.ts:103-107 | once a fiber has been made, or position 0 holds an element, the rule as written links exactly as the corrected one |
| ReconcileFacts.RulesAgreeWithoutElements | core/reconciler.ts:103-107 | with no element left and the parent still childless, the two rules link alike |
| ReconcileFacts.AsWrittenKeepsChild | core/reconciler.ts:103-107 | as written, no position after the first touches the parent's `child` |
| ReconcileFacts.LinkAsWrittenMeaning | core/reconciler.ts:103-111 | for all children: as written, reconciliation equals the corrected one when the children hold no element or start with one; when position 0 holds a non-element, the parent ends with no child |
| ReconcileFacts.MadeAll | core/reconciler.ts:28-112 | when every entry is an element, every position makes a fiber |
| ReconcileFacts.NoneDeleted | core/reconciler.ts:93-97 | when every old fiber matches, nothing is deleted |
| ReconcileFacts.MadeAt | core/reconciler.ts:41-91 | with every entry an element, position `j` makes the `j`-th new fiber |
| ReconcileFacts.RerenderSameShape | core/reconciler.ts:41-67 | re-rendering the same shape with the same props objects deletes nothing and makes SKIP updates that keep their nodes |
| ReconcileFacts.SameShapeAll | core/reconciler.ts:41-67 | every position of such a re-render is a SKIP update |
| ReconcileFacts.SameShapeAt | core/reconciler.ts:41-67 | an update whose props object is the old one is tagged SKIP and keeps its node |
| Reconciler.WithDom | core/reconciler.ts:192-194 | giving a fiber a node keeps the arena well linked and sets its `dom` |
| Reconciler.UpdateHostComponent | core/reconciler.ts:191-196 | a fiber without a node gets one from createDom; then `children` is reconciled under the linking rule as written; a createDom throw or children undefined/null is a throw |
| Reconciler.AttachDom | core/reconciler.ts:192-194 | a fiber with a node changes nothing; otherwise createDom's writes are made, and the node is kept unless it threw |
| Reconciler.Lineage | core/reconciler.ts:161-166 | the fiber's arrays are present after the lineage step |
| Reconciler.LineageSharesArrays | core/reconciler.ts:161-166 | a fiber with an alternate holds the alternate's very arrays; without one it gets empty arrays; the counter restarts |
| Reconciler.ApplyLineage | core/reconciler.ts:161-166 | the runtime's arrays are those of `Lineage` |
| Reconciler.RunHooks | core/reconciler.ts:181-182 | each hook call moves the counter on by one and touches only the fiber's own arrays |
| Reconciler.Render | core/reconciler.ts:182 | a component runs its hooks; a Provider makes its value current and returns its descriptor; a Consumer calls `props.children` with the current value, and throws when it is not a function |
| Reconciler.ProvideChildren | core/reconciler.ts:168-172 | a provider's value becomes current, its restore hook is pushed and its children reconciled under the linking rule as written; a bad `context` or children is a throw |
| Reconciler.RenderComponent | core/reconciler.ts:174-186 | an element result is reconciled as the only child, a non-element leaves no child, a throw is caught leaving the children as they were |
| Reconciler.UpdateFunctionComponent | core/reconciler.ts:159-187 | the lineage step, then the provider or the component branch, each reconciling under the linking rule as written; only the provider branch can throw |
| Reconciler.SingleChild | core/reconciler.ts:182-183 | reconciling `[v]` as written links the one new fiber as the only child, or none for a non-element |
| Reconciler.NextSiblingUp | core/reconciler.ts:149-154 | the `return` loop returns `NextUp` |
| Reconciler.NextFiber | core/reconciler.ts:147-154 | the first child, else `NextUp` |
| Reconciler.UpdateFiber | core/reconciler.ts:137-144 | components and providers touch no nodes; host fibers touch no hook state or contexts |
| Reconciler.PerformUnitOfWork | core/reconciler.ts:136-155 | the fiber is rendered and the next fiber of the depth-first walk over the new tree is returned |
| Commit.EffectOpsQueues | core/fiber.ts:161-179 | the collection queues effect `j` iff it is due: present, dirty and a function |
| Commit.SlotQueues | core/fiber.ts:168-177 | one slot queues its effect iff dirty with a function effect |
| Commit.SlotCleanups | core/fiber.ts:168-174 | one slot queues its cleanup iff dirty with a function cleanup |
| Commit.QueuedCleanupIsDue | core/fiber.ts:168-174 | a queued cleanup belongs to a dirty hook |
| Commit.DueCleanupIsQueued | core/fiber.ts:168-174 | the function cleanup of a dirty hook is queued |
| Commit.EffectOpsCleanups | core/fiber.ts:161-179 | exactly the function cleanups of dirty hooks are queued |
| Commit.EffectOpsOnlyQueue | core/fiber.ts:161-179 | the collection writes only the two queues, and only its own fiber's effects |
| Commit.ExecSlot | core/fiber.ts:168-177 | a slot's writes push the cleanup, then the effect, onto the queues |
| Commit.RemovedAppend | core/fiber.ts:187-215 | the nodes removed by `a + b` are those of `a` and of `b` |
| Commit.DomsOfAppend | core/fiber.ts:187-215 | the nodes held by two fiber lists are the union |
| Commit.DetachesOrRemovesAppend | core/fiber.ts:187-215 | detach-or-remove writes compose |
| Commit.DeletionShape | core/fiber.ts:187-215 | a deletion only detaches refs and removes nodes from the parent node given |
| Commit.RefWritesRemoveNothing | core/fiber.ts:192-199 | ref writes remove no node |
| Commit.DeletionUnfold | core/fiber.ts:187-215 | a deletion is: the ref detached, the node (or else the children), then the siblings when asked |
| Commit.DeletionStaysInside | core/fiber.ts:187-215 | the corrected deletion removes only nodes of the fiber's subtree |
| Commit.DeletionRemovesOwnNode | core/fiber.ts:201-204 | a deleted fiber's own node is removed |
| Commit.DeletionReachesKeptSibling | core/fiber.ts:211-214 | as written, deleting `div` from `[div, span]` re-rendered as `[p, span]` also removes the kept span's node |
| Commit.DeletionAsWrittenReachesSiblings | core/fiber.ts:187-215 | for every fiber, commitDeletion as written removes the node of the fiber and of every later sibling holding one, and only nodes of their subtrees |
| Commit.CleanupOps | core/fiber.ts:155 | one caught cleanup call per cleanup |
| Commit.CleanupOpsLog | core/fiber.ts:155 | the cleanup calls log one call each and never stop the commit |
| Commit.QueuesDueAppend | core/fiber.ts:131-183 | queue facts compose |
| Commit.UpdateDomOpsQueueNothing | core/fiber.ts:148-153 | updateDom queues no effect |
| Commit.CollectQueuesDue | core/fiber.ts:161-179 | the collection queues only the fiber's own due effects |
| Commit.CommitQueuesDue | core/fiber.ts:131-183 | every effect a commit queues names a fiber of the arena and a dirty hook with a function effect |
| Commit.RestQueuesDue | core/fiber.ts:181-182 | likewise for the child and sibling commits |
| Commit.FindDomParent | core/fiber.ts:134-138 | the search returns the node of the nearest ancestor holding one |
| Commit.QueueSlot | core/fiber.ts:168-177 | one pass of the collection loop makes exactly its slot's writes |
| Commit.CollectEffects | core/fiber.ts:161-179 | the collection makes exactly the writes of `CollectOps`, and cannot throw |
| Commit.CommitDeletion | core/fiber.ts:187-215 | commitDeletion makes exactly the writes of the as-written deletion (the fiber, then its later siblings), up to a throw |
| Commit.DeletionThen | core/fiber.ts:187-215 | a deletion's writes run in three stages |
| Commit.WriteNode | core/fiber.ts:146-153 | a placed fiber's node is appended, an updated one's diffed against the alternate's props (`{}` without one) |
| Commit.DeleteFiber | core/fiber.ts:154-158 | a deleted fiber's cleanups run, then its subtree and its later siblings' subtrees are deleted, as commitDeletion does |
| Commit.CommitWork | core/fiber.ts:131-183 | commitWork makes exactly the writes of `CommitPlan` (deletions as written), in order, up to the first throw |
| Commit.CommitOwn | core/fiber.ts:146-183 | a non-SKIP, non-deleted fiber: its node write, its effects, then its child and sibling |
| Commit.OwnThenRest | core/fiber.ts:146-183 | the fiber's own writes, then the rest unless they threw |
| Commit.WriteAndCollect | core/fiber.ts:146-179 | the node write, then the effect collection |
| Commit.CommitRest | core/fiber.ts:181-182 | the child's commit, then the sibling's |
| Commit.CommitDeletions | core/fiber.ts:116 | each queued deletion is committed in order, by the as-written deletion |
| Commit.CommitRoot | core/fiber.ts:114-127 | deletions (as written, reaching later siblings), then the tree; when the root has a child a flush is scheduled; the root becomes current and the deletion list empties; a throw skips the bookkeeping |
| Commit.SwapRoots | core/fiber.ts:123-126 | the committed root becomes current and the deletion list is emptied |
| Commit.CommitWrites | core/fiber.ts:116-119 | the deletions' writes (as written, reaching later siblings), then the tree's |
| Commit.RunEffect | core/fiber.ts:228-242 | running one pending effect changes no lineage's existence |
| Commit.RunEffects | core/fiber.ts:228-242 | running the pending effects keeps the lineages |
| Commit.RunEffectsKeepCallable | core/fiber.ts:228-242 | effects only ever store a function or undefined as a cleanup |
| Commit.RunEffectKeepsCallable | core/fiber.ts:233-241 | one effect keeps every cleanup callable |
| Commit.FlushPendingEffects | core/fiber.ts:219-246 | every queued cleanup is called, then every pending effect run as `RunEffects`; both queues end empty |
| Commit.CallEach | core/fiber.ts:220-226 | each queued cleanup is called in order, a throw caught |
| Commit.RunAll | core/fiber.ts:228-242 | the effect loop is `RunEffects` |
| Commit.RunOne | core/fiber.ts:229-241 | one pass is `RunEffect` |
| WorkLoop.Cancel | core/fiber.ts:69 | cancelling removes exactly the task with that id and keeps the queue ordered |
| WorkLoop.StartWorkLoop | core/fiber.ts:68-72 | a scheduled render is cancelled and a new one queued, so at most one is ever queued |
| WorkLoop.RootFiber | core/fiber.ts:36-49 | the root has no parent, child or sibling and holds its container |
| WorkLoop.RootRendersItsElement | core/fiber.ts:36-49 | the element a root was rendered from is the one its re-render renders again |
| WorkLoop.NewRoot | core/fiber.ts:36-51 | a new root whose alternate is the current root becomes the work in progress and first unit; deletions are cleared |
| WorkLoop.SetWorkInProgress | core/fiber.ts:30-53 | ignored while the loop runs; otherwise a new root is started and the render (re)scheduled |
| WorkLoop.WorkUnits | core/fiber.ts:81-88 | units of work run while work is left and the scheduler does not ask to yield; stopped work means it asked |
| WorkLoop.ScheduleContinuation | core/fiber.ts:97-100 | unfinished work schedules the render again |
| WorkLoop.StopLoop | core/fiber.ts:103-104 | the flags are cleared |
| WorkLoop.FinishWork | core/fiber.ts:89-104 | a finished render is committed with the writes of `RootPlan` (deletions as written), unfinished work rescheduled, otherwise the loop stops |
| WorkLoop.CommitAndStop | core/fiber.ts:91-109 | commitRoot's writes (`RootPlan`, deletions as written) are made and the loop stops even when the commit throws; a thrown commit leaves the root uncommitted |
| WorkLoop.PerformWork | core/fiber.ts:76-110 | afterwards the loop is running exactly when work is left, and exactly then a render is scheduled; a completed render is committed |
| WorkLoop.Dequeue | core/fiber.ts:68-72 | the scheduler takes the first task; a render task was the scheduled one |
| WorkLoop.RunTask | core/fiber.ts:76-110 | after either task the runtime is idle; the effects task empties both queues and leaves the fibers |
| WorkLoop.UpdateTarget | core/fiber.ts:57-64 | a re-render happens exactly when not rendering, not running, there is a current root and its element is truthy; it renders that element into the root's container |
| WorkLoop.ScheduleUpdate | core/fiber.ts:57-64 | no target changes nothing; otherwise the render of `UpdateTarget` is started |

## Left out

- The scheduler package is its queue. Every callback the runtime schedules has the same priority, so the queue runs first in, first out; `cancelCallback` removes the task. Time slicing and priorities are not modelled.
- `shouldYield()` is a list of answers handed to each run of the work loop (yes once the list runs out). The clock is not modelled.
- Component functions, effects, cleanups, ref callbacks and Consumer functions are application code. They appear as the parameter `Host`: a component is the sequence of hook calls it makes plus a function from their results to its outcome; any other call's outcome comes from the host. Application code never calls back into the runtime while it runs. In particular, a setter called during a render is not modelled.
- `isRendering` is declared and cleared but never set to true, so the model keeps it false.
- The real DOM is an abstract node store with kind, attributes, styles, listeners and text. Appends and removals are logged rather than applied to a node tree. The svg namespace is not modelled, and `removeChild` failures (caught and logged) are not modelled.
- `console` output and every `console.error`/`console.warn` are left out.
- Floating-point numbers are integers, and `Object.is` on NaN and ±0 is not distinguished from `===`.
- The `String()` of functions and non-array objects is opaque: only its existence matters.
- `style.cssText` is kept as a single entry and not parsed into declarations.
- WorkLoop.RootElement: the root's `props.children` is assumed to be an array, as setWorkInProgress always makes it.
- A commit that throws (a ref callback) leaves `wipRoot` uncommitted, with no task scheduled. The outer handler stops the loop, as the code does. A unit of work that throws ends the loop's inner part, and the partial tree is committed.
- UseContext.Consumer: the corrected Consumer, which calls a single function child (see Findings). The runtime's `Render` calls `ConsumerAsWritten`, as the code does.
- A component's hook calls and their arguments are fixed by its function and props before any hook returns. A hook argument computed from an earlier hook's result (an effect's deps holding a state value, say) cannot be written. So a re-render after `setState`, which renders the same props, never makes a state-dependent effect dirty in the model; effects become dirty only through changed props.
- Dom.SetPropInPlace: only a plain object (`Obj`) is a style object. The code's test is `typeof value === "object"`, which also admits arrays, ref objects, context objects and nodes; in the model those clear the style instead of assigning their keys. `SetProp` and `OldStyleNames` narrow the style test the same way.
- Dom.RefTarget: only ref objects made by `useRef` are assigned. The code also assigns `current` on any other object holding a `current` key (`ref={{current: null}}`); the model writes nothing there.
- Dom.Lower: ASCII lowering only. JavaScript's `toLowerCase` is full Unicode and can change the length (`"İ"` becomes two code units); `|r| == |s|` holds only for the model.
- WorkLoop.RunTask: for a render task, states only that the runtime is idle again. What the render does is the contract of `WorkLoop.PerformWork`.
- Reconciler.UpdateFiber: states only which parts of the runtime each branch leaves alone. What each branch does is the contract of `UpdateFunctionComponent` and `UpdateHostComponent`.
- Reconciler.RunHooks: states only the counter and the frame of the hook calls. What each hook stores is the contract of the hook's own method.
- Commit.RunEffect: states only that the set of lineages is kept. What it stores is proved about the cleanups by `RunEffectsKeepCallable`.
- StateSetter.SetState: while the work loop runs, the state is stored but no render is scheduled (scheduleUpdate ignores the call), as in the code.
- A provider's restore effect is pushed onto the provider fiber's effect array. commitWork collects effects only from function-typed fibers, and the provider fiber's type is the string CONTEXT_PROVIDER, so the restore effect is never queued. The model follows the code.
- UseState.UseState: `setState(null)` and `setState(undefined)` read back as the initial state on the next render (`??`), as in the code.

## Findings

| source | as written | input that shows it | evidently intended | confidence | as-written member | corrected member |
|---|---|---|---|---|---|---|
| core/fiber.ts:211-214 | commitDeletion also recurses into the deleted fiber's own `sibling` | old children `[div, span]` re-rendered as `[p, span]`: deleting the div also removes the span's node, which the updated span fiber still holds | only the deleted fiber's subtree is removed (siblings followed only below it) | not executed | Commit.DeletionAsWrittenReachesSiblings | Commit.DeletionStaysInside |
| hooks/useContext.ts:28-30 | the Consumer throws unless `props.children` is a function | `createElement(Ctx.Consumer, null, fn)`: createElement always makes `children` an array `[fn]` | the Consumer calls its single function child | not executed | UseContext.ConsumerAsWrittenRejectsElements | UseContext.ConsumerCallsFunctionChild |
| core/reconciler.ts:103-107 | `wipFiber.child` is set only at index 0; later fibers need a previous sibling | children `[false, <p/>]` (from `{cond && <A/>}<p/>`): the fiber made for `<p/>` is never linked and the parent has no child | the first fiber made becomes `child`, whatever its index | not executed | ReconcileFacts.LinkAsWrittenMeaning | ReconcileFacts.ChildrenInOrder |
