/**
 * The fiber graph as an arena.
 *
 * Fibers are JavaScript objects linked by `return`, `child`, `sibling` and
 * `alternate` references.  Here every fiber is an entry of a sequence and
 * every link an index.  Fibers are only ever linked to fibers created later
 * (`child`, `sibling`) or earlier (`return`, `alternate`), which orders the
 * links by index and makes every walk over them terminate.
 */
module Arena {
  import opened Values

  type FiberId = nat

  /** `effectTag`; `NoTag` is the root's missing tag. */
  datatype EffectTag = NoTag | Placement | Update | Skip | Deletion

  /**
   * One fiber.  `hooks` names the five hook arrays the fiber holds: the arrays
   * are shared by reference between a fiber and its alternate, so they are
   * kept once, under the id of the fiber that created them.
   */
  datatype Fiber = Fiber(
    ftype: ElemType,
    props: Props,
    dom: Option<DomId>,
    parent: Option<FiberId>,
    child: Option<FiberId>,
    sibling: Option<FiberId>,
    alternate: Option<FiberId>,
    tag: EffectTag,
    hooks: FiberId,
    hookIndex: nat)

  /**
   * The links of fiber `i` point into the arena in creation order, a child's
   * `return` is its parent, siblings share their parent, and a fiber without
   * a parent (a root) has a node.
   */
  ghost predicate LinksOk(fs: seq<Fiber>, i: nat)
    requires i < |fs|
  {
    var f := fs[i];
    && (f.parent.Some? ==> f.parent.value < i)
    && (f.parent.None? ==> f.dom.Some?)
    && (f.alternate.Some? ==> f.alternate.value < i)
    && (f.child.Some? ==> i < f.child.value < |fs| && fs[f.child.value].parent == Some(i))
    && (f.sibling.Some? ==> i < f.sibling.value < |fs| && fs[f.sibling.value].parent == f.parent)
    && f.hooks <= i
  }

  ghost predicate WellLinked(fs: seq<Fiber>) {
    forall i | 0 <= i < |fs| :: LinksOk(fs, i)
  }

  predicate InArena(fs: seq<Fiber>, x: Option<FiberId>) {
    x.Some? ==> x.value < |fs|
  }

  /** The same links, everything else free to differ. */
  predicate SameLinks(f: Fiber, g: Fiber) {
    f.parent == g.parent && f.child == g.child && f.sibling == g.sibling
    && f.alternate == g.alternate && (f.dom.Some? ==> g.dom.Some?)
  }

  /** Changing fields other than the links keeps the arena well linked. */
  lemma SameLinksKeepWellLinked(fs: seq<Fiber>, gs: seq<Fiber>)
    requires WellLinked(fs) && |fs| == |gs|
    requires forall i :: 0 <= i < |fs| ==> SameLinks(fs[i], gs[i]) && gs[i].hooks <= i
    ensures WellLinked(gs)
  {
    forall i | 0 <= i < |gs| ensures LinksOk(gs, i) {
      assert LinksOk(fs, i);
      if gs[i].child.Some? {
        assert LinksOk(fs, i);
        assert SameLinks(fs[gs[i].child.value], gs[gs[i].child.value]);
      }
      if gs[i].sibling.Some? {
        assert SameLinks(fs[gs[i].sibling.value], gs[gs[i].sibling.value]);
      }
    }
  }

  /** Rewriting one fiber's non-link fields keeps the arena well linked. */
  lemma UpdateKeepsWellLinked(fs: seq<Fiber>, i: nat, g: Fiber)
    requires WellLinked(fs) && i < |fs| && SameLinks(fs[i], g) && g.hooks <= i
    ensures WellLinked(fs[i := g])
  {
    forall j | 0 <= j < |fs| ensures SameLinks(fs[j], fs[i := g][j]) && fs[i := g][j].hooks <= j {
      assert LinksOk(fs, j);
    }
    SameLinksKeepWellLinked(fs, fs[i := g]);
  }

  // ---------------------------------------------------------------------
  // The depth-first walk of performUnitOfWork
  // ---------------------------------------------------------------------

  /** The nearest `sibling` of `x` or of an ancestor of `x`, reached through `return`. */
  function NextUp(fs: seq<Fiber>, x: FiberId): (r: Option<FiberId>)
    requires WellLinked(fs) && x < |fs|
    ensures InArena(fs, r)
    decreases x
  {
    assert LinksOk(fs, x);
    if fs[x].sibling.Some? then fs[x].sibling
    else match fs[x].parent
      case None => None
      case Some(p) => NextUp(fs, p)
  }

  /** The fiber performUnitOfWork hands back after `x`: its child, else `NextUp`. */
  function Next(fs: seq<Fiber>, x: FiberId): (r: Option<FiberId>)
    requires WellLinked(fs) && x < |fs|
    ensures InArena(fs, r)
  {
    assert LinksOk(fs, x);
    if fs[x].child.Some? then fs[x].child else NextUp(fs, x)
  }

  /** Where the walk continues once the sibling chain of `c` is done. */
  function Up(fs: seq<Fiber>, c: FiberId): (r: Option<FiberId>)
    requires WellLinked(fs) && c < |fs|
    ensures InArena(fs, r)
  {
    assert LinksOk(fs, c);
    match fs[c].parent
    case None => None
    case Some(p) => NextUp(fs, p)
  }

  /** `k` steps of the walk from `x`; a finished walk stays finished. */
  function Walk(fs: seq<Fiber>, x: Option<FiberId>, k: nat): (r: Option<FiberId>)
    requires WellLinked(fs) && InArena(fs, x)
    ensures InArena(fs, r)
    decreases k
  {
    if k == 0 || x.None? then x else Walk(fs, Next(fs, x.value), k - 1)
  }

  /** The subtree of `x` in pre-order: `x`, then the subtrees of its children in order. */
  ghost function PreOrder(fs: seq<Fiber>, x: FiberId): seq<FiberId>
    requires WellLinked(fs) && x < |fs|
    decreases |fs| - x, 0
  {
    assert LinksOk(fs, x);
    [x] + if fs[x].child.Some? then Forest(fs, fs[x].child.value) else []
  }

  /** The subtrees of `c` and of its later siblings, in order. */
  ghost function Forest(fs: seq<Fiber>, c: FiberId): seq<FiberId>
    requires WellLinked(fs) && c < |fs|
    decreases |fs| - c, 1
  {
    assert LinksOk(fs, c);
    PreOrder(fs, c) + if fs[c].sibling.Some? then Forest(fs, fs[c].sibling.value) else []
  }

  lemma {:induction false} WalkAdd(fs: seq<Fiber>, x: Option<FiberId>, a: nat, b: nat)
    requires WellLinked(fs) && InArena(fs, x)
    ensures Walk(fs, x, a + b) == Walk(fs, Walk(fs, x, a), b)
    decreases a
  {
    if a > 0 && x.Some? {
      WalkAdd(fs, Next(fs, x.value), a - 1, b);
    } else if x.None? {
      assert Walk(fs, x, a + b) == None;
      assert Walk(fs, None, b) == None;
    }
  }

  /** Walking from `x` lists its subtree in pre-order and then leaves it through `NextUp`. */
  lemma {:induction false} PreOrderWalk(fs: seq<Fiber>, x: FiberId)
    requires WellLinked(fs) && x < |fs|
    ensures forall k :: 0 <= k < |PreOrder(fs, x)| ==> Walk(fs, Some(x), k) == Some(PreOrder(fs, x)[k])
    ensures Walk(fs, Some(x), |PreOrder(fs, x)|) == NextUp(fs, x)
    decreases |fs| - x, 0
  {
    assert LinksOk(fs, x);
    var p := PreOrder(fs, x);
    if fs[x].child.Some? {
      var c := fs[x].child.value;
      var f := Forest(fs, c);
      ForestWalk(fs, c);
      assert p == [x] + f;
      assert Next(fs, x) == Some(c);
      forall k | 1 <= k <= |p| ensures Walk(fs, Some(x), k) == Walk(fs, Some(c), k - 1) {
      }
      assert Up(fs, c) == NextUp(fs, x);
    } else {
      assert p == [x];
      assert Walk(fs, Some(x), 1) == Walk(fs, Next(fs, x), 0);
    }
  }

  /** Walking from `c` lists the subtrees of `c` and its later siblings, then goes up. */
  lemma {:induction false} ForestWalk(fs: seq<Fiber>, c: FiberId)
    requires WellLinked(fs) && c < |fs|
    ensures forall k :: 0 <= k < |Forest(fs, c)| ==> Walk(fs, Some(c), k) == Some(Forest(fs, c)[k])
    ensures Walk(fs, Some(c), |Forest(fs, c)|) == Up(fs, c)
    decreases |fs| - c, 1
  {
    assert LinksOk(fs, c);
    var p := PreOrder(fs, c);
    PreOrderWalk(fs, c);
    if fs[c].sibling.Some? {
      var s := fs[c].sibling.value;
      var rest := Forest(fs, s);
      ForestWalk(fs, s);
      assert Forest(fs, c) == p + rest;
      forall k | 0 <= k < |p| + |rest| ensures Walk(fs, Some(c), k) == Some((p + rest)[k]) {
        if k >= |p| {
          WalkAdd(fs, Some(c), |p|, k - |p|);
        }
      }
      WalkAdd(fs, Some(c), |p|, |rest|);
    } else {
      assert Forest(fs, c) == p;
    }
  }

  /**
   * From a root, repeated units of work visit the root's tree in pre-order
   * and then stop.
   */
  lemma WalkFromRoot(fs: seq<Fiber>, root: FiberId)
    requires WellLinked(fs) && root < |fs|
    requires fs[root].parent.None? && fs[root].sibling.None?
    ensures forall k :: 0 <= k < |PreOrder(fs, root)| ==> Walk(fs, Some(root), k) == Some(PreOrder(fs, root)[k])
    ensures Walk(fs, Some(root), |PreOrder(fs, root)|) == None
  {
    PreOrderWalk(fs, root);
  }

  // ---------------------------------------------------------------------
  // Walks up the `return` chain
  // ---------------------------------------------------------------------

  /** `x` and its ancestors through `return`, nearest first. */
  function Ancestors(fs: seq<Fiber>, x: Option<FiberId>): (r: seq<FiberId>)
    requires WellLinked(fs) && InArena(fs, x)
    ensures forall i :: 0 <= i < |r| ==> r[i] < |fs|
    decreases if x.Some? then x.value + 1 else 0
  {
    match x
    case None => []
    case Some(y) =>
      assert LinksOk(fs, y);
      [y] + Ancestors(fs, fs[y].parent)
  }

  /** A CONTEXT_PROVIDER fiber whose `props.context` is context `c`. */
  predicate ProvidesFor(f: Fiber, c: ContextId) {
    f.ftype == Tag(CONTEXT_PROVIDER) && Same(Get(f.props, CONTEXT), CtxObj(c))
  }

  /** The `props.value` of the nearest provider of `c` from `x` up, if any. */
  function ProviderValue(fs: seq<Fiber>, c: ContextId, x: Option<FiberId>): Option<Value>
    requires WellLinked(fs) && InArena(fs, x)
    decreases if x.Some? then x.value + 1 else 0
  {
    match x
    case None => None
    case Some(y) =>
      assert LinksOk(fs, y);
      if ProvidesFor(fs[y], c) then Some(Get(fs[y].props, VALUE)) else ProviderValue(fs, c, fs[y].parent)
  }

  /** `chain[k]` is a provider of `c` and none before it is. */
  ghost predicate FirstProviderAt(fs: seq<Fiber>, c: ContextId, chain: seq<FiberId>, k: nat) {
    && k < |chain| && chain[k] < |fs| && ProvidesFor(fs[chain[k]], c)
    && forall i :: 0 <= i < k ==> chain[i] < |fs| && !ProvidesFor(fs[chain[i]], c)
  }

  /** The provider lookup finds the first provider of `c` on the ancestor chain, and only fails when there is none. */
  lemma {:induction false} ProviderValueNearest(fs: seq<Fiber>, c: ContextId, x: Option<FiberId>)
    requires WellLinked(fs) && InArena(fs, x)
    ensures ProviderValue(fs, c, x).None? ==>
      forall i :: 0 <= i < |Ancestors(fs, x)| ==> !ProvidesFor(fs[Ancestors(fs, x)[i]], c)
    ensures ProviderValue(fs, c, x).Some? ==>
      exists k: nat :: FirstProviderAt(fs, c, Ancestors(fs, x), k)
               && ProviderValue(fs, c, x).value == Get(fs[Ancestors(fs, x)[k]].props, VALUE)
    decreases if x.Some? then x.value + 1 else 0
  {
    if x.Some? {
      var y := x.value;
      assert LinksOk(fs, y);
      var chain := Ancestors(fs, x);
      var rest := Ancestors(fs, fs[y].parent);
      assert chain == [y] + rest;
      if ProvidesFor(fs[y], c) {
        assert FirstProviderAt(fs, c, chain, 0);
      } else {
        assert ProviderValue(fs, c, x) == ProviderValue(fs, c, fs[y].parent);
        ProviderValueNearest(fs, c, fs[y].parent);
        if ProviderValue(fs, c, x).Some? {
          var k: nat :| FirstProviderAt(fs, c, rest, k)
                   && ProviderValue(fs, c, x).value == Get(fs[rest[k]].props, VALUE);
          assert chain[k + 1] == rest[k];
          forall i | 0 <= i < k + 1 ensures chain[i] < |fs| && !ProvidesFor(fs[chain[i]], c) {
            if i > 0 { assert chain[i] == rest[i - 1]; }
          }
          assert FirstProviderAt(fs, c, chain, k + 1);
        } else {
          forall i | 0 <= i < |chain| ensures !ProvidesFor(fs[chain[i]], c) {
            if i > 0 { assert chain[i] == rest[i - 1]; }
          }
        }
      }
    }
  }

  /** The node of the nearest fiber with one, from `x` up. */
  function NearestDom(fs: seq<Fiber>, x: Option<FiberId>): Option<DomId>
    requires WellLinked(fs) && InArena(fs, x)
    decreases if x.Some? then x.value + 1 else 0
  {
    match x
    case None => None
    case Some(y) =>
      assert LinksOk(fs, y);
      if fs[y].dom.Some? then fs[y].dom else NearestDom(fs, fs[y].parent)
  }

  /** Every chain of `return` links ends at a root, and roots have nodes: the search always succeeds. */
  lemma {:induction false} NearestDomFound(fs: seq<Fiber>, x: FiberId)
    requires WellLinked(fs) && x < |fs|
    ensures NearestDom(fs, Some(x)).Some?
    decreases x
  {
    assert LinksOk(fs, x);
    if fs[x].dom.None? {
      NearestDomFound(fs, fs[x].parent.value);
    }
  }

  /** The sibling chain starting at `x`: the old children reconcileChildren pairs with elements. */
  function Chain(fs: seq<Fiber>, x: Option<FiberId>): (r: seq<FiberId>)
    requires WellLinked(fs) && InArena(fs, x)
    ensures forall i :: 0 <= i < |r| ==> r[i] < |fs|
    ensures forall i, j :: 0 <= i < j < |r| ==> r[i] < r[j]
    ensures x.Some? ==> |r| > 0 && r[0] == x.value
    ensures x.None? ==> r == []
    decreases if x.Some? then |fs| - x.value else 0
  {
    match x
    case None => []
    case Some(y) =>
      assert LinksOk(fs, y);
      var rest := Chain(fs, fs[y].sibling);
      assert forall i :: 0 <= i < |rest| ==> y < rest[i] by {
        if rest != [] { assert rest[0] == fs[y].sibling.value; }
      }
      [y] + rest
  }

  /** Consecutive entries of a chain are linked by `sibling`, and the last has none. */
  lemma {:induction false} ChainLinks(fs: seq<Fiber>, x: Option<FiberId>, k: nat)
    requires WellLinked(fs) && InArena(fs, x) && k < |Chain(fs, x)|
    ensures fs[Chain(fs, x)[k]].sibling == if k + 1 < |Chain(fs, x)| then Some(Chain(fs, x)[k + 1]) else None
    decreases if x.Some? then |fs| - x.value else 0
  {
    var y := x.value;
    assert LinksOk(fs, y);
    var rest := Chain(fs, fs[y].sibling);
    assert Chain(fs, x) == [y] + rest;
    if k > 0 {
      ChainLinks(fs, fs[y].sibling, k - 1);
    }
  }
}
