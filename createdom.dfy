/**
 * dom/createDom.ts: a new render-target node for a host fiber.
 *
 * The node store grows by one new node (the host's createElement or
 * createTextNode); an element's ref is pointed at it, and then the node is
 * diffed against empty props with updateDom, which points the ref at it a
 * second time.  A ref callback that throws leaves the node unused.
 */
module CreateDom {
  import opened Values
  import opened Dom
  import opened Arena
  import opened State
  import opened World

  /**
   * The name `document.createElement` receives.  Function types never get
   * here; the root's missing type reads as "undefined".
   */
  function TagName(t: ElemType): string {
    if t.Tag? then t.name else "undefined"
  }

  /** The `{}` updateDom diffs a new node against. */
  const NoProps := Props(0, [], map[])

  /** The node as the host creates it: a Text node holding `String(props.nodeValue)`, or an empty element. */
  function FreshNode(t: ElemType, props: Props): (n: DomNode)
    ensures n.kind.TextNode? <==> t == Tag(TEXT_ELEMENT)
    ensures n.attrs == map[] && n.style == map[] && n.listeners == {}
  {
    if t == Tag(TEXT_ELEMENT) then DomNode(TextNode, map[], map[], {}, ToStr(Get(props, NODE_VALUE)))
    else DomNode(ElementNode(TagName(t)), map[], map[], {}, "")
  }

  function RefWrites(ops: seq<RefOp>): (r: seq<Op>)
    ensures |r| == |ops| && forall k :: 0 <= k < |ops| ==> r[k] == RefWrite(ops[k])
  {
    seq(|ops|, k requires 0 <= k < |ops| => RefWrite(ops[k]))
  }

  /** The writes createDom makes to the new node `d`: an element's ref, then updateDom from `{}`. */
  function CreateDomOps(kind: NodeKind, d: DomId, props: Props): seq<Op> {
    (if kind.ElementNode? then RefWrites(RefTarget(Get(props, REF), Node(d))) else [])
      + UpdateDomOps(kind, d, NoProps, props)
  }

  /**
   * createDom(fiber): `Some(d)` is the new node, `None` the throw of a ref
   * callback.  Either way the node store has grown by the new node, and
   * the writes of CreateDomOps have been made up to the throw.
   */
  method CreateDom(rt: Runtime, host: Host, f: FiberId) returns (d: Option<DomId>)
    requires rt.Valid() && f < |rt.fibers|
    modifies rt`doms, rt`refs, rt`log, rt`pendingEffects, rt`pendingCleanups
    ensures rt.Valid()
    ensures |rt.doms| == |old(rt.doms)| + 1
    ensures var made := FreshNode(rt.fibers[f].ftype, rt.fibers[f].props);
      var w := old(Snap(rt)).(doms := old(rt.doms) + [made]);
      (Snap(rt), d.Some?) == Exec(host, w, CreateDomOps(made.kind, |old(rt.doms)|, rt.fibers[f].props))
    ensures d.Some? ==> d.value == |old(rt.doms)|
  {
    var fib := rt.fibers[f];
    var node := FreshNode(fib.ftype, fib.props);
    var id := |rt.doms|;
    rt.doms := rt.doms + [node];
    ghost var w := Snap(rt);
    var ok := true;
    var setRef := if node.kind.ElementNode? then RefWrites(RefTarget(Get(fib.props, REF), Node(id))) else [];
    ok := PerformAll(rt, host, setRef);
    var update := UpdateDomOps(node.kind, id, NoProps, fib.props);
    ExecAppend(host, w, setRef, update);
    if !ok {
      return None;
    }
    ok := UpdateDom(rt, host, id, NoProps, fib.props);
    d := if ok then Some(id) else None;
  }

  /**
   * An element with a ref object: the ref is set to the node by createDom
   * and set again by updateDom, the node ends patched from `{}`, and nothing
   * can throw.
   */
  lemma ElementRefSetTwice(host: Host, w: Outside, t: ElemType, props: Props, r: RefId)
    requires t != Tag(TEXT_ELEMENT) && Get(props, REF) == RefObj(r) && r < |w.refs|
    ensures var made := FreshNode(t, props);
      var d := |w.doms|;
      var x := Exec(host, w.(doms := w.doms + [made]), CreateDomOps(made.kind, d, props));
      && x.1
      && x.0.refs == w.refs[r := Node(d)]
      && x.0.doms == w.doms + [Patched(made, NoProps, props)]
      && x.0.log == w.log + [SetCurrent(r, Node(d)), Patch(d), SetCurrent(r, Node(d))]
  {
    var made := FreshNode(t, props);
    var d := |w.doms|;
    var ops := CreateDomOps(made.kind, d, props);
    assert RefTarget(RefObj(r), Node(d)) == [AssignCurrent(r, Node(d))];
    assert RefOps(Undefined, RefObj(r), d) == [AssignCurrent(r, Node(d))];
    assert ops == [RefWrite(AssignCurrent(r, Node(d))), PatchNode(d, NoProps, props), RefWrite(AssignCurrent(r, Node(d)))];
    var w0 := w.(doms := w.doms + [made]);
    var w1 := ExecOp(host, w0, ops[0]).0;
    var w2 := ExecOp(host, w1, ops[1]).0;
    var w3 := ExecOp(host, w2, ops[2]).0;
    assert Exec(host, w0, ops) == Exec(host, w1, ops[1..]);
    assert ops[1..][0] == ops[1] && ops[1..][1..] == ops[2..];
    assert Exec(host, w1, ops[1..]) == Exec(host, w2, ops[2..]);
    assert ops[2..][0] == ops[2] && ops[2..][1..] == [];
    assert Exec(host, w2, ops[2..]) == (w3, true);
  }

  /** A Text node's ref object is set once, by updateDom, before its text is written. */
  lemma TextRefSetOnce(host: Host, w: Outside, props: Props, r: RefId)
    requires Get(props, REF) == RefObj(r) && r < |w.refs|
    ensures var made := FreshNode(Tag(TEXT_ELEMENT), props);
      var d := |w.doms|;
      var x := Exec(host, w.(doms := w.doms + [made]), CreateDomOps(made.kind, d, props));
      && x.1
      && x.0.refs == w.refs[r := Node(d)]
      && x.0.doms == w.doms + [Patched(made, NoProps, props)]
      && x.0.log == w.log + [SetCurrent(r, Node(d)), Patch(d)]
  {
    var made := FreshNode(Tag(TEXT_ELEMENT), props);
    var d := |w.doms|;
    var ops := CreateDomOps(made.kind, d, props);
    assert RefOps(Undefined, RefObj(r), d) == [AssignCurrent(r, Node(d))];
    assert ops == [RefWrite(AssignCurrent(r, Node(d))), PatchNode(d, NoProps, props)];
    var w0 := w.(doms := w.doms + [made]);
    var w1 := ExecOp(host, w0, ops[0]).0;
    var w2 := ExecOp(host, w1, ops[1]).0;
    assert Exec(host, w0, ops) == Exec(host, w1, ops[1..]);
    assert ops[1..][0] == ops[1] && ops[1..][1..] == [];
    assert Exec(host, w1, ops[1..]) == (w2, true);
  }

  /** Without a ref, a new element gets exactly the attributes, styles and listeners its props call for. */
  lemma CreateDomWithoutRef(host: Host, w: Outside, t: ElemType, props: Props)
    requires !Truthy(Get(props, REF))
    ensures var made := FreshNode(t, props);
      var d := |w.doms|;
      var x := Exec(host, w.(doms := w.doms + [made]), CreateDomOps(made.kind, d, props));
      && x.1
      && x.0 == w.(doms := w.doms + [Patched(made, NoProps, props)], log := w.log + [Patch(d)])
  {
    var made := FreshNode(t, props);
    var d := |w.doms|;
    var ops := CreateDomOps(made.kind, d, props);
    assert RefOps(Undefined, Get(props, REF), d) == [];
    assert ops == [PatchNode(d, NoProps, props)];
    assert ops[1..] == [];
  }
}
