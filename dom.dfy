/**
 * The prop-to-node diff of dom/updateDom.ts, over an abstract render-target
 * node: its kind, attribute map, style map, listener set and text value.
 *
 * The four passes over Object.keys(prevProps) / Object.keys(nextProps) are
 * loops in `UpdateNode`; each pass is specified by a fold of one step
 * function over the key list, and the lemmas below say what the folds do.
 * The ref part of updateDom is the list of ref operations `RefOps`, which the
 * runtime applies to its ref store and event log.
 */
module Dom {
  import opened Values

  datatype NodeKind = TextNode | ElementNode(tag: string)

  /** A registered listener: event type and handler. */
  datatype Listener = Listener(event: string, handler: Value)

  datatype DomNode = DomNode(
    kind: NodeKind,
    attrs: map<string, string>,
    style: map<string, string>,
    listeners: set<Listener>,
    nodeValue: string)

  const BOOLEAN_ATTRIBUTES: set<string> :=
    {"disabled", "checked", "selected", "hidden", "readonly", "required",
     "autofocus", "autoplay", "controls", "defer", "multiple", "open"}

  /** The single style entry that stands for a whole `style.cssText` string (its declarations are not parsed). */
  const CSS_TEXT := "cssText"

  predicate IsEvent(k: string) {
    |k| >= 2 && k[0] == 'o' && k[1] == 'n'
  }

  predicate IsProperty(k: string) {
    k != CHILDREN && !IsEvent(k) && k != KEY
  }

  /** The attribute a property key names. */
  function AttrName(k: string): string {
    if k == CLASS_NAME then "class" else k
  }

  function LowerChar(c: char): char {
    if 'A' <= c <= 'Z' then (c as int + 32) as char else c
  }

  function Lower(s: string): (r: string)
    ensures |r| == |s|
  {
    seq(|s|, i requires 0 <= i < |s| => LowerChar(s[i]))
  }

  predicate IsTextField(kind: NodeKind) {
    kind.ElementNode? && (Lower(kind.tag) == "input" || Lower(kind.tag) == "textarea")
  }

  /** `getEventType`: lower-case, drop "on", and `change` is `input` on text fields. */
  function EventType(name: string, kind: NodeKind): string {
    var t := if |name| >= 2 then Lower(name)[2..] else "";
    if t == "change" && IsTextField(kind) then "input" else t
  }

  lemma EventTypeExamples()
    ensures EventType("onClick", ElementNode("button")) == "click"
    ensures EventType("onChange", ElementNode("input")) == "input"
    ensures EventType("onChange", ElementNode("textarea")) == "input"
    ensures EventType("onChange", ElementNode("select")) == "change"
  {
    assert Lower("onClick")[2..] == "click";
    assert Lower("onChange")[2..] == "change";
    assert Lower("input") == "input";
    assert Lower("textarea") == "textarea";
    assert Lower("select") != "input" && Lower("select") != "textarea";
    assert Lower("button") != "input" && Lower("button") != "textarea";
  }

  /** `style.cssText = s`. */
  function CssText(s: string): map<string, string> {
    if s == "" then map[] else map[CSS_TEXT := s]
  }

  /** `style[name] = String(v)` for a value that is neither null nor undefined, else `""`; an empty value removes the property. */
  function StyleValue(v: Value): Option<string> {
    if v.Undefined? || v.Null? || ToStr(v) == "" then None else Some(ToStr(v))
  }

  /** The style properties after every name in `names` is assigned from `fields`. */
  function StyleAssigned(m: map<string, string>, fields: map<string, Value>, names: set<string>): map<string, string>
    requires names <= fields.Keys
  {
    map s | s in (m.Keys - names) + (set d | d in names && StyleValue(fields[d]).Some?) ::
      if s in names then StyleValue(fields[s]).value else m[s]
  }

  /** A style object: old names missing from the new object are removed, then every new name is assigned. */
  function StyleAfter(m: map<string, string>, oldNames: set<string>, fields: map<string, Value>): map<string, string> {
    StyleAssigned(m - (oldNames - fields.Keys), fields, fields.Keys)
  }

  /** The member names of the previous `style` prop, when it is an object. */
  function OldStyleNames(prev: Props): set<string> {
    var s := Get(prev, STYLE);
    if s.Obj? then s.fields.Keys else {}
  }

  /** One attribute write of the "set new or changed properties" pass. */
  function SetProp(n: DomNode, prev: Props, name: string, v: Value): DomNode {
    if name == CLASS_NAME then n.(attrs := n.attrs["class" := if Truthy(v) then ToStr(v) else ""])
    else if name == STYLE then
      if v.Obj? then n.(style := StyleAfter(n.style, OldStyleNames(prev), v.fields))
      else if v.Str? then n.(style := CssText(v.s))
      else n.(style := map[])
    else if name in BOOLEAN_ATTRIBUTES then
      if Truthy(v) then n.(attrs := n.attrs[name := ""]) else n.(attrs := n.attrs - {name})
    else if v.Null? || v.Undefined? || v == Bool(false) then n.(attrs := n.attrs - {name})
    else n.(attrs := n.attrs[name := ToStr(v)])
  }

  /** The four passes of the element branch, in source order. */
  datatype Pass = RemoveOld | SetNew | Unlisten | Listen

  predicate Changed(prev: Props, next: Props, k: string) {
    !Same(Get(prev, k), Get(next, k))
  }

  /** What one pass does for one key. */
  function Step(pass: Pass, n: DomNode, prev: Props, next: Props, k: string): DomNode {
    match pass
    case RemoveOld =>
      if IsProperty(k) && k !in next.fields then
        if k == CLASS_NAME then n.(attrs := n.attrs - {"class"})
        else if k == STYLE then n.(style := map[])
        else n.(attrs := n.attrs - {k})
      else n
    case SetNew =>
      if IsProperty(k) && Changed(prev, next, k) then SetProp(n, prev, k, Get(next, k)) else n
    case Unlisten =>
      if IsEvent(k) && (k !in next.fields || Changed(prev, next, k)) && Truthy(Get(prev, k))
      then n.(listeners := n.listeners - {Listener(EventType(k, n.kind), Get(prev, k))})
      else n
    case Listen =>
      if IsEvent(k) && Changed(prev, next, k) && Truthy(Get(next, k))
      then n.(listeners := n.listeners + {Listener(EventType(k, n.kind), Get(next, k))})
      else n
  }

  /** A pass over the keys `ks`, in order. */
  function Fold(pass: Pass, n: DomNode, prev: Props, next: Props, ks: seq<string>): DomNode
    decreases |ks|
  {
    if ks == [] then n else Step(pass, Fold(pass, n, prev, next, ks[..|ks| - 1]), prev, next, ks[|ks| - 1])
  }

  /** The text a Text node gets from `nodeValue = v`. */
  function TextValue(v: Value): string {
    if v.Null? then "" else ToStr(v)
  }

  /** The whole node-level effect of updateDom (refs aside). */
  function Patched(n: DomNode, prev: Props, next: Props): DomNode {
    if n.kind.ElementNode? then
      var a := Fold(RemoveOld, n, prev, next, prev.keys);
      var b := Fold(SetNew, a, prev, next, next.keys);
      var c := Fold(Unlisten, b, prev, next, prev.keys);
      Fold(Listen, c, prev, next, next.keys)
    else if Get(next, NODE_VALUE) != Undefined then n.(nodeValue := TextValue(Get(next, NODE_VALUE)))
    else n
  }

  lemma StyleAssignedStep(base: map<string, string>, fields: map<string, Value>, done: set<string>, s: string)
    requires done <= fields.Keys && s in fields && s !in done
    ensures var v := StyleValue(fields[s]);
      StyleAssigned(base, fields, done + {s})
        == if v.Some? then StyleAssigned(base, fields, done)[s := v.value] else StyleAssigned(base, fields, done) - {s}
  {
    var v := StyleValue(fields[s]);
    var a := StyleAssigned(base, fields, done + {s});
    var b := StyleAssigned(base, fields, done);
    var c := if v.Some? then b[s := v.value] else b - {s};
    assert a.Keys == c.Keys;
    forall x | x in a.Keys ensures a[x] == c[x] {}
  }

  lemma RemoveStep(m: map<string, string>, gone: set<string>, s: string)
    ensures (m - gone) - {s} == m - (gone + {s})
  {
  }

  /** The first `forEach`: old style members missing from the new object are cleared. */
  method ClearMissingStyles(m: map<string, string>, oldNames: set<string>, fields: map<string, Value>)
    returns (r: map<string, string>)
    ensures r == m - (oldNames - fields.Keys)
  {
    r := m;
    var todo := oldNames;
    ghost var gone: set<string> := {};
    while todo != {}
      invariant todo <= oldNames
      invariant gone == (oldNames - todo) - fields.Keys
      invariant r == m - gone
      decreases todo
    {
      var s :| s in todo;
      if s !in fields {
        RemoveStep(m, gone, s);
        r := r - {s};
        gone := gone + {s};
      }
      todo := todo - {s};
    }
  }

  /** The second `forEach`: every member of the new style object is assigned. */
  method AssignStyles(base: map<string, string>, fields: map<string, Value>)
    returns (r: map<string, string>)
    ensures r == StyleAssigned(base, fields, fields.Keys)
  {
    r := base;
    var done: set<string> := {};
    var todo := fields.Keys;
    while todo != {}
      invariant todo <= fields.Keys && done == fields.Keys - todo
      invariant r == StyleAssigned(base, fields, done)
      decreases todo
    {
      var s :| s in todo;
      var v := StyleValue(fields[s]);
      StyleAssignedStep(base, fields, done, s);
      if v.Some? { r := r[s := v.value]; } else { r := r - {s}; }
      done := done + {s};
      todo := todo - {s};
    }
  }

  /** The style-object branch of the "set" pass. */
  method AssignStyleObject(m: map<string, string>, oldNames: set<string>, fields: map<string, Value>)
    returns (r: map<string, string>)
    ensures r == StyleAfter(m, oldNames, fields)
  {
    r := ClearMissingStyles(m, oldNames, fields);
    r := AssignStyles(r, fields);
  }

  method SetPropInPlace(n: DomNode, prev: Props, name: string, v: Value) returns (r: DomNode)
    ensures r == SetProp(n, prev, name, v)
  {
    r := n;
    if name == CLASS_NAME {
      r := r.(attrs := r.attrs["class" := if Truthy(v) then ToStr(v) else ""]);
    } else if name == STYLE {
      if v.Obj? {
        var st := AssignStyleObject(r.style, OldStyleNames(prev), v.fields);
        r := r.(style := st);
      } else if v.Str? {
        r := r.(style := CssText(v.s));
      } else {
        r := r.(style := map[]);
      }
    } else if name in BOOLEAN_ATTRIBUTES {
      if Truthy(v) { r := r.(attrs := r.attrs[name := ""]); } else { r := r.(attrs := r.attrs - {name}); }
    } else if v.Null? || v.Undefined? || v == Bool(false) {
      r := r.(attrs := r.attrs - {name});
    } else {
      r := r.(attrs := r.attrs[name := ToStr(v)]);
    }
  }

  /** One `forEach` pass over `ks`. */
  method RunPass(pass: Pass, n: DomNode, prev: Props, next: Props, ks: seq<string>) returns (r: DomNode)
    ensures r == Fold(pass, n, prev, next, ks)
  {
    r := n;
    var i := 0;
    while i < |ks|
      invariant 0 <= i <= |ks|
      invariant r == Fold(pass, n, prev, next, ks[..i])
    {
      assert ks[..i + 1][..i] == ks[..i];
      var k := ks[i];
      match pass {
        case RemoveOld =>
          if IsProperty(k) && k !in next.fields {
            if k == CLASS_NAME { r := r.(attrs := r.attrs - {"class"}); }
            else if k == STYLE { r := r.(style := map[]); }
            else { r := r.(attrs := r.attrs - {k}); }
          }
        case SetNew =>
          if IsProperty(k) && !Same(Get(prev, k), Get(next, k)) {
            r := SetPropInPlace(r, prev, k, Get(next, k));
          }
        case Unlisten =>
          if IsEvent(k) && (k !in next.fields || !Same(Get(prev, k), Get(next, k))) && Truthy(Get(prev, k)) {
            r := r.(listeners := r.listeners - {Listener(EventType(k, r.kind), Get(prev, k))});
          }
        case Listen =>
          if IsEvent(k) && !Same(Get(prev, k), Get(next, k)) && Truthy(Get(next, k)) {
            r := r.(listeners := r.listeners + {Listener(EventType(k, r.kind), Get(next, k))});
          }
      }
      i := i + 1;
    }
    assert ks[..|ks|] == ks;
  }

  /** updateDom on the node itself: the element passes, or the text value. */
  method UpdateNode(n: DomNode, prev: Props, next: Props) returns (r: DomNode)
    ensures r == Patched(n, prev, next)
  {
    if n.kind.ElementNode? {
      r := RunPass(RemoveOld, n, prev, next, prev.keys);
      r := RunPass(SetNew, r, prev, next, next.keys);
      r := RunPass(Unlisten, r, prev, next, prev.keys);
      r := RunPass(Listen, r, prev, next, next.keys);
    } else if Get(next, NODE_VALUE) != Undefined {
      r := n.(nodeValue := TextValue(Get(next, NODE_VALUE)));
    } else {
      r := n;
    }
  }

  // ---------------------------------------------------------------------
  // What the passes do
  // ---------------------------------------------------------------------

  /** Key `k` can write attribute `a` in the "set" pass (and remove it in the "remove" pass). */
  predicate Names(k: string, a: string) {
    IsProperty(k) && k != STYLE && AttrName(k) == a
  }

  predicate AttrAgrees(m1: map<string, string>, m2: map<string, string>, a: string) {
    (a in m1 <==> a in m2) && (a in m1 ==> m1[a] == m2[a])
  }

  lemma {:induction false} FoldKeepsKind(pass: Pass, n: DomNode, prev: Props, next: Props, ks: seq<string>)
    ensures Fold(pass, n, prev, next, ks).kind == n.kind
    decreases |ks|
  {
    if ks != [] {
      FoldKeepsKind(pass, n, prev, next, ks[..|ks| - 1]);
    }
  }

  /** A pass leaves attribute `a` alone unless one of its keys names it. */
  lemma {:induction false} FoldKeepsAttr(pass: Pass, n: DomNode, prev: Props, next: Props, ks: seq<string>, a: string)
    requires forall j :: 0 <= j < |ks| ==> !Names(ks[j], a)
    ensures AttrAgrees(Fold(pass, n, prev, next, ks).attrs, n.attrs, a)
    decreases |ks|
  {
    if ks != [] {
      FoldKeepsAttr(pass, n, prev, next, ks[..|ks| - 1], a);
    }
  }

  /** The listener passes touch listeners only. */
  lemma {:induction false} ListenerPassKeepsRest(pass: Pass, n: DomNode, prev: Props, next: Props, ks: seq<string>)
    requires pass == Unlisten || pass == Listen
    ensures var r := Fold(pass, n, prev, next, ks);
      r.attrs == n.attrs && r.style == n.style && r.kind == n.kind && r.nodeValue == n.nodeValue
    decreases |ks|
  {
    if ks != [] {
      ListenerPassKeepsRest(pass, n, prev, next, ks[..|ks| - 1]);
    }
  }

  /** The attribute passes never touch listeners. */
  lemma {:induction false} AttrPassKeepsListeners(pass: Pass, n: DomNode, prev: Props, next: Props, ks: seq<string>)
    requires pass == RemoveOld || pass == SetNew
    ensures Fold(pass, n, prev, next, ks).listeners == n.listeners
    ensures Fold(pass, n, prev, next, ks).kind == n.kind
    decreases |ks|
  {
    if ks != [] {
      AttrPassKeepsListeners(pass, n, prev, next, ks[..|ks| - 1]);
    }
  }

  /** `children`, `key` and `on...` names are never written or removed as attributes. */
  lemma NonAttributesUntouched(n: DomNode, prev: Props, next: Props, a: string)
    requires a == CHILDREN || a == KEY || IsEvent(a)
    ensures AttrAgrees(Patched(n, prev, next).attrs, n.attrs, a)
  {
    if n.kind.ElementNode? {
      assert forall k :: !Names(k, a);
      var x := Fold(RemoveOld, n, prev, next, prev.keys);
      var y := Fold(SetNew, x, prev, next, next.keys);
      var z := Fold(Unlisten, y, prev, next, prev.keys);
      FoldKeepsAttr(RemoveOld, n, prev, next, prev.keys, a);
      FoldKeepsAttr(SetNew, x, prev, next, next.keys, a);
      FoldKeepsAttr(Unlisten, y, prev, next, prev.keys, a);
      FoldKeepsAttr(Listen, z, prev, next, next.keys, a);
    }
  }

  /** A pass in which every key is a no-op changes nothing. */
  lemma {:induction false} FoldIdle(pass: Pass, n: DomNode, prev: Props, next: Props, ks: seq<string>)
    requires forall j :: 0 <= j < |ks| ==> Step(pass, n, prev, next, ks[j]) == n
    ensures Fold(pass, n, prev, next, ks) == n
    decreases |ks|
  {
    if ks != [] {
      FoldIdle(pass, n, prev, next, ks[..|ks| - 1]);
    }
  }

  /**
   * When every previous key is still present and no key changed value, the
   * node is left exactly as it was: unchanged keys cause no operation.
   */
  lemma UpdateDomUnchanged(n: DomNode, prev: Props, next: Props)
    requires forall k :: k in prev.keys ==> k in next.fields && !Changed(prev, next, k)
    requires forall k :: k in next.keys ==> !Changed(prev, next, k)
    requires n.kind.ElementNode? || Get(next, NODE_VALUE) == Undefined
    ensures Patched(n, prev, next) == n
  {
    if n.kind.ElementNode? {
      forall j | 0 <= j < |prev.keys| ensures Step(RemoveOld, n, prev, next, prev.keys[j]) == n
        && Step(Unlisten, n, prev, next, prev.keys[j]) == n {
        assert prev.keys[j] in prev.keys;
      }
      forall j | 0 <= j < |next.keys| ensures Step(SetNew, n, prev, next, next.keys[j]) == n
        && Step(Listen, n, prev, next, next.keys[j]) == n {
        assert next.keys[j] in next.keys;
      }
      FoldIdle(RemoveOld, n, prev, next, prev.keys);
      FoldIdle(SetNew, n, prev, next, next.keys);
      FoldIdle(Unlisten, n, prev, next, prev.keys);
      FoldIdle(Listen, n, prev, next, next.keys);
    }
  }

  /** Diffing a props object against itself changes nothing. */
  lemma UpdateDomSameProps(n: DomNode, p: Props)
    requires WellFormed(p)
    requires n.kind.ElementNode? || Get(p, NODE_VALUE) == Undefined
    ensures Patched(n, p, p) == n
  {
    forall k ensures !Changed(p, p, k) {
      SameIsEquivalence(Get(p, k), Get(p, k), Get(p, k));
    }
    UpdateDomUnchanged(n, p, p);
  }

  /** The "remove" pass never adds attributes, and removes the one a dropped key names. */
  lemma {:induction false} RemoveOldRemoves(n: DomNode, prev: Props, next: Props, ks: seq<string>, k: string, a: string)
    requires k in ks && Names(k, a) && k !in next.fields
    ensures a !in Fold(RemoveOld, n, prev, next, ks).attrs
    decreases |ks|
  {
    var last := ks[|ks| - 1];
    var front := ks[..|ks| - 1];
    if last != k {
      assert k in front by {
        var j :| 0 <= j < |ks| && ks[j] == k;
        assert j < |ks| - 1;
        assert front[j] == k;
      }
      RemoveOldRemoves(n, prev, next, front, k, a);
    }
  }

  /**
   * An attribute prop present before and absent (by key) now is removed,
   * `className` removing `class`, unless a key of the new props names the same
   * attribute.
   */
  lemma UpdateDomRemovesDroppedAttribute(n: DomNode, prev: Props, next: Props, k: string)
    requires n.kind.ElementNode?
    requires k in prev.keys && IsProperty(k) && k != STYLE && k !in next.fields
    requires forall j :: 0 <= j < |next.keys| ==> !Names(next.keys[j], AttrName(k))
    ensures AttrName(k) !in Patched(n, prev, next).attrs
  {
    var a := AttrName(k);
    var x := Fold(RemoveOld, n, prev, next, prev.keys);
    var y := Fold(SetNew, x, prev, next, next.keys);
    var z := Fold(Unlisten, y, prev, next, prev.keys);
    RemoveOldRemoves(n, prev, next, prev.keys, k, a);
    FoldKeepsAttr(SetNew, x, prev, next, next.keys, a);
    ListenerPassKeepsRest(Unlisten, y, prev, next, prev.keys);
    ListenerPassKeepsRest(Listen, z, prev, next, next.keys);
  }

  /** The attribute a changed, non-style prop ends with: `None` when removed. */
  function AttrWritten(k: string, v: Value): Option<string> {
    if k == CLASS_NAME then Some(if Truthy(v) then ToStr(v) else "")
    else if k in BOOLEAN_ATTRIBUTES then (if Truthy(v) then Some("") else None)
    else if v.Null? || v.Undefined? || v == Bool(false) then None
    else Some(ToStr(v))
  }

  predicate AttrIs(m: map<string, string>, a: string, o: Option<string>) {
    if o.Some? then a in m && m[a] == o.value else a !in m
  }

  lemma {:induction false} SetNewWrites(n: DomNode, prev: Props, next: Props, ks: seq<string>, k: string)
    requires k in ks && IsProperty(k) && k != STYLE && Changed(prev, next, k)
    requires forall j :: 0 <= j < |ks| && ks[j] != k ==> !Names(ks[j], AttrName(k))
    ensures AttrIs(Fold(SetNew, n, prev, next, ks).attrs, AttrName(k), AttrWritten(k, Get(next, k)))
    decreases |ks|
  {
    var last := ks[|ks| - 1];
    var front := ks[..|ks| - 1];
    if last != k {
      assert k in front by {
        var j :| 0 <= j < |ks| && ks[j] == k;
        assert j < |ks| - 1;
        assert front[j] == k;
      }
      assert !Names(last, AttrName(k));
      SetNewWrites(n, prev, next, front, k);
    }
  }

  /**
   * A changed attribute prop is written: `className` as `class` (empty when
   * falsy), a boolean attribute as "" when truthy and removed when falsy, any
   * other name removed for null, undefined and false and set to its string
   * form otherwise, provided no other new key names the same attribute.
   */
  lemma UpdateDomWritesChangedAttribute(n: DomNode, prev: Props, next: Props, k: string)
    requires n.kind.ElementNode?
    requires k in next.keys && IsProperty(k) && k != STYLE && Changed(prev, next, k)
    requires forall j :: 0 <= j < |next.keys| && next.keys[j] != k ==> !Names(next.keys[j], AttrName(k))
    ensures AttrIs(Patched(n, prev, next).attrs, AttrName(k), AttrWritten(k, Get(next, k)))
  {
    var x := Fold(RemoveOld, n, prev, next, prev.keys);
    var y := Fold(SetNew, x, prev, next, next.keys);
    var z := Fold(Unlisten, y, prev, next, prev.keys);
    SetNewWrites(x, prev, next, next.keys, k);
    ListenerPassKeepsRest(Unlisten, y, prev, next, prev.keys);
    ListenerPassKeepsRest(Listen, z, prev, next, next.keys);
  }

  /** The listeners the "remove" pass takes away. */
  function Unlistened(prev: Props, next: Props, kind: NodeKind, ks: seq<string>): set<Listener> {
    set k | k in ks && IsEvent(k) && (k !in next.fields || Changed(prev, next, k)) && Truthy(Get(prev, k))
      :: Listener(EventType(k, kind), Get(prev, k))
  }

  /** The listeners the "add" pass registers. */
  function Listened(prev: Props, next: Props, kind: NodeKind, ks: seq<string>): set<Listener> {
    set k | k in ks && IsEvent(k) && Changed(prev, next, k) && Truthy(Get(next, k))
      :: Listener(EventType(k, kind), Get(next, k))
  }

  lemma {:induction false} UnlistenFold(n: DomNode, prev: Props, next: Props, ks: seq<string>)
    ensures Fold(Unlisten, n, prev, next, ks).listeners == n.listeners - Unlistened(prev, next, n.kind, ks)
    decreases |ks|
  {
    if ks != [] {
      var front := ks[..|ks| - 1];
      UnlistenFold(n, prev, next, front);
      ListenerPassKeepsRest(Unlisten, n, prev, next, front);
      assert forall k :: k in ks <==> k in front || k == ks[|ks| - 1];
    }
  }

  lemma {:induction false} ListenFold(n: DomNode, prev: Props, next: Props, ks: seq<string>)
    ensures Fold(Listen, n, prev, next, ks).listeners == n.listeners + Listened(prev, next, n.kind, ks)
    decreases |ks|
  {
    if ks != [] {
      var front := ks[..|ks| - 1];
      ListenFold(n, prev, next, front);
      ListenerPassKeepsRest(Listen, n, prev, next, front);
      assert forall k :: k in ks <==> k in front || k == ks[|ks| - 1];
    }
  }

  /**
   * On an element, previous listeners whose key is gone or whose value
   * changed are removed, then changed truthy new ones are added, under the
   * event type their name maps to.
   */
  lemma UpdateDomListeners(n: DomNode, prev: Props, next: Props)
    requires n.kind.ElementNode?
    ensures Patched(n, prev, next).listeners
      == (n.listeners - Unlistened(prev, next, n.kind, prev.keys)) + Listened(prev, next, n.kind, next.keys)
  {
    var x := Fold(RemoveOld, n, prev, next, prev.keys);
    var y := Fold(SetNew, x, prev, next, next.keys);
    var z := Fold(Unlisten, y, prev, next, prev.keys);
    AttrPassKeepsListeners(RemoveOld, n, prev, next, prev.keys);
    AttrPassKeepsListeners(SetNew, x, prev, next, next.keys);
    UnlistenFold(y, prev, next, prev.keys);
    ListenerPassKeepsRest(Unlisten, y, prev, next, prev.keys);
    ListenFold(z, prev, next, next.keys);
  }

  /** A Text node only ever has its text replaced, and only when the new props define `nodeValue`. */
  lemma UpdateDomTextNode(n: DomNode, prev: Props, next: Props)
    requires n.kind.TextNode?
    ensures var r := Patched(n, prev, next);
      && r.attrs == n.attrs && r.style == n.style && r.listeners == n.listeners && r.kind == n.kind
      && r.nodeValue == if Get(next, NODE_VALUE) != Undefined then TextValue(Get(next, NODE_VALUE)) else n.nodeValue
  {
  }

  /** A write to a ref: calling a callback ref, or assigning a ref object's `current`. */
  datatype RefOp = CallRef(f: Value, arg: Value) | AssignCurrent(ref: RefId, v: Value)

  /** Pointing `ref` at `v`: a falsy ref, and an object without `current`, take nothing. */
  function RefTarget(ref: Value, v: Value): (r: seq<RefOp>)
    ensures |r| <= 1
    ensures r != [] <==> Truthy(ref) && (IsFunction(ref) || ref.RefObj?)
  {
    if !Truthy(ref) then []
    else if IsFunction(ref) then [CallRef(ref, v)]
    else if ref.RefObj? then [AssignCurrent(ref.ref, v)]
    else []
  }

  /** The ref writes of updateDom, in order: the old ref is cleared, then the new one set. */
  function RefOps(prevRef: Value, nextRef: Value, node: DomId): seq<RefOp> {
    if Same(prevRef, nextRef) then [] else RefTarget(prevRef, Null) + RefTarget(nextRef, Node(node))
  }

  /**
   * A ref that did not change is not touched; a changed one is detached
   * (given null) before the new one is attached (given the node), and a
   * ref is never given anything else.
   */
  lemma RefOpsMeaning(prevRef: Value, nextRef: Value, node: DomId)
    ensures Same(prevRef, nextRef) ==> RefOps(prevRef, nextRef, node) == []
    ensures !Same(prevRef, nextRef) && Truthy(prevRef) && IsFunction(prevRef) ==>
      RefOps(prevRef, nextRef, node)[0] == CallRef(prevRef, Null)
    ensures !Same(prevRef, nextRef) && Truthy(nextRef) && nextRef.RefObj? ==>
      RefOps(prevRef, nextRef, node)[|RefOps(prevRef, nextRef, node)| - 1] == AssignCurrent(nextRef.ref, Node(node))
    ensures forall op <- RefOps(prevRef, nextRef, node) ::
      || op == CallRef(prevRef, Null) || op == CallRef(nextRef, Node(node))
      || (prevRef.RefObj? && op == AssignCurrent(prevRef.ref, Null))
      || (nextRef.RefObj? && op == AssignCurrent(nextRef.ref, Node(node)))
  {
  }
}
