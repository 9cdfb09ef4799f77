/**
 * JavaScript values as the runtime sees them.
 *
 * Objects carry an identity (an id): `===` and `Object.is` compare objects by
 * identity and primitives by value.  Each id stands for one object whose
 * contents never change after creation (props objects, children arrays and
 * descriptors are never mutated by the runtime).  Mutable objects (ref objects,
 * context objects, DOM nodes) are ids into stores kept by the runtime.
 */
module Values {

  datatype Option<+T> = None | Some(value: T)

  type ObjId = nat
  type FnId = nat
  type ContextId = nat
  type RefId = nat
  type DomId = nat

  /** The `type` of a descriptor or fiber. */
  datatype ElemType =
    | Untyped                    // the root fiber has no type
    | Tag(name: string)          // host tags and the string markers ("TEXT_ELEMENT", "CONTEXT_PROVIDER", ...)
    | Component(fn: FnId)        // an application function component
    | ProviderOf(ctx: ContextId) // the Provider function of a context
    | ConsumerOf(ctx: ContextId) // the Consumer function of a context

  datatype Value =
    | Undefined
    | Null
    | Bool(b: bool)
    | Num(n: int)
    | Str(s: string)
    | Fn(fn: FnId)                                // an application function
    | Arr(aid: ObjId, items: seq<Value>)          // an array object
    | Elem(etype: ElemType, props: Props)         // a descriptor {type, props}
    | Obj(oid: ObjId, fields: map<string, Value>) // a plain object without a `type` member
    | RefObj(ref: RefId)                          // a ref object {current}
    | CtxObj(ctx: ContextId)                      // a context object
    | Node(dom: DomId)                            // a render-target node
    | ProviderEffect(context: Value, prev: Value)  // the effect a context provider registers
    | Setter(fiber: nat, slot: nat)               // the setState closure useState returns

  /** A props object: `keys` is the order Object.keys reports, `fields` the members. */
  datatype Props = Props(pid: ObjId, keys: seq<string>, fields: map<string, Value>)

  const CHILDREN := "children"
  const KEY := "key"
  const REF := "ref"
  const STYLE := "style"
  const CLASS_NAME := "className"
  const NODE_VALUE := "nodeValue"
  const CONTEXT := "context"
  const VALUE := "value"
  const PREV_VALUE := "prevValue"
  const TEXT_ELEMENT := "TEXT_ELEMENT"
  const CONTEXT_PROVIDER := "CONTEXT_PROVIDER"

  /** `props[k]`: a missing member reads as undefined. */
  function Get(p: Props, k: string): Value {
    if k in p.fields then p.fields[k] else Undefined
  }

  /** Keys listed once each, and exactly the members. */
  ghost predicate WellFormed(p: Props) {
    && (forall k :: k in p.fields <==> k in p.keys)
    && (forall i, j :: 0 <= i < j < |p.keys| ==> p.keys[i] != p.keys[j])
  }

  /** Strict equality (`===`, and `Object.is` outside NaN and signed zero). */
  predicate Same(a: Value, b: Value) {
    match a
    case Fn(f) => b.Fn? && b.fn == f
    case Arr(i, _) => b.Arr? && b.aid == i
    case Elem(t, p) => b.Elem? && b.etype == t && b.props.pid == p.pid
    case Obj(i, _) => b.Obj? && b.oid == i
    case _ => a == b
  }

  lemma SameIsEquivalence(a: Value, b: Value, c: Value)
    ensures Same(a, a)
    ensures Same(a, b) ==> Same(b, a)
    ensures Same(a, b) && Same(b, c) ==> Same(a, c)
  {
  }

  /** JavaScript truthiness. */
  predicate Truthy(v: Value) {
    match v
    case Undefined => false
    case Null => false
    case Bool(b) => b
    case Num(n) => n != 0
    case Str(s) => s != ""
    case _ => true
  }

  predicate IsFunction(v: Value) {
    v.Fn? || v.ProviderEffect? || v.Setter?
  }

  /** `typeof t === "function"` for a descriptor or fiber type. */
  predicate IsFunctionType(t: ElemType) {
    t.Component? || t.ProviderOf? || t.ConsumerOf?
  }

  /** `v && typeof v === "object" && "type" in v`. */
  predicate IsElement(v: Value) {
    v.Elem?
  }

  function DigitChar(d: nat): char
    requires d < 10
  {
    "0123456789"[d]
  }

  function NatToString(n: nat): (s: string)
    ensures |s| >= 1
    ensures forall i :: 0 <= i < |s| ==> '0' <= s[i] <= '9'
  {
    if n < 10 then [DigitChar(n)] else NatToString(n / 10) + [DigitChar(n % 10)]
  }

  function Join(items: seq<Value>): string
    decreases items, 2
  {
    if items == [] then ""
    else if |items| == 1 then ItemString(items[0])
    else ItemString(items[0]) + "," + Join(items[1..])
  }

  function ItemString(v: Value): string
    decreases v, 1
  {
    if v.Undefined? || v.Null? then "" else ToStr(v)
  }

  /**
   * `String(v)`.  The text of functions and of non-array objects is opaque:
   * only its existence matters to the runtime.
   */
  function ToStr(v: Value): string
    decreases v, 0
  {
    match v
    case Undefined => "undefined"
    case Null => "null"
    case Bool(b) => if b then "true" else "false"
    case Num(n) => if n < 0 then "-" + NatToString(-n) else NatToString(n)
    case Str(s) => s
    case Arr(_, items) => Join(items)
    case Fn(_) => "function"
    case ProviderEffect(_, _) => "function"
    case Setter(_, _) => "function"
    case Node(_) => "[object Node]"
    case _ => "[object Object]"
  }

  /**
   * The list `reconcileChildren` iterates over when given `props.children`:
   * None when reading `.length` throws (undefined or null).  A string is
   * iterated character by character; any other non-array has no numeric
   * length and behaves as an empty list.
   */
  function ChildList(v: Value): (r: Option<seq<Value>>)
    ensures r.None? <==> v.Undefined? || v.Null?
    ensures v.Arr? ==> r == Some(v.items)
    ensures r.Some? ==> forall i :: 0 <= i < |r.value| ==> (IsElement(r.value[i]) ==> v.Arr?)
  {
    match v
    case Undefined => None
    case Null => None
    case Arr(_, items) => Some(items)
    case Str(s) => Some(seq(|s|, i requires 0 <= i < |s| => Str([s[i]])))
    case _ => Some([])
  }
}
