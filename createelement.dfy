/**
 * Descriptor construction (core/createElement.ts): a pure function from a
 * type, a props object and the children to a normalised descriptor.
 *
 * Every call allocates new objects (the props object, the children array and
 * one descriptor per wrapped text child).  Their identities are drawn from
 * `base` upwards: the props object and the children array get `base`, the
 * text descriptor made for the k-th kept child gets `base + 1 + k`.
 */
module CreateElement {
  import opened Values

  /** createTextNode: a TEXT_ELEMENT descriptor holding `String(v)`. */
  function CreateTextNode(v: Value, id: ObjId): (r: Value)
    ensures r.Elem? && r.etype == Tag(TEXT_ELEMENT)
    ensures Get(r.props, NODE_VALUE) == Str(ToStr(v))
    ensures Get(r.props, CHILDREN).Arr? && Get(r.props, CHILDREN).items == []
    ensures WellFormed(r.props)
  {
    Elem(Tag(TEXT_ELEMENT), Props(id, [NODE_VALUE, CHILDREN], map[NODE_VALUE := Str(ToStr(v)), CHILDREN := Arr(id, [])]))
  }

  /** `children.filter(child => child != null)`. */
  function DropNulls(children: seq<Value>): (r: seq<Value>)
    ensures forall i :: 0 <= i < |r| ==> !r[i].Null? && !r[i].Undefined?
    ensures |r| <= |children|
  {
    if children == [] then []
    else if children[0].Null? || children[0].Undefined? then DropNulls(children[1..])
    else [children[0]] + DropNulls(children[1..])
  }

  /** The `.map` step: strings and numbers become text descriptors. */
  function Wrap(v: Value, id: ObjId): Value {
    if v.Str? || v.Num? then CreateTextNode(v, id) else v
  }

  function WrapAll(s: seq<Value>, base: ObjId): (r: seq<Value>)
    ensures |r| == |s|
    ensures forall k :: 0 <= k < |s| ==> r[k] == Wrap(s[k], base + 1 + k)
  {
    seq(|s|, k requires 0 <= k < |s| => Wrap(s[k], base + 1 + k))
  }

  /** `.flat(Infinity)`. */
  function Flatten(s: seq<Value>): (r: seq<Value>)
    ensures forall i :: 0 <= i < |r| ==> !r[i].Arr?
  {
    if s == [] then []
    else (if s[0].Arr? then Flatten(s[0].items) else [s[0]]) + Flatten(s[1..])
  }

  /** The children a descriptor ends up with. */
  function NormaliseChildren(children: seq<Value>, base: ObjId): seq<Value> {
    Flatten(WrapAll(DropNulls(children), base))
  }

  /** `{...props, children}`: the given keys in order, `children` last unless it was already there. */
  function SpreadWithChildren(given: Props, children: Value, id: ObjId): Props {
    Props(id,
          if CHILDREN in given.keys then given.keys else given.keys + [CHILDREN],
          given.fields[CHILDREN := children])
  }

  const NoProps := Props(0, [], map[])

  /** createElement(type, props, ...children); a null props is `None`. */
  function CreateElement(t: ElemType, props: Option<Props>, children: seq<Value>, base: ObjId): (r: Value)
    ensures r.Elem? && r.etype == t
  {
    var given := if props.Some? then props.value else NoProps;
    Elem(t, SpreadWithChildren(given, Arr(base, NormaliseChildren(children, base)), base))
  }

  /** Every given prop is kept, and the computed `children` overrides a given one. */
  lemma CreateElementProps(t: ElemType, props: Option<Props>, children: seq<Value>, base: ObjId, k: string)
    ensures var r := CreateElement(t, props, children, base);
      && Get(r.props, CHILDREN) == Arr(base, NormaliseChildren(children, base))
      && (props.Some? && k != CHILDREN ==> Get(r.props, k) == Get(props.value, k))
      && (props.None? && k != CHILDREN ==> Get(r.props, k) == Undefined)
      && (props.Some? && WellFormed(props.value) ==> WellFormed(r.props))
  {
    var r := CreateElement(t, props, children, base);
    if props.Some? && WellFormed(props.value) {
      var g := props.value;
      var keys := r.props.keys;
      forall i, j | 0 <= i < j < |keys| ensures keys[i] != keys[j] {
        if CHILDREN !in g.keys && j == |g.keys| {
          assert keys[i] == g.keys[i];
        }
      }
    }
  }

  lemma {:induction false} DropNullsKeeps(children: seq<Value>)
    requires forall i :: 0 <= i < |children| ==> !children[i].Null? && !children[i].Undefined?
    ensures DropNulls(children) == children
  {
    if children != [] {
      DropNullsKeeps(children[1..]);
    }
  }

  lemma {:induction false} FlattenAppend(xs: seq<Value>, ys: seq<Value>)
    ensures Flatten(xs + ys) == Flatten(xs) + Flatten(ys)
  {
    if xs == [] {
      assert xs + ys == ys;
    } else {
      assert (xs + ys)[0] == xs[0];
      assert (xs + ys)[1..] == xs[1..] + ys;
      FlattenAppend(xs[1..], ys);
    }
  }

  /** Flattening leaves a list without arrays as it is, so order is preserved. */
  lemma {:induction false} FlattenFlat(s: seq<Value>)
    requires forall i :: 0 <= i < |s| ==> !s[i].Arr?
    ensures Flatten(s) == s
  {
    if s != [] {
      FlattenFlat(s[1..]);
    }
  }

  /** Flattening is idempotent. */
  lemma FlattenIdempotent(s: seq<Value>)
    ensures Flatten(Flatten(s)) == Flatten(s)
  {
    FlattenFlat(Flatten(s));
  }

  /**
   * With no array among the children: nulls and undefineds are dropped, the
   * others keep their order, strings and numbers become text descriptors
   * holding their string form, and every other child is kept as it is.
   */
  lemma NormaliseFlatChildren(children: seq<Value>, base: ObjId)
    requires forall i :: 0 <= i < |children| ==> !children[i].Arr?
    ensures var kept := DropNulls(children);
      var r := NormaliseChildren(children, base);
      && |r| == |kept|
      && forall k :: 0 <= k < |r| ==>
           && (kept[k].Str? || kept[k].Num? ==>
                 r[k].Elem? && r[k].etype == Tag(TEXT_ELEMENT) && Get(r[k].props, NODE_VALUE) == Str(ToStr(kept[k])))
           && (!kept[k].Str? && !kept[k].Num? ==> r[k] == kept[k])
  {
    var kept := DropNulls(children);
    DropNullsNoArrays(children);
    var w := WrapAll(kept, base);
    assert forall i :: 0 <= i < |w| ==> !w[i].Arr?;
    FlattenFlat(w);
  }

  lemma {:induction false} DropNullsNoArrays(children: seq<Value>)
    requires forall i :: 0 <= i < |children| ==> !children[i].Arr?
    ensures forall i :: 0 <= i < |DropNulls(children)| ==> !DropNulls(children)[i].Arr?
  {
    if children != [] {
      DropNullsNoArrays(children[1..]);
    }
  }

  /** Nested arrays are flattened after filtering and wrapping: their nulls, strings and numbers pass through. */
  lemma NestedArrayPassesThrough(aid: ObjId, items: seq<Value>, base: ObjId)
    ensures NormaliseChildren([Arr(aid, items)], base) == Flatten(items)
  {
    var c := [Arr(aid, items)];
    assert DropNulls(c) == [Arr(aid, items)] + DropNulls([]);
    assert WrapAll(DropNulls(c), base) == [Arr(aid, items)];
    assert Flatten([Arr(aid, items)]) == Flatten(items) + Flatten([]);
  }

  /** An example: a nested null, string and number survive as they are. */
  lemma NestedExample()
    ensures NormaliseChildren([Arr(7, [Null, Str("a"), Num(1)])], 9) == [Null, Str("a"), Num(1)]
  {
    NestedArrayPassesThrough(7, [Null, Str("a"), Num(1)], 9);
    FlattenFlat([Null, Str("a"), Num(1)]);
  }
}
