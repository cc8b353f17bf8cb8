/** The serializer, interpreter (src/interpreter/index.js): an object's
    `value` when it is truthy, otherwise the concatenation of what its
    `children` serialize to, otherwise the empty string. */
module Interpreter {
  import opened Strings
  import opened Nodes

  /** The two properties interpreter reads from a JavaScript object. An
      absent `value` is `None`; `children` is read only when `hasChildren`
      says the property is there. */
  datatype Obj = Obj(value: Option<string>, hasChildren: bool, children: seq<Obj>)

  /** A string is truthy exactly when it is not empty. */
  predicate Truthy(v: Option<string>) {
    v.Some? && v.value != []
  }

  /** interpreter. */
  function Interpret(o: Obj): (r: string)
    decreases o
  {
    if Truthy(o.value) then o.value.value
    else if o.hasChildren then Concat(seq(|o.children|, k requires 0 <= k < |o.children| => Interpret(o.children[k])))
    else []
  }

  /** `children.map((token) => interpreter(token))`. */
  function MapInterpret(cs: seq<Obj>): (r: seq<string>)
    ensures |r| == |cs| && forall k :: 0 <= k < |cs| ==> r[k] == Interpret(cs[k])
  {
    seq(|cs|, k requires 0 <= k < |cs| => Interpret(cs[k]))
  }

  lemma Unfold(o: Obj)
    requires !Truthy(o.value) && o.hasChildren
    ensures Interpret(o) == Concat(MapInterpret(o.children))
  {
    assert MapInterpret(o.children) ==
      seq(|o.children|, k requires 0 <= k < |o.children| => Interpret(o.children[k]));
  }

  /** A truthy value wins: whatever the children, they are never read. */
  lemma ValueHidesChildren(v: string, has: bool, cs: seq<Obj>)
    requires v != []
    ensures Interpret(Obj(Some(v), has, cs)) == v
  {
  }

  /** An object with an empty or absent value serializes to the in-order
      concatenation of its children's serializations, which splits at any point
      of the children array. */
  lemma ChildrenConcatenate(v: Option<string>, a: seq<Obj>, b: seq<Obj>)
    requires !Truthy(v)
    ensures Interpret(Obj(v, true, a + b)) == Interpret(Obj(v, true, a)) + Interpret(Obj(v, true, b))
  {
    assert MapInterpret(a + b) == MapInterpret(a) + MapInterpret(b);
    ConcatAppend(MapInterpret(a), MapInterpret(b));
    Unfold(Obj(v, true, a + b));
    Unfold(Obj(v, true, a));
    Unfold(Obj(v, true, b));
  }

  /** Without a truthy value and without children the result is `''`; so is
      the result for an array of such objects. */
  lemma BlankChildren(v: Option<string>, cs: seq<Obj>)
    requires !Truthy(v)
    requires forall k :: 0 <= k < |cs| ==> !Truthy(cs[k].value) && !cs[k].hasChildren
    ensures Interpret(Obj(v, false, cs)) == []
    ensures Interpret(Obj(v, true, cs)) == []
  {
    ConcatOfEmpties(MapInterpret(cs));
    Unfold(Obj(v, true, cs));
  }

  /** How interpreter sees a node: its value, and its children array when it
      has one. A list item shows its value; a definition entry
      `{ term, definition }` and a table row (an array of strings) have neither
      property. */
  function AsObj(n: Node): Obj {
    match n.children
    case NoChildren => Obj(Some(n.value), false, [])
    case Items(items) => Obj(Some(n.value), true, seq(|items|, k requires 0 <= k < |items| => ItemObj(items[k])))
    case Definitions(defs) => Obj(Some(n.value), true, seq(|defs|, k => Obj(None, false, [])))
    case Rows(rows) => Obj(Some(n.value), true, seq(|rows|, k => Obj(None, false, [])))
  }

  function ItemObj(item: ListItem): Obj {
    Obj(Some(item.value), false, [])
  }

  /** A node serializes to its own value, its children unread: every node the
      scanner builds has a non-empty value. */
  lemma InterpretNode(n: Node)
    requires IsElement(n.value)
    ensures Interpret(AsObj(n)) == n.value
  {
  }

  /** The children of a list node on their own: the item values in order, an
      empty item value contributing nothing. */
  lemma InterpretItems(items: seq<ListItem>)
    ensures Interpret(Obj(None, true, seq(|items|, k requires 0 <= k < |items| => ItemObj(items[k])))) ==
      Concat(seq(|items|, k requires 0 <= k < |items| => items[k].value))
  {
    var os := seq(|items|, k requires 0 <= k < |items| => ItemObj(items[k]));
    assert MapInterpret(os) == seq(|items|, k requires 0 <= k < |items| => items[k].value);
    Unfold(Obj(None, true, os));
  }

  /** The syntax tree as the children of one root object. */
  function Document(tree: seq<Node>): Obj {
    Obj(None, true, seq(|tree|, k requires 0 <= k < |tree| => AsObj(tree[k])))
  }

  function Values(tree: seq<Node>): seq<string> {
    seq(|tree|, k requires 0 <= k < |tree| => tree[k].value)
  }

  /** Serializing a whole tree of scanner nodes gives the concatenation of
      their values, in order. */
  lemma InterpretDocument(tree: seq<Node>)
    requires AllElements(tree)
    ensures Interpret(Document(tree)) == Concat(Values(tree))
  {
    var os := Document(tree).children;
    forall k | 0 <= k < |tree| ensures Interpret(os[k]) == tree[k].value {
      InterpretNode(tree[k]);
    }
    assert MapInterpret(os) == Values(tree);
    Unfold(Document(tree));
  }
}
