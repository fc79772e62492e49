/**
 * Dash components as values.  A component has a kind (`Div`, `P`, `H1`,
 * `Link`, ...), the properties xplore reads or writes, and its children,
 * which Dash accepts as nothing, a string, one component or a list of
 * components.
 *
 * Dash components are addressed by the `id` of a descendant:
 * `layout[key]` finds, `layout[key] = v` replaces and `key in layout`
 * tests.  All three look at descendants only (never at the component
 * itself), in document order, checking a child's own id before searching
 * inside that child, and stop at the first match; a key that is not found
 * raises KeyError.  `Find`, `Replace` and `Contains` model them.  Dash
 * raises a bare KeyError for a root whose children cannot be indexed; the
 * model's error always carries the key.
 */
module Tree {
  import opened Base

  type Style = map<string, string>

  datatype Node = Node(
    kind: string,
    id: Option<string>,
    className: Option<string>,
    style: Option<Style>,
    href: Option<string>,
    children: Children)

  datatype Children = NoChildren | Text(text: string) | One(child: Node) | Many(items: seq<Node>)

  /** A component built with only `id`, `className` and `children`. */
  function Element(kind: string, id: Option<string>, className: Option<string>, children: Children): Node {
    Node(kind, id, className, None, None, children)
  }

  /** The ids in the subtree of `n`, `n`'s own first, in document order. */
  function AllIds(n: Node): seq<string>
    decreases n, 1
  {
    (if n.id.Some? then [n.id.value] else []) + DescIds(n)
  }

  /** The ids of the descendants of `n`, in document order. */
  function DescIds(n: Node): seq<string>
    decreases n, 0
  {
    match n.children
    case One(c) => AllIds(c)
    case Many(items) => IdsIn(items)
    case _ => []
  }

  function IdsIn(items: seq<Node>): seq<string>
    decreases items
  {
    if items == [] then [] else AllIds(items[0]) + IdsIn(items[1..])
  }

  lemma {:induction false} IdsInAppend(a: seq<Node>, b: seq<Node>)
    ensures IdsIn(a + b) == IdsIn(a) + IdsIn(b)
  {
    if a == [] {
      assert a + b == b;
    } else {
      assert (a + b)[1..] == a[1..] + b;
      IdsInAppend(a[1..], b);
    }
  }

  lemma InAllIds(n: Node, key: string)
    ensures key in AllIds(n) <==> n.id == Some(key) || key in DescIds(n)
  {
  }

  /** `key in layout`. */
  predicate Contains(n: Node, key: string) {
    key in DescIds(n)
  }

  /** `layout[key]`: the first descendant whose id is `key`. */
  function Find(n: Node, key: string): (r: Option<Node>)
    ensures r.Some? <==> Contains(n, key)
    ensures r.Some? ==> r.value.id == Some(key)
    decreases n, 0
  {
    match n.children
    case One(c) => InAllIds(c, key); if c.id == Some(key) then Some(c) else Find(c, key)
    case Many(items) => FindIn(items, key)
    case _ => None
  }

  function FindIn(items: seq<Node>, key: string): (r: Option<Node>)
    ensures r.Some? <==> key in IdsIn(items)
    ensures r.Some? ==> r.value.id == Some(key)
    decreases items
  {
    if items == [] then None
    else
      InAllIds(items[0], key);
      if items[0].id == Some(key) then Some(items[0])
      else match Find(items[0], key)
        case Some(f) => Some(f)
        case None => FindIn(items[1..], key)
  }

  /**
   * `layout[key] = v`: `v` takes the place of the first descendant whose
   * id is `key`; `None` when there is none (Dash raises KeyError).  The
   * component itself keeps its kind and properties.
   */
  function Replace(n: Node, key: string, v: Node): (r: Option<Node>)
    ensures r.Some? <==> Contains(n, key)
    ensures r.Some? ==> r.value.(children := n.children) == n
    decreases n, 0
  {
    match n.children
    case One(c) =>
      InAllIds(c, key);
      if c.id == Some(key) then Some(n.(children := One(v)))
      else (match Replace(c, key, v)
        case Some(c') => Some(n.(children := One(c')))
        case None => None)
    case Many(items) =>
      (match ReplaceIn(items, key, v)
        case Some(items') => Some(n.(children := Many(items')))
        case None => None)
    case _ => None
  }

  function ReplaceIn(items: seq<Node>, key: string, v: Node): (r: Option<seq<Node>>)
    ensures r.Some? <==> key in IdsIn(items)
    ensures r.Some? ==> |r.value| == |items|
    decreases items
  {
    if items == [] then None
    else
      InAllIds(items[0], key);
      if items[0].id == Some(key) then Some([v] + items[1..])
      else match Replace(items[0], key, v)
        case Some(first) => Some([first] + items[1..])
        case None =>
          (match ReplaceIn(items[1..], key, v)
            case Some(rest) => Some([items[0]] + rest)
            case None => None)
  }

  /** `layout[key].children = ch`: the first component with id `key` gets new children. */
  function SetChildren(n: Node, key: string, ch: Children): (r: Option<Node>)
    ensures r.Some? <==> Contains(n, key)
  {
    match Find(n, key)
    case Some(target) => Replace(n, key, target.(children := ch))
    case None => None
  }

  /** Setting an id-carrying component and then looking its id up returns it. */
  lemma {:induction false} FindAfterReplace(n: Node, key: string, v: Node)
    requires Contains(n, key) && v.id == Some(key)
    ensures Find(Replace(n, key, v).value, key) == Some(v)
    decreases n, 0
  {
    match n.children
    case One(c) =>
      InAllIds(c, key);
      if c.id != Some(key) {
        FindAfterReplace(c, key, v);
      }
    case Many(items) =>
      FindInAfterReplaceIn(items, key, v);
  }

  lemma {:induction false} FindInAfterReplaceIn(items: seq<Node>, key: string, v: Node)
    requires key in IdsIn(items) && v.id == Some(key)
    ensures FindIn(ReplaceIn(items, key, v).value, key) == Some(v)
    decreases items
  {
    var r := ReplaceIn(items, key, v).value;
    InAllIds(items[0], key);
    if items[0].id == Some(key) {
      assert r[0] == v;
    } else if Contains(items[0], key) {
      FindAfterReplace(items[0], key, v);
      assert r[0] == Replace(items[0], key, v).value;
    } else {
      FindInAfterReplaceIn(items[1..], key, v);
      assert r[1..] == ReplaceIn(items[1..], key, v).value;
    }
  }

  /** Replacing in a list skips a prefix that does not mention the key. */
  lemma {:induction false} ReplaceInSkips(a: seq<Node>, b: seq<Node>, key: string, v: Node)
    requires key !in IdsIn(a)
    ensures ReplaceIn(a + b, key, v) ==
      (match ReplaceIn(b, key, v)
        case Some(b') => Some(a + b')
        case None => None)
  {
    if a == [] {
      assert a + b == b;
      match ReplaceIn(b, key, v)
      case Some(b') => assert a + b' == b';
      case None =>
    } else {
      InAllIds(a[0], key);
      ReplaceInSkips(a[1..], b, key, v);
      ReplaceInSkipsStep(a, b, key, v);
    }
  }

  lemma ReplaceInSkipsStep(a: seq<Node>, b: seq<Node>, key: string, v: Node)
    requires a != [] && key !in AllIds(a[0])
    requires ReplaceIn(a[1..] + b, key, v) ==
      (match ReplaceIn(b, key, v)
        case Some(b') => Some(a[1..] + b')
        case None => None)
    ensures ReplaceIn(a + b, key, v) ==
      (match ReplaceIn(b, key, v)
        case Some(b') => Some(a + b')
        case None => None)
  {
    assert (a + b)[0] == a[0] && (a + b)[1..] == a[1..] + b;
    InAllIds(a[0], key);
    match ReplaceIn(b, key, v)
    case Some(b') =>
      assert [a[0]] + (a[1..] + b') == a + b';
    case None =>
  }

  /** Replacing in a list stops at the first match, leaving the suffix alone. */
  lemma {:induction false} ReplaceInStops(a: seq<Node>, b: seq<Node>, key: string, v: Node)
    requires key in IdsIn(a)
    ensures ReplaceIn(a + b, key, v) == Some(ReplaceIn(a, key, v).value + b)
  {
    assert a != [];
    InAllIds(a[0], key);
    if key in AllIds(a[0]) {
      ReplaceInStopsHere(a, b, key, v);
    } else {
      ReplaceInStops(a[1..], b, key, v);
      ReplaceInStopsLater(a, b, key, v);
    }
  }

  lemma ReplaceInStopsHere(a: seq<Node>, b: seq<Node>, key: string, v: Node)
    requires a != [] && key in AllIds(a[0])
    ensures ReplaceIn(a + b, key, v) == Some(ReplaceIn(a, key, v).value + b)
  {
    assert (a + b)[0] == a[0] && (a + b)[1..] == a[1..] + b;
    InAllIds(a[0], key);
    var first := if a[0].id == Some(key) then v else Replace(a[0], key, v).value;
    assert [first] + (a + b)[1..] == ([first] + a[1..]) + b;
  }

  lemma ReplaceInStopsLater(a: seq<Node>, b: seq<Node>, key: string, v: Node)
    requires a != [] && key !in AllIds(a[0]) && key in IdsIn(a[1..])
    requires ReplaceIn(a[1..] + b, key, v) == Some(ReplaceIn(a[1..], key, v).value + b)
    ensures ReplaceIn(a + b, key, v) == Some(ReplaceIn(a, key, v).value + b)
  {
    assert (a + b)[0] == a[0] && (a + b)[1..] == a[1..] + b;
    InAllIds(a[0], key);
    var rest := ReplaceIn(a[1..], key, v).value;
    assert [a[0]] + (rest + b) == ([a[0]] + rest) + b;
  }

  /** An id occurs among a list's ids exactly when it occurs in one of the list's subtrees. */
  lemma {:induction false} IdsInMembers(items: seq<Node>, key: string)
    ensures key in IdsIn(items) <==> exists i :: 0 <= i < |items| && key in AllIds(items[i])
    decreases items
  {
    if items != [] {
      IdsInMembers(items[1..], key);
      if key in IdsIn(items[1..]) {
        var i :| 0 <= i < |items[1..]| && key in AllIds(items[1..][i]);
        assert key in AllIds(items[i + 1]);
      }
      forall i | 1 <= i < |items| && key in AllIds(items[i])
        ensures key in IdsIn(items[1..])
      {
        assert items[1..][i - 1] == items[i];
      }
    }
  }

  /** Replacing in a list whose item `m` is the first to mention `key`, as its own id. */
  lemma ReplaceInAt(items: seq<Node>, m: nat, key: string, v: Node)
    requires m < |items| && key !in IdsIn(items[..m]) && items[m].id == Some(key)
    ensures ReplaceIn(items, key, v) == Some(items[m := v])
  {
    var tail := items[m..];
    assert items == items[..m] + tail;
    ReplaceInSkips(items[..m], tail, key, v);
    ReplaceInFirst(tail, key, v, v);
    assert items[..m] + ([v] + tail[1..]) == items[m := v];
  }

  /** Replacing in a list whose item `m` is the first to mention `key`, inside its subtree. */
  lemma ReplaceInWithin(items: seq<Node>, m: nat, key: string, v: Node)
    requires m < |items| && key !in IdsIn(items[..m])
    requires items[m].id != Some(key) && Contains(items[m], key)
    ensures ReplaceIn(items, key, v) == Some(items[m := Replace(items[m], key, v).value])
  {
    var tail := items[m..];
    var first := Replace(items[m], key, v).value;
    assert items == items[..m] + tail;
    ReplaceInSkips(items[..m], tail, key, v);
    ReplaceInFirst(tail, key, v, first);
    assert items[..m] + ([first] + tail[1..]) == items[m := first];
  }

  /** Replacing in a list whose first item mentions `key` changes that item only. */
  lemma ReplaceInFirst(items: seq<Node>, key: string, v: Node, first: Node)
    requires items != []
    requires items[0].id == Some(key) ==> first == v
    requires items[0].id != Some(key) ==> Contains(items[0], key) && first == Replace(items[0], key, v).value
    ensures ReplaceIn(items, key, v) == Some([first] + items[1..])
  {
  }

  /**
   * Putting, in place of the first component with id `key`, a component
   * without an id that holds it (a wrapper) leaves it the first component
   * found under `key`.
   */
  lemma {:induction false} FindAfterWrap(n: Node, key: string, v: Node)
    requires Contains(n, key) && v.id == None && v.children == One(Find(n, key).value)
    ensures Find(Replace(n, key, v).value, key) == Find(n, key)
    decreases n, 0
  {
    match n.children
    case One(c) =>
      InAllIds(c, key);
      if c.id != Some(key) {
        FindAfterWrap(c, key, v);
      }
    case Many(items) =>
      FindInAfterWrap(items, key, v);
  }

  lemma {:induction false} FindInAfterWrap(items: seq<Node>, key: string, v: Node)
    requires key in IdsIn(items) && v.id == None && v.children == One(FindIn(items, key).value)
    ensures FindIn(ReplaceIn(items, key, v).value, key) == FindIn(items, key)
    decreases items
  {
    var r := ReplaceIn(items, key, v).value;
    InAllIds(items[0], key);
    if items[0].id == Some(key) {
      assert r[0] == v;
    } else if Contains(items[0], key) {
      FindAfterWrap(items[0], key, v);
      assert r[0] == Replace(items[0], key, v).value;
    } else {
      FindInAfterWrap(items[1..], key, v);
      assert r[0] == items[0] && r[1..] == ReplaceIn(items[1..], key, v).value;
    }
  }

  /** Replacing a component by one with the same ids leaves the ids of the whole unchanged. */
  lemma {:induction false} DescIdsAfterReplace(n: Node, key: string, v: Node)
    requires Contains(n, key) && AllIds(v) == AllIds(Find(n, key).value)
    ensures DescIds(Replace(n, key, v).value) == DescIds(n)
    decreases n, 0
  {
    match n.children
    case One(c) =>
      InAllIds(c, key);
      if c.id != Some(key) {
        DescIdsAfterReplace(c, key, v);
      }
    case Many(items) =>
      IdsInAfterReplaceIn(items, key, v);
  }

  lemma {:induction false} IdsInAfterReplaceIn(items: seq<Node>, key: string, v: Node)
    requires key in IdsIn(items) && AllIds(v) == AllIds(FindIn(items, key).value)
    ensures IdsIn(ReplaceIn(items, key, v).value) == IdsIn(items)
    decreases items
  {
    var r := ReplaceIn(items, key, v).value;
    InAllIds(items[0], key);
    if items[0].id == Some(key) {
      assert r[0] == v && r[1..] == items[1..];
    } else if Contains(items[0], key) {
      DescIdsAfterReplace(items[0], key, v);
      assert r[0] == Replace(items[0], key, v).value && r[1..] == items[1..];
    } else {
      IdsInAfterReplaceIn(items[1..], key, v);
      assert r[0] == items[0] && r[1..] == ReplaceIn(items[1..], key, v).value;
    }
  }
}
